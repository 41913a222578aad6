/**
 Expectations as the source keeps them: queues edited in place while they are walked, a
 length field, and the counter.
 */
module ExpectationQueue {
  import opened Common
  import opened ExpectationModel

  /** The pass has looked at `n` expectations of the queue and left `i` of them. */
  ghost predicate PassAt(w: World, v: World, pair: nat, p: Pass, n: nat, i: nat) {
    && pair in w.queues && QueueOk(w.queues[pair])
    && var items := w.queues[pair].items;
    && n <= |items| && i == |Left(items[..n], p)| && i + (|items| - n) > 0
    && v.counter == w.counter - (n - i)
    && v.queues == w.queues[pair := Queue(Left(items[..n], p) + items[n..], i + (|items| - n))]
  }

  lemma PassStart(w: World, pair: nat, p: Pass)
    requires pair in w.queues && QueueOk(w.queues[pair])
    ensures PassAt(w, w, pair, p, 0, 0)
  {
    var items := w.queues[pair].items;
    assert items[..0] == [] && [] + items[0..] == items;
  }

  lemma LeftStep(items: seq<Expectation>, n: nat, p: Pass)
    requires n < |items|
    ensures Left(items[..n + 1], p) == Left(items[..n], p) + if Removes(p, items[n]) then [] else [items[n]]
  {
    hide Removes;
    assert items[..n + 1][..n] == items[..n];
  }

  lemma PassTurn(w: World, v: World, pair: nat, p: Pass, n: nat, i: nat)
    requires PassAt(w, v, pair, p, n, i)
    ensures pair in v.queues && n <= |w.queues[pair].items|
    ensures n == |w.queues[pair].items| ==> i == |v.queues[pair].items| && v == Passed(w, pair, p)
    ensures n < |w.queues[pair].items| ==>
              var items, q := w.queues[pair].items, v.queues[pair];
              && i < |q.items| && q.items[i] == items[n] && q.length == |q.items|
              && (!Removes(p, items[n]) ==> PassAt(w, v, pair, p, n + 1, i + 1))
              && (Removes(p, items[n]) && q.length > 1 ==> PassAt(w, Without(v, pair, i), pair, p, n + 1, i))
              && (Removes(p, items[n]) && q.length == 1 ==>
                   n + 1 == |items| && Without(v, pair, i) == Passed(w, pair, p))
  {
    hide Removes, Left, PassAt, Without, Passed;
    PassCursor(w, v, pair, p, n, i);
    var items := w.queues[pair].items;
    if n == |items| {
      PassEnd(w, v, pair, p, i);
    } else if !Removes(p, items[n]) {
      PassKeeps(w, v, pair, p, n, i);
    } else if v.queues[pair].length > 1 {
      PassRemoves(w, v, pair, p, n, i);
    } else {
      PassEmpties(w, v, pair, p, n, i);
    }
  }

  lemma PassCursor(w: World, v: World, pair: nat, p: Pass, n: nat, i: nat)
    requires PassAt(w, v, pair, p, n, i)
    ensures pair in w.queues && pair in v.queues && n <= |w.queues[pair].items|
    ensures v.queues[pair].length == |v.queues[pair].items| == i + (|w.queues[pair].items| - n) > 0
    ensures n < |w.queues[pair].items| ==> v.queues[pair].items[i] == w.queues[pair].items[n]
  {
    hide Left;
  }

  lemma PassEnd(w: World, v: World, pair: nat, p: Pass, i: nat)
    requires pair in w.queues && PassAt(w, v, pair, p, |w.queues[pair].items|, i)
    ensures v == Passed(w, pair, p)
  {
    hide Left;
    var items := w.queues[pair].items;
    assert items[..|items|] == items && Left(items, p) + items[|items|..] == Left(items, p);
  }

  lemma PassKeeps(w: World, v: World, pair: nat, p: Pass, n: nat, i: nat)
    requires PassAt(w, v, pair, p, n, i) && n < |w.queues[pair].items| && !Removes(p, w.queues[pair].items[n])
    ensures PassAt(w, v, pair, p, n + 1, i + 1)
  {
    hide Left, Removes;
    var items := w.queues[pair].items;
    LeftStep(items, n, p);
    var left := Left(items[..n], p);
    assert left + items[n..] == (left + [items[n]]) + items[n + 1..];
  }

  lemma UpdateTwice(m: map<nat, Queue>, k: nat, a: Queue, b: Queue)
    ensures m[k := a][k := b] == m[k := b] && m[k := a] - {k} == m - {k}
  {
  }

  lemma PassRemoves(w: World, v: World, pair: nat, p: Pass, n: nat, i: nat)
    requires PassAt(w, v, pair, p, n, i) && n < |w.queues[pair].items| && Removes(p, w.queues[pair].items[n])
    requires v.queues[pair].length > 1
    ensures i < |v.queues[pair].items| && PassAt(w, Without(v, pair, i), pair, p, n + 1, i)
  {
    hide Left, Removes;
    var items, q := w.queues[pair].items, v.queues[pair];
    LeftStep(items, n, p);
    var left := Left(items[..n], p);
    assert left + [] == left;
    assert q.items[..i] + q.items[i + 1..] == left + items[n + 1..];
    UpdateTwice(w.queues, pair, q, Queue(left + items[n + 1..], q.length - 1));
  }

  lemma PassEmpties(w: World, v: World, pair: nat, p: Pass, n: nat, i: nat)
    requires PassAt(w, v, pair, p, n, i) && n < |w.queues[pair].items| && Removes(p, w.queues[pair].items[n])
    requires v.queues[pair].length == 1
    ensures i < |v.queues[pair].items| && n + 1 == |w.queues[pair].items| && Without(v, pair, i) == Passed(w, pair, p)
  {
    hide Left, Removes;
    var items := w.queues[pair].items;
    LeftStep(items, n, p);
    assert items[..n + 1] == items;
    UpdateTwice(w.queues, pair, v.queues[pair], v.queues[pair]);
  }

  /** Removal of the i-th expectation of a queue. */
  function Without(w: World, pair: nat, i: nat): World
    requires pair in w.queues && i < |w.queues[pair].items| && w.queues[pair].length > 0
  {
    var q := w.queues[pair];
    World(if q.length == 1 then w.queues - {pair}
      else w.queues[pair := Queue(q.items[..i] + q.items[i + 1..], q.length - 1)],
          w.counter - 1)
  }

  lemma ApplyStep(items: seq<Expectation>, n: nat, f: Flow, flags: set<nat>)
    requires n < |items|
    ensures ApplyAll(items[..n + 1], f, flags) ==
            var h := ApplyAll(items[..n], f, flags);
            if Matches(items[n], f, flags) then Apply(h, items[n].alproto) else h
  {
    assert items[..n + 1][..n] == items[..n];
  }

  class Expectations {
    var queues: map<nat, Queue>
    var counter: int

    function View(): World
      reads this
    {
      World(queues, counter)
    }

    ghost predicate Valid()
      reads this
    {
      WorldOk(View())
    }

    constructor ()
      ensures Valid() && View() == After([])
    {
      queues, counter := map[], 0;
    }

    /** AppLayerExpectationCreate. */
    method Create(pair: Option<nat>, e: Expectation, available: bool)
      requires Valid()
      modifies this
      ensures Valid() && View() == ExpectationModel.Create(old(View()), pair, e, available)
    {
      hide WorldOk;
      StepOk(View(), Creating(pair, e, available));
      if pair.None? || !available {
        return;
      }
      var p := pair.value;
      if p in queues {
        var q := queues[p];
        var items := [e] + q.items;
        if q.length >= MAX_LEVEL {
          queues := queues[p := Queue(items[..|items| - 1], q.length)];
          return;
        }
        queues := queues[p := Queue(items, q.length + 1)];
      } else {
        queues := queues[p := Queue([e], 1)];
      }
      counter := counter + 1;
    }

    /** AppLayerExpectationRemove: the queue itself goes with its last expectation. */
    method Remove(pair: nat, i: nat) returns (gone: bool)
      requires pair in queues && i < |queues[pair].items| && queues[pair].length > 0
      modifies this
      ensures View() == Without(old(View()), pair, i)
      ensures gone == (old(queues[pair].length) == 1)
    {
      var q := queues[pair];
      var rest := Queue(q.items[..i] + q.items[i + 1..], q.length - 1);
      counter := counter - 1;
      gone := rest.length == 0;
      queues := if gone then queues - {pair} else queues[pair := rest];
    }

    /** AppLayerExpectationHandle: matching and timed-out expectations go, and each match is
        applied to the flow. */
    method Handle(f: Flow, flags: set<nat>) returns (alproto: nat, flow: Flow)
      requires Valid()
      modifies this
      ensures Valid() && View() == PassedIfAny(old(View()), f.pair, Handling(f, flags))
      ensures Handled(alproto, flow) == HandledIfAny(old(View()), f, flags)
    {
      hide WorldOk, PassAt, Without, Passed, ApplyAll, Matches, TimedOut, Left;
      ghost var w := View();
      StepOk(w, Passing(f.pair, Handling(f, flags)));
      alproto, flow := ALPROTO_UNKNOWN, f;
      if counter == 0 || f.pair.None? || f.pair.value !in queues {
        return;
      }
      var pair := f.pair.value;
      ghost var items, p, n := queues[pair].items, Handling(f, flags), 0;
      QueueKnown(w, pair);
      PassStart(w, pair, p);
      PassTurn(w, w, pair, p, 0, 0);
      ApplyNone(items, f, flags);
      var i := 0;
      while i < |queues[pair].items|
        invariant pair in queues && PassAt(w, View(), pair, p, n, i)
        invariant n <= |items| && (i < |queues[pair].items| <==> n < |items|)
        invariant Handled(alproto, flow) == ApplyAll(items[..n], f, flags)
        decreases |items| - n
      {
        PassTurn(w, View(), pair, p, n, i);
        ApplyStep(items, n, f, flags);
        var e := queues[pair].items[i];
        n := n + 1;
        if Matches(e, f, flags) {
          alproto := e.alproto;
          flow := Apply(Handled(alproto, flow), alproto).flow;
          var gone := Remove(pair, i);
          if gone {
            assert items[..n] == items;
            return;
          }
        } else if TimedOut(e, f) {
          var gone := Remove(pair, i);
          if gone {
            assert items[..n] == items;
            return;
          }
        } else {
          i := i + 1;
        }
        PassTurn(w, View(), pair, p, n, i);
      }
      PassTurn(w, View(), pair, p, n, i);
      assert items[..n] == items;
    }

    /** AppLayerExpectationClean: the expectations a flow has raised go with it. */
    method Clean(f: Flow)
      requires Valid()
      modifies this
      ensures Valid() && View() == PassedIfAny(old(View()), f.pair, Cleaning(f.id))
    {
      hide WorldOk, PassAt, Without, Passed, Left, Removes;
      ghost var w := View();
      StepOk(w, Passing(f.pair, Cleaning(f.id)));
      if counter == 0 || f.pair.None? || f.pair.value !in queues {
        return;
      }
      var pair := f.pair.value;
      ghost var items, p, n := queues[pair].items, Cleaning(f.id), 0;
      QueueKnown(w, pair);
      PassStart(w, pair, p);
      PassTurn(w, w, pair, p, 0, 0);
      var i := 0;
      while i < |queues[pair].items|
        invariant pair in queues && PassAt(w, View(), pair, p, n, i)
        invariant n <= |items| && (i < |queues[pair].items| <==> n < |items|)
        decreases |items| - n
      {
        PassTurn(w, View(), pair, p, n, i);
        CleaningRemoves(f.id, items[n]);
        n := n + 1;
        if queues[pair].items[i].origin == f.id {
          var gone := Remove(pair, i);
          if gone {
            return;
          }
        } else {
          i := i + 1;
        }
        PassTurn(w, View(), pair, p, n, i);
      }
      PassTurn(w, View(), pair, p, n, i);
    }

    /** ExpectationListFree, when the pair goes: the counter is left as it is. */
    method Free(pair: nat)
      requires Valid()
      modifies this
      ensures Valid() && View() == Next(old(View()), Teardown(pair))
    {
      hide WorldOk;
      StepOk(View(), Teardown(pair));
      queues := queues - {pair};
    }
  }

  lemma CleaningRemoves(id: nat, e: Expectation)
    ensures Removes(Cleaning(id), e) <==> e.origin == id
  {
  }

  lemma QueueKnown(w: World, pair: nat)
    requires WorldOk(w) && pair in w.queues
    ensures QueueOk(w.queues[pair])
  {
  }

  lemma ApplyNone(items: seq<Expectation>, f: Flow, flags: set<nat>)
    ensures ApplyAll(items[..0], f, flags) == Handled(ALPROTO_UNKNOWN, f)
  {
  }
}
