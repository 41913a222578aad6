/**
 Expected flows between pairs of hosts: per pair a queue of at most ten expectations, newest
 first, and a global counter that lets lookups be skipped while nothing is expected.
 */
module ExpectationModel {
  import opened Common

  const TIMEOUT: nat := 30
  const MAX_LEVEL: nat := 10
  const ALPROTO_UNKNOWN: nat := 0

  /** An expectation; `direction` is a set of direction bits, port 0 stands for any port. */
  datatype Expectation = Expectation(ts: nat, sp: nat, dp: nat, alproto: nat, direction: set<nat>, origin: nat)

  datatype Queue = Queue(items: seq<Expectation>, length: nat)

  /** A flow: its identity, its host pair if it has addresses, and the fields used here. */
  datatype Flow = Flow(id: nat, pair: Option<nat>, sp: nat, dp: nat, lastts: nat, alprotoTs: nat, alprotoTc: nat)

  datatype World = World(queues: map<nat, Queue>, counter: int)

  // ----- creation -----

  function Pushed(q: Queue, e: Expectation): Queue {
    if q.length >= MAX_LEVEL then Queue(([e] + q.items)[..|q.items|], q.length)
    else Queue([e] + q.items, q.length + 1)
  }

  /** AppLayerExpectationCreate; `available` says that memory and the pair were to be had. */
  function Create(w: World, pair: Option<nat>, e: Expectation, available: bool): World {
    if pair.None? || !available then w
    else
      var p := pair.value;
      if p !in w.queues then World(w.queues[p := Queue([e], 1)], w.counter + 1)
      else
        World(w.queues[p := Pushed(w.queues[p], e)], w.counter + if w.queues[p].length >= MAX_LEVEL then 0 else 1)
  }

  // ----- removal -----

  predicate Matches(e: Expectation, f: Flow, flags: set<nat>) {
    !(e.direction !! flags) && (e.sp == 0 || e.sp == f.sp) && (e.dp == 0 || e.dp == f.dp)
  }

  predicate TimedOut(e: Expectation, f: Flow) { f.lastts > e.ts + TIMEOUT }

  /** What a pass over a queue removes. */
  datatype Pass = Handling(f: Flow, flags: set<nat>) | Cleaning(origin: nat)

  predicate Removes(p: Pass, e: Expectation) {
    match p
    case Handling(f, flags) => Matches(e, f, flags) || TimedOut(e, f)
    case Cleaning(origin) => e.origin == origin
  }

  /** The expectations a pass leaves, in order. */
  function Left(items: seq<Expectation>, p: Pass): (s: seq<Expectation>)
    ensures |s| <= |items|
  {
    if items == [] then []
    else
      var s := Left(items[..|items| - 1], p);
      if Removes(p, items[|items| - 1]) then s else s + [items[|items| - 1]]
  }

  /** A pass over the queue of a pair; a queue that becomes empty is taken down. */
  function Passed(w: World, pair: nat, p: Pass): World
    requires pair in w.queues
  {
    var q := w.queues[pair];
    var left := Left(q.items, p);
    var removed := |q.items| - |left|;
    World(if removed > 0 && q.length <= removed then w.queues - {pair}
          else w.queues[pair := Queue(left, if removed <= q.length then q.length - removed else 0)],
          w.counter - removed)
  }

  /** A full lookup and pass. */
  function PassedFully(w: World, pair: Option<nat>, p: Pass): World {
    if pair.Some? && pair.value in w.queues then Passed(w, pair.value, p) else w
  }

  /** The pass as the source makes it: not at all while the counter is zero. */
  function PassedIfAny(w: World, pair: Option<nat>, p: Pass): World {
    if w.counter == 0 then w else PassedFully(w, pair, p)
  }

  /** What matching expectations do to the flow, in queue order: the result is the protocol
      of the last of them, and each fills the protocols still unknown. */
  datatype Handled = Handled(alproto: nat, flow: Flow)

  function Apply(h: Handled, alproto: nat): Handled {
    var f := h.flow;
    Handled(alproto, f.(alprotoTs := if f.alprotoTs == ALPROTO_UNKNOWN then alproto else f.alprotoTs,
                        alprotoTc := if f.alprotoTc == ALPROTO_UNKNOWN then alproto else f.alprotoTc))
  }

  function ApplyAll(items: seq<Expectation>, f: Flow, flags: set<nat>): Handled {
    if items == [] then Handled(ALPROTO_UNKNOWN, f)
    else
      var h := ApplyAll(items[..|items| - 1], f, flags);
      if Matches(items[|items| - 1], f, flags) then Apply(h, items[|items| - 1].alproto) else h
  }

  function HandledFully(w: World, f: Flow, flags: set<nat>): Handled {
    if f.pair.Some? && f.pair.value in w.queues then ApplyAll(w.queues[f.pair.value].items, f, flags)
    else Handled(ALPROTO_UNKNOWN, f)
  }

  function HandledIfAny(w: World, f: Flow, flags: set<nat>): Handled {
    if w.counter == 0 then Handled(ALPROTO_UNKNOWN, f) else HandledFully(w, f, flags)
  }

  /** The result is the protocol of the oldest match; without a match the flow is as it was. */
  lemma {:induction false} HandledIsLast(items: seq<Expectation>, f: Flow, flags: set<nat>) returns (k: nat)
    ensures k <= |items|
    ensures forall i :: k < i < |items| ==> !Matches(items[i], f, flags)
    ensures k < |items| ==> Matches(items[k], f, flags) && ApplyAll(items, f, flags).alproto == items[k].alproto
    ensures k == |items| ==>
              && ApplyAll(items, f, flags) == Handled(ALPROTO_UNKNOWN, f)
              && forall i :: 0 <= i < |items| ==> !Matches(items[i], f, flags)
  {
    hide Matches;
    if items == [] {
      return 0;
    }
    var n := |items| - 1;
    if Matches(items[n], f, flags) {
      return n;
    }
    k := HandledIsLast(items[..n], f, flags);
    assert forall i :: 0 <= i < n ==> items[..n][i] == items[i];
    if k == n {
      k := |items|;
    }
  }

  /** Protocols already known stay; an unknown one becomes the newest match's that names one. */
  lemma {:induction false} HandledFills(items: seq<Expectation>, f: Flow, flags: set<nat>)
    ensures var g := ApplyAll(items, f, flags).flow;
            && (f.alprotoTs != ALPROTO_UNKNOWN ==> g.alprotoTs == f.alprotoTs)
            && (f.alprotoTc != ALPROTO_UNKNOWN ==> g.alprotoTc == f.alprotoTc)
            && (f.alprotoTs == ALPROTO_UNKNOWN ==> g.alprotoTs == FirstNamed(items, f, flags))
            && (f.alprotoTc == ALPROTO_UNKNOWN ==> g.alprotoTc == FirstNamed(items, f, flags))
  {
    hide Matches;
    if items != [] {
      var n := |items| - 1;
      HandledFills(items[..n], f, flags);
      FirstNamedLast(items, f, flags);
    }
  }

  function FirstNamed(items: seq<Expectation>, f: Flow, flags: set<nat>): nat {
    if items == [] then ALPROTO_UNKNOWN
    else if Matches(items[0], f, flags) && items[0].alproto != ALPROTO_UNKNOWN then items[0].alproto
    else FirstNamed(items[1..], f, flags)
  }

  lemma {:induction false} FirstNamedLast(items: seq<Expectation>, f: Flow, flags: set<nat>)
    requires items != []
    ensures var n := |items| - 1;
            FirstNamed(items, f, flags) ==
            var a := FirstNamed(items[..n], f, flags);
            if a == ALPROTO_UNKNOWN && Matches(items[n], f, flags) then items[n].alproto else a
  {
    hide Matches;
    var n := |items| - 1;
    if n == 0 {
      assert items[1..] == [] && items[..0] == [];
    } else {
      assert items[1..][..n - 1] == items[..n][1..] && items[1..][n - 1] == items[n] && items[..n][0] == items[0];
      FirstNamedLast(items[1..], f, flags);
    }
  }

  lemma {:induction false} LeftMembers(items: seq<Expectation>, p: Pass, e: Expectation)
    ensures e in Left(items, p) <==> e in items && !Removes(p, e)
  {
    if items != [] {
      hide Removes;
      var n := |items| - 1;
      LeftMembers(items[..n], p, e);
      assert items == items[..n] + [items[n]];
    }
  }

  // ----- runs -----

  datatype Event =
    | Creating(pair: Option<nat>, e: Expectation, available: bool)
    | Passing(pair: Option<nat>, pass: Pass)
    | Teardown(torn: nat)

  function Next(w: World, e: Event): World {
    match e
    case Creating(pair, x, available) => Create(w, pair, x, available)
    case Passing(pair, pass) => PassedIfAny(w, pair, pass)
    case Teardown(pair) => w.(queues := w.queues - {pair})
  }

  function After(es: seq<Event>): World {
    if es == [] then World(map[], 0) else Next(After(es[..|es| - 1]), es[|es| - 1])
  }

  // ----- the counter -----

  ghost function Sum(m: map<nat, Queue>): nat {
    if m == map[] then 0 else var k :| k in m; m[k].length + Sum(m - {k})
  }

  lemma {:induction false} SumWithout(m: map<nat, Queue>, k: nat)
    requires k in m
    ensures Sum(m) == m[k].length + Sum(m - {k})
  {
    var j :| j in m && Sum(m) == m[j].length + Sum(m - {j});
    if j != k {
      SumWithout(m - {j}, k);
      SumWithout(m - {k}, j);
      assert (m - {j}) - {k} == (m - {k}) - {j};
    }
  }

  lemma SumUpdate(m: map<nat, Queue>, k: nat, q: Queue)
    ensures Sum(m[k := q]) == q.length + Sum(m - {k})
  {
    SumWithout(m[k := q], k);
    assert m[k := q] - {k} == m - {k};
  }

  ghost predicate QueueOk(q: Queue) {
    q.length == |q.items| && 0 < q.length <= MAX_LEVEL
  }

  /** Queues are not empty, hold at most ten, know their length, and the counter is never
      below what they hold. */
  ghost predicate WorldOk(w: World) {
    (forall p :: p in w.queues ==> QueueOk(w.queues[p])) && Sum(w.queues) <= w.counter
  }

  lemma CreateOk(w: World, pair: nat, e: Expectation)
    requires WorldOk(w)
    ensures WorldOk(Create(w, Some(pair), e, true))
  {
    hide Sum;
    if pair in w.queues {
      SumWithout(w.queues, pair);
      SumUpdate(w.queues, pair, Pushed(w.queues[pair], e));
    } else {
      SumUpdate(w.queues, pair, Queue([e], 1));
      assert w.queues - {pair} == w.queues;
    }
  }

  lemma PassedOk(w: World, pair: nat, p: Pass)
    requires WorldOk(w) && pair in w.queues
    ensures WorldOk(Passed(w, pair, p))
  {
    hide Sum, Left;
    var q := w.queues[pair];
    assert QueueOk(q);
    SumWithout(w.queues, pair);
    var left := Left(q.items, p);
    SumUpdate(w.queues, pair, Queue(left, |left|));
  }

  lemma StepOk(w: World, e: Event)
    requires WorldOk(w)
    ensures WorldOk(Next(w, e))
  {
    hide Sum;
    match e
    case Creating(pair, x, available) =>
      if pair.Some? && available {
        CreateOk(w, pair.value, x);
      }
    case Passing(pair, pass) =>
      if pair.Some? && pair.value in w.queues {
        PassedOk(w, pair.value, pass);
      }
    case Teardown(pair) =>
      if pair in w.queues {
        SumWithout(w.queues, pair);
      } else {
        assert w.queues - {pair} == w.queues;
      }
  }

  /** In every run of creations, passes and teardowns. */
  lemma {:induction false} CounterTheorem(es: seq<Event>)
    ensures WorldOk(After(es))
  {
    if es != [] {
      hide Next, WorldOk;
      CounterTheorem(es[..|es| - 1]);
      StepOk(After(es[..|es| - 1]), es[|es| - 1]);
    }
  }

  /** So skipping the lookup while the counter is zero loses nothing. */
  lemma EarlyExitAgrees(es: seq<Event>, f: Flow, flags: set<nat>, pair: Option<nat>, p: Pass)
    ensures var w := After(es);
            && PassedIfAny(w, pair, p) == PassedFully(w, pair, p)
            && HandledIfAny(w, f, flags) == HandledFully(w, f, flags)
  {
    hide After, Sum, Passed, ApplyAll;
    CounterTheorem(es);
    var w := After(es);
    if w.counter == 0 {
      forall k | k in w.queues ensures false {
        SumWithout(w.queues, k);
      }
    }
  }

  /** After a pass over a pair no expectation it should have removed is left there, every
      other one is, and the other pairs are as they were. */
  lemma PassRemovesAll(es: seq<Event>, pair: nat, p: Pass, e: Expectation, other: nat)
    ensures var w, v := After(es), PassedIfAny(After(es), Some(pair), p);
            && (Waiting(v, pair, e) <==> Waiting(w, pair, e) && !Removes(p, e))
            && (other != pair ==> (Waiting(v, other, e) <==> Waiting(w, other, e)))
  {
    hide After, Sum, Removes, Left;
    CounterTheorem(es);
    EarlyExitAgrees(es, Flow(0, None, 0, 0, 0, 0, 0), {}, Some(pair), p);
    var w := After(es);
    if pair in w.queues {
      assert QueueOk(w.queues[pair]);
      LeftMembers(w.queues[pair].items, p, e);
    }
  }

  predicate Waiting(w: World, pair: nat, e: Expectation) {
    pair in w.queues && e in w.queues[pair].items
  }

  // ----- which expectations wait -----

  function Items(w: World, pair: nat): seq<Expectation> {
    if pair in w.queues then w.queues[pair].items else []
  }

  /** An expectation in the history of a pair: the event that created it, and whether it
      ever had ten newer unremoved ones in front of it. */
  datatype Record = Record(e: Expectation, born: nat, outranked: bool)

  function RecordsLeft(s: seq<Record>, p: Pass): (r: seq<Record>)
    ensures |r| <= |s|
  {
    if s == [] then []
    else
      var r := RecordsLeft(s[..|s| - 1], p);
      if Removes(p, s[|s| - 1].e) then r else r + [s[|s| - 1]]
  }

  /** What an event does to the history, before positions are looked at. */
  function Changed(s: seq<Record>, e: Event, at: nat, pair: nat): seq<Record> {
    match e
    case Creating(p, x, available) => if p == Some(pair) && available then [Record(x, at, false)] + s else s
    case Passing(p, pass) => if p == Some(pair) then RecordsLeft(s, pass) else s
    case Teardown(p) => if p == pair then [] else s
  }

  function Ranked(s: seq<Record>): (r: seq<Record>)
    ensures |r| == |s|
    ensures forall i :: 0 <= i < |s| ==> r[i] == s[i].(outranked := s[i].outranked || i >= MAX_LEVEL)
  {
    seq(|s|, i requires 0 <= i < |s| => s[i].(outranked := s[i].outranked || i >= MAX_LEVEL))
  }

  /** Reference without a limit and without a counter: everything created for the pair and
      not removed since, newest first. */
  function History(es: seq<Event>, pair: nat): seq<Record> {
    if es == [] then []
    else Ranked(Changed(History(es[..|es| - 1], pair), es[|es| - 1], |es| - 1, pair))
  }

  lemma ItemsStep(w: World, e: Event, pair: nat)
    requires WorldOk(w)
    ensures var s := Items(w, pair);
            Items(Next(w, e), pair) ==
            match e
            case Creating(p, x, available) =>
              if p == Some(pair) && available then ([x] + s)[..if |s| < MAX_LEVEL then |s| + 1 else |s|] else s
            case Passing(p, pass) => if p == Some(pair) then Left(s, pass) else s
            case Teardown(p) => if p == pair then [] else s
  {
    hide Sum, Removes;
    assert pair in w.queues ==> QueueOk(w.queues[pair]);
    if w.counter == 0 {
      forall k | k in w.queues ensures false {
        SumWithout(w.queues, k);
      }
    }
  }

  /** The queue holds exactly the records that were never outranked, in order. */
  ghost predicate Aligned(items: seq<Expectation>, s: seq<Record>) {
    && |items| <= |s|
    && (forall i :: 0 <= i < |s| ==> (s[i].outranked <==> i >= |items|))
    && (forall i :: 0 <= i < |items| ==> items[i] == s[i].e)
  }

  /** Removal acts on both alike. */
  lemma {:induction false} LeftAligned(items: seq<Expectation>, s: seq<Record>, p: Pass)
    requires Aligned(items, s)
    ensures Aligned(Left(items, p), RecordsLeft(s, p))
    ensures |items| == |s| ==> |Left(items, p)| == |RecordsLeft(s, p)|
    decreases |s|
  {
    hide Removes;
    if s != [] {
      var n := |s| - 1;
      if |items| == |s| {
        LeftAligned(items[..n], s[..n], p);
      } else {
        LeftAligned(items, s[..n], p);
      }
    }
  }

  /** Where at most ten are in front, looking at positions changes nothing. */
  lemma RankedAligned(items: seq<Expectation>, s: seq<Record>)
    requires Aligned(items, s) && |items| <= MAX_LEVEL
    ensures Aligned(items, Ranked(s))
  {
  }

  lemma PushAligned(items: seq<Expectation>, s: seq<Record>, x: Expectation, at: nat)
    requires Aligned(items, s) && |items| <= MAX_LEVEL
    ensures Aligned(([x] + items)[..if |items| < MAX_LEVEL then |items| + 1 else |items|],
              Ranked([Record(x, at, false)] + s))
  {
  }

  /** In every run the queue of a pair is, newest first, exactly what was created for it,
      was not removed since, and never had ten newer unremoved ones in front of it. */
  lemma {:induction false} QueueTheorem(es: seq<Event>, pair: nat)
    ensures Aligned(Items(After(es), pair), History(es, pair)) && |Items(After(es), pair)| <= MAX_LEVEL
  {
    CounterTheorem(es);
    if es != [] {
      hide Sum, Next, Left, RecordsLeft, Aligned, Ranked;
      var init, e := es[..|es| - 1], es[|es| - 1];
      var items, s := Items(After(init), pair), History(init, pair);
      QueueTheorem(init, pair);
      CounterTheorem(init);
      ItemsStep(After(init), e, pair);
      if e.Creating? && e.pair == Some(pair) && e.available {
        PushAligned(items, s, e.e, |es| - 1);
      } else if e.Passing? && e.pair == Some(pair) {
        LeftAligned(items, s, e.pass);
        RankedAligned(Left(items, e.pass), RecordsLeft(s, e.pass));
      } else if e == Teardown(pair) {
        NothingAligned();
      } else {
        RankedAligned(items, s);
      }
    }
  }

  lemma NothingAligned()
    ensures Aligned([], Ranked([]))
  {
  }

  // ----- what outranked means -----

  /** At the end of the run the expectation of event `born` waits behind at least ten
      newer unremoved ones. */
  ghost predicate Behind(es: seq<Event>, pair: nat, born: nat) {
    exists j :: MAX_LEVEL <= j < |History(es, pair)| && History(es, pair)[j].born == born
  }

  /** At some time of the run it did. */
  ghost predicate EverBehind(es: seq<Event>, pair: nat, born: nat) {
    exists k :: 0 <= k <= |es| && Behind(es[..k], pair, born)
  }

  ghost predicate Dated(s: seq<Record>, now: nat) {
    && (forall i, j :: 0 <= i < j < |s| ==> s[i].born > s[j].born)
    && (forall i :: 0 <= i < |s| ==> s[i].born < now)
  }

  lemma {:induction false} LeftFrom(s: seq<Record>, p: Pass, r: Record)
    requires r in RecordsLeft(s, p)
    ensures r in s
  {
    hide Removes;
    if s != [] && r != s[|s| - 1] {
      LeftFrom(s[..|s| - 1], p, r);
    }
  }

  lemma PushDated(s: seq<Record>, r: Record, now: nat)
    requires Dated(s, now) && r.born < now && forall x :: x in s ==> x.born > r.born
    ensures Dated(s + [r], now)
  {
  }

  lemma {:induction false} LeftDated(s: seq<Record>, p: Pass, now: nat)
    requires Dated(s, now)
    ensures Dated(RecordsLeft(s, p), now)
  {
    hide Removes;
    if s != [] {
      var init, last := s[..|s| - 1], s[|s| - 1];
      LeftDated(init, p, now);
      forall x | x in RecordsLeft(init, p) ensures x.born > last.born {
        LeftFrom(init, p, x);
      }
      PushDated(RecordsLeft(init, p), last, now);
    }
  }

  lemma ConsDated(s: seq<Record>, x: Expectation, now: nat)
    requires Dated(s, now)
    ensures Dated([Record(x, now, false)] + s, now + 1)
  {
  }

  lemma RankedDated(s: seq<Record>, now: nat, later: nat)
    requires Dated(s, now) && now <= later
    ensures Dated(Ranked(s), later)
  {
  }

  lemma ChangedDated(s: seq<Record>, e: Event, at: nat, pair: nat)
    requires Dated(s, at)
    ensures Dated(Ranked(Changed(s, e, at, pair)), at + 1)
  {
    hide RecordsLeft, Dated, Ranked;
    match e
    case Creating(_, x, _) =>
      ConsDated(s, x, at);
      RankedDated([Record(x, at, false)] + s, at + 1, at + 1);
      RankedDated(s, at, at + 1);
    case Passing(_, pass) =>
      LeftDated(s, pass, at);
      RankedDated(RecordsLeft(s, pass), at, at + 1);
      RankedDated(s, at, at + 1);
    case Teardown(_) =>
      DatedNone(at);
      RankedDated([], at, at + 1);
      RankedDated(s, at, at + 1);
  }

  lemma DatedNone(now: nat)
    ensures Dated([], now)
  {
  }

  lemma {:induction false} HistoryDated(es: seq<Event>, pair: nat)
    ensures Dated(History(es, pair), |es|)
  {
    if es != [] {
      hide Changed, Dated, Ranked;
      HistoryDated(es[..|es| - 1], pair);
      ChangedDated(History(es[..|es| - 1], pair), es[|es| - 1], |es| - 1, pair);
    }
  }

  lemma EverBehindStep(es: seq<Event>, pair: nat, born: nat)
    requires es != []
    ensures EverBehind(es, pair, born) <==> EverBehind(es[..|es| - 1], pair, born) || Behind(es, pair, born)
  {
    hide Behind;
    var init := es[..|es| - 1];
    assert es[..|es|] == es;
    if EverBehind(init, pair, born) {
      var k :| 0 <= k <= |init| && Behind(init[..k], pair, born);
      assert init[..k] == es[..k];
    }
    if EverBehind(es, pair, born) {
      var k :| 0 <= k <= |es| && Behind(es[..k], pair, born);
      if k <= |init| { assert init[..k] == es[..k]; }
    }
  }

  lemma NotYetBehind(es: seq<Event>, pair: nat, born: nat)
    requires born >= |es|
    ensures !EverBehind(es, pair, born)
  {
    forall k | 0 <= k <= |es| ensures !Behind(es[..k], pair, born) {
      HistoryDated(es[..k], pair);
    }
  }

  lemma BehindIs(es: seq<Event>, pair: nat, i: nat)
    requires i < |History(es, pair)|
    ensures Behind(es, pair, History(es, pair)[i].born) <==> i >= MAX_LEVEL
  {
    hide History;
    HistoryDated(es, pair);
  }

  /** What an event leaves was there before, or is what it created. */
  lemma ChangedFrom(s: seq<Record>, e: Event, at: nat, pair: nat, r: Record)
    requires r in Changed(s, e, at, pair)
    ensures r in s || (r.born == at && !r.outranked)
  {
    hide RecordsLeft;
    if e.Passing? && e.pair == Some(pair) {
      LeftFrom(s, e.pass, r);
    }
  }

  /** A record is marked exactly when it has at some time had ten newer unremoved ones in
      front of it. */
  lemma {:induction false} OutrankedIff(es: seq<Event>, pair: nat, i: nat)
    requires i < |History(es, pair)|
    ensures History(es, pair)[i].outranked <==> EverBehind(es, pair, History(es, pair)[i].born)
    decreases |es|
  {
    hide Changed, EverBehind, Behind, Dated;
    var init, e := es[..|es| - 1], es[|es| - 1];
    var s := History(init, pair);
    var r := Changed(s, e, |init|, pair)[i];
    ChangedFrom(s, e, |init|, pair, r);
    EverBehindStep(es, pair, r.born);
    BehindIs(es, pair, i);
    if r in s {
      var j :| 0 <= j < |s| && s[j] == r;
      OutrankedIff(init, pair, j);
    } else {
      NotYetBehind(init, pair, r.born);
    }
  }

  /** So an unremoved expectation waits if and only if it never had ten newer unremoved
      ones in front of it. */
  lemma WaitsIff(es: seq<Event>, pair: nat, i: nat)
    requires i < |History(es, pair)|
    ensures var items, r := Items(After(es), pair), History(es, pair)[i];
            && (i < |items| <==> !EverBehind(es, pair, r.born))
            && (i < |items| ==> items[i] == r.e)
  {
    hide History, After, EverBehind;
    QueueTheorem(es, pair);
    OutrankedIff(es, pair, i);
  }
}
