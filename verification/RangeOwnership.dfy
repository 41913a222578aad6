/**
 Safety of the byte-range protocol over every run: who holds the file, the use counts,
 the memory accounting, and that no validation of the source ever fails.
 */
module RangeOwnership {
  import opened Common
  import opened RangeModel

  // ----- sums over the slots and entries -----

  function Total<T>(s: seq<T>, w: T -> int): int {
    if s == [] then 0 else Total(s[..|s| - 1], w) + w(s[|s| - 1])
  }

  lemma {:induction false} TotalUpdate<T>(s: seq<T>, i: nat, x: T, w: T -> int)
    requires i < |s|
    ensures Total(s[i := x], w) == Total(s, w) - w(s[i]) + w(x)
  {
    var t := s[i := x];
    if i == |s| - 1 {
      assert t[..|t| - 1] == s[..|s| - 1];
    } else {
      TotalUpdate(s[..|s| - 1], i, x, w);
      assert t[..|t| - 1] == s[..|s| - 1][i := x];
    }
  }

  lemma TotalPush<T>(s: seq<T>, x: T, w: T -> int)
    ensures Total(s + [x], w) == Total(s, w) + w(x)
  {
    assert (s + [x])[..|s|] == s;
  }

  /** With non-negative weights no member outweighs the total. */
  lemma {:induction false} TotalBounds<T>(s: seq<T>, i: nat, w: T -> int)
    requires forall x :: w(x) >= 0
    requires i < |s|
    ensures Total(s, w) >= w(s[i])
  {
    if i < |s| - 1 {
      TotalBounds(s[..|s| - 1], i, w);
    } else {
      TotalNonNegative(s[..|s| - 1], w);
    }
  }

  lemma {:induction false} TotalNonNegative<T>(s: seq<T>, w: T -> int)
    requires forall x :: w(x) >= 0
    ensures Total(s, w) >= 0
  {
    if s != [] {
      TotalNonNegative(s[..|s| - 1], w);
    }
  }

  /** One if the slot's block points at entry k. */
  function UsesEntry(k: nat): Slot -> int {
    (x: Slot) => if x.b.attached && x.home == k then 1 else 0
  }

  /** One if the slot's block holds the file container of entry k. */
  function HoldsFiles(k: nat): Slot -> int {
    (x: Slot) => if !x.b.files.NoFiles? && x.home == k then 1 else 0
  }

  function SlotBytes(): Slot -> int {
    (x: Slot) => CurrentBytes(x.b)
  }

  function EntryBytes(): Entry -> int {
    (en: Entry) => TreeBytes(en.c.tree)
  }

  // ----- the invariant -----

  /** The three kinds of attached block, and what finishing and releasing leave behind. */
  predicate BlockOk(x: Slot) {
    match x.stage
    case Active =>
      && (x.b.attached ==> x.b.files.OneFile? != x.b.current.Some?)
      && (!x.b.attached ==> x.b.current.None?)
      && (x.b.current.Some? ==> x.b.toskip == 0)
      && !x.b.files.EmptyFiles?
      && (x.b.files.OneFile? ==> x.b.attached)
    case Finished => x.b.current.None? && x.b.files.NoFiles?
    case Released => x.b.current.None? && x.b.files.NoFiles? && !x.b.attached
  }

  function Held(f: Files): int { if f.NoFiles? then 0 else 1 }

  /** Exactly one of a live entry and its blocks holds the file container, and the use count
      is the number of blocks that point at the entry. */
  ghost predicate EntryOk(s: System, k: nat)
    requires k < |s.entries|
  {
    && s.entries[k].useCnt == Total(s.slots, UsesEntry(k))
    && Held(s.entries[k].c.files) + Total(s.slots, HoldsFiles(k)) == (if s.entries[k].live then 1 else 0)
    && Sorted(s.entries[k].c.tree)
    && (s.entries[k].live || s.entries[k].c.tree == [])
  }

  /** The out-of-order share of the memory counter is what trees and blocks still hold. */
  ghost predicate MemoryOk(s: System) {
    s.memuse == Total(s.entries, EntryBytes()) + Total(s.slots, SlotBytes())
  }

  ghost predicate Owned(s: System) {
    && !s.crashed
    && (forall i :: 0 <= i < |s.slots| ==> BlockOk(s.slots[i]) && s.slots[i].home < |s.entries|)
    && (forall k :: 0 <= k < |s.entries| ==> EntryOk(s, k))
    && MemoryOk(s)
  }

  // ----- the tree -----

  lemma CompareOrders(a: Fragment, b: Fragment, c: Fragment)
    ensures Compare(a, b) == -Compare(b, a)
    ensures Compare(a, b) <= 0 && Compare(b, c) < 0 ==> Compare(a, c) < 0
    ensures Compare(a, b) < 0 && Compare(b, c) <= 0 ==> Compare(a, c) < 0
  {
  }

  /** Insertion adds exactly the new fragment. */
  lemma {:induction false} InsertAdds(t: seq<Fragment>, x: Fragment)
    ensures multiset(Insert(t, x)) == multiset(t) + multiset{x}
    ensures TreeBytes(Insert(t, x)) == TreeBytes(t) + x.buflen
  {
    var u := Insert(t, x);
    if t == [] || Compare(x, t[0]) < 0 {
      assert u == [x] + t && u[1..] == t;
    } else {
      assert t == [t[0]] + t[1..];
      InsertAdds(t[1..], x);
      assert u == [t[0]] + Insert(t[1..], x) && u[1..] == Insert(t[1..], x);
    }
  }

  /** Putting a fragment below a sorted tree keeps the order. */
  lemma ConsSorted(x: Fragment, t: seq<Fragment>)
    requires Sorted(t)
    requires forall y :: y in t ==> Compare(x, y) < 0
    ensures Sorted([x] + t)
  {
    var u := [x] + t;
    forall i, j | 0 <= i < j < |u| ensures Compare(u[i], u[j]) < 0 {
      assert u[j] == t[j - 1];
      if i > 0 { assert u[i] == t[i - 1]; }
    }
  }

  lemma HeadBelow(t: seq<Fragment>, x: Fragment)
    requires Sorted(t) && t != [] && Compare(x, t[0]) <= 0
    ensures forall y :: y in t[1..] ==> Compare(x, y) < 0
  {
    forall y | y in t[1..] ensures Compare(x, y) < 0 {
      var i :| 0 <= i < |t[1..]| && t[1..][i] == y;
      assert Compare(t[0], t[i + 1]) < 0;
      CompareOrders(x, t[0], y);
    }
  }

  /** A fragment the tree does not hold already keeps it strictly sorted. */
  lemma {:induction false} InsertSorted(t: seq<Fragment>, x: Fragment)
    requires Sorted(t) && !Holds(t, x)
    ensures Sorted(Insert(t, x))
  {
    if t == [] {
    } else if Compare(x, t[0]) < 0 {
      HeadBelow(t, x);
      ConsSorted(x, t);
    } else {
      var r := t[1..];
      forall i | 0 <= i < |r| ensures Compare(r[i], x) != 0 { assert r[i] == t[i + 1]; }
      InsertSorted(r, x);
      InsertAdds(r, x);
      HeadBelow(t, t[0]);
      CompareOrders(t[0], x, x);
      forall y | y in Insert(r, x) ensures Compare(t[0], y) < 0 {
        assert y in multiset(Insert(r, x));
        assert y in r || y == x;
      }
      ConsSorted(t[0], Insert(r, x));
    }
  }

  lemma {:induction false} MergeKeeps(t: seq<Fragment>, f: File, fails: seq<bool>)
    requires Sorted(t)
    ensures Sorted(Merge(t, f, fails).tree)
    ensures TreeBytes(t) == TreeBytes(Merge(t, f, fails).tree) + Merge(t, f, fails).freed
  {
    if t != [] && f.size >= t[0].start {
      var a := AppendFragment(f, t[0], StoreOk(fails));
      if a.ok {
        MergeKeeps(t[1..], a.file, Rest(fails));
      }
    }
  }

  lemma MergeIntoKeeps(c: Container, b: Block, memuse: int, fails: seq<bool>)
    requires c.files.OneFile? && Sorted(c.tree)
    ensures var r := MergeInto(c, b, memuse, fails);
            && Sorted(r.c.tree)
            && r.b == b
            && !r.c.files.NoFiles?
            && r.memuse - TreeBytes(r.c.tree) == memuse - TreeBytes(c.tree)
  {
    MergeKeeps(c.tree, c.files.file, fails);
  }

  /** Closing an attached, active block: the block gives back its file and its buffer, and
      the memory counter follows the tree. */
  lemma CloseKeeps(c: Container, x: Slot, memuse: int, fails: seq<bool>)
    requires BlockOk(x) && x.stage == Active && x.b.attached && Sorted(c.tree)
    requires x.b.files.OneFile? ==> c.files.NoFiles?
    ensures CloseSafe(x.b)
    ensures var r := Close(c, x.b, memuse, fails);
            && Sorted(r.c.tree)
            && r.b == x.b.(current := None, files := NoFiles)
            && Held(r.c.files) == Held(c.files) + Held(x.b.files)
            && r.memuse - TreeBytes(r.c.tree) == memuse - TreeBytes(c.tree) - CurrentBytes(x.b)
  {
    var b' := x.b.(current := None, files := NoFiles);
    if x.b.current.Some? {
      var y := x.b.current.value;
      if c.lastsize < y.End() && !Holds(c.tree, y) {
        InsertSorted(c.tree, y);
        InsertAdds(c.tree, y);
        if c.files.OneFile? {
          MergeIntoKeeps(c.(tree := Insert(c.tree, y)), b', memuse, fails);
        }
      }
    } else if x.b.toskip == 0 {
      MergeIntoKeeps(c.(files := x.b.files), b', memuse, fails);
    }
  }

  // ----- every step keeps the invariant -----

  /** Replacing one slot moves every sum by the difference of its weights. */
  lemma SlotSums(s: seq<Slot>, i: nat, x: Slot)
    requires i < |s|
    ensures forall k: nat :: Total(s[i := x], UsesEntry(k)) ==
              Total(s, UsesEntry(k)) - UsesEntry(k)(s[i]) + UsesEntry(k)(x)
    ensures forall k: nat :: Total(s[i := x], HoldsFiles(k)) ==
              Total(s, HoldsFiles(k)) - HoldsFiles(k)(s[i]) + HoldsFiles(k)(x)
    ensures Total(s[i := x], SlotBytes()) == Total(s, SlotBytes()) - CurrentBytes(s[i].b) + CurrentBytes(x.b)
  {
    forall k: nat { TotalUpdate(s, i, x, UsesEntry(k)); }
    forall k: nat { TotalUpdate(s, i, x, HoldsFiles(k)); }
    TotalUpdate(s, i, x, SlotBytes());
  }

  lemma PushSums(s: seq<Slot>, x: Slot)
    ensures forall k: nat :: Total(s + [x], UsesEntry(k)) == Total(s, UsesEntry(k)) + UsesEntry(k)(x)
    ensures forall k: nat :: Total(s + [x], HoldsFiles(k)) == Total(s, HoldsFiles(k)) + HoldsFiles(k)(x)
    ensures Total(s + [x], SlotBytes()) == Total(s, SlotBytes()) + CurrentBytes(x.b)
  {
    forall k: nat { TotalPush(s, x, UsesEntry(k)); }
    forall k: nat { TotalPush(s, x, HoldsFiles(k)); }
    TotalPush(s, x, SlotBytes());
  }

  /** A slot's own weight bounds the sums it is part of. */
  lemma SlotWithin(s: System, i: nat)
    requires Owned(s) && i < |s.slots|
    ensures s.slots[i].b.attached ==> s.entries[s.slots[i].home].useCnt >= 1
    ensures s.slots[i].b.files.OneFile? ==>
              s.entries[s.slots[i].home].live && s.entries[s.slots[i].home].c.files.NoFiles?
  {
    var k := s.slots[i].home;
    assert EntryOk(s, k);
    TotalBounds(s.slots, i, UsesEntry(k));
    TotalBounds(s.slots, i, HoldsFiles(k));
  }

  lemma AppendKeeps(x: Slot, d: Chunk, ok: bool)
    requires BlockOk(x) && x.stage == Active
    ensures var y := x.(b := Append(x.b, d, ok), sent := x.sent + d.Len());
            && BlockOk(y)
            && y.b.attached == x.b.attached
            && Held(y.b.files) == Held(x.b.files)
            && CurrentBytes(y.b) == CurrentBytes(x.b)
  {
  }

  lemma DeliverKeeps(s: System, i: nat, d: Chunk, ok: bool)
    requires Owned(s) && i < |s.slots| && s.slots[i].stage == Active
    ensures Owned(NextDeliver(s, i, d, ok))
  {
    var x := s.slots[i];
    AppendKeeps(x, d, ok);
    var s' := NextDeliver(s, i, d, ok);
    SlotSums(s.slots, i, s'.slots[i]);
    forall k | 0 <= k < |s'.entries| ensures EntryOk(s', k) { assert EntryOk(s, k); }
  }

  /** An entry is live while any block points at it. */
  lemma AttachedLive(s: System, i: nat)
    requires Owned(s) && i < |s.slots| && s.slots[i].b.attached
    requires Alive(s)
    ensures s.entries[s.slots[i].home].live && s.entries[s.slots[i].home].useCnt >= 1
  {
    SlotWithin(s, i);
  }

  /** Entries in use have not been evicted. */
  ghost predicate Alive(s: System) {
    forall k :: 0 <= k < |s.entries| && s.entries[k].useCnt != 0 ==> s.entries[k].live
  }

  /** What a close may rely on. */
  lemma CloseReady(s: System, i: nat)
    requires Owned(s) && Alive(s) && i < |s.slots| && s.slots[i].stage == Active && s.slots[i].b.attached
    ensures var x := s.slots[i];
            && !s.crashed && BlockOk(x) && x.home < |s.entries|
            && s.entries[x.home].live && s.entries[x.home].useCnt >= 1
            && Sorted(s.entries[x.home].c.tree)
            && (x.b.files.OneFile? ==> s.entries[x.home].c.files.NoFiles?)
  {
    AttachedLive(s, i);
    SlotWithin(s, i);
    assert EntryOk(s, s.slots[i].home);
  }

  /** The state after a close that raises no validation. */
  lemma NextCloseIs(s: System, i: nat, fails: seq<bool>)
    requires i < |s.slots| && s.slots[i].b.attached && CloseSafe(s.slots[i].b) && !s.crashed
    requires s.slots[i].home < |s.entries| && s.entries[s.slots[i].home].live && s.entries[s.slots[i].home].useCnt >= 1
    ensures var x := s.slots[i];
            var en := s.entries[x.home];
            var r := Close(en.c, x.b, s.memuse, fails);
            NextClose(s, i, fails) ==
            System(s.entries[x.home := en.Closed(r)],
                   s.slots[i := x.(b := r.b, stage := Finished)], r.memuse, false)
  {
    hide Close;
  }

  lemma CloseStepKeeps(s: System, i: nat, fails: seq<bool>)
    requires Owned(s) && Alive(s) && i < |s.slots| && s.slots[i].stage == Active
    ensures Owned(NextClose(s, i, fails)) && Alive(NextClose(s, i, fails))
  {
    hide Close, Sorted, Total, TreeBytes;
    var x := s.slots[i];
    var s' := NextClose(s, i, fails);
    if !x.b.attached {
      SlotSums(s.slots, i, s'.slots[i]);
      forall k | 0 <= k < |s'.entries| ensures EntryOk(s', k) { assert EntryOk(s, k); }
    } else {
      var h := x.home;
      CloseReady(s, i);
      CloseKeeps(s.entries[h].c, x, s.memuse, fails);
      NextCloseIs(s, i, fails);
      hide NextClose, CloseSafe;
      SlotSums(s.slots, i, s'.slots[i]);
      TotalUpdate(s.entries, h, s'.entries[h], EntryBytes());
      forall k | 0 <= k < |s'.entries| ensures EntryOk(s', k) { assert EntryOk(s, k); }
    }
  }

  lemma OpenAuxKeeps(c: Container, memuse: int, r: Request, env: OpenEnv)
    requires r.Valid()
    ensures var o := OpenAux(c, memuse, r, env);
            && o.c.tree == c.tree
            && (o.block.None? ==> o.memuse == memuse && Held(o.c.files) == Held(c.files))
            && (o.block.Some? ==>
                  && o.memuse == memuse + CurrentBytes(o.block.value)
                  && Held(c.files) == Held(o.c.files) + Held(o.block.value.files)
                  && forall k, n :: BlockOk(Slot(k, r, n, o.block.value, Active)))
  {
  }

  lemma OpenKeeps(s: System, k: nat, r: Request, env: OpenEnv, d: Chunk, ok: bool)
    requires Owned(s) && Alive(s) && k < |s.entries| && s.entries[k].live && r.Valid()
    ensures Owned(NextOpen(s, k, r, env, d, ok)) && Alive(NextOpen(s, k, r, env, d, ok))
  {
    hide Total, TreeBytes, Sorted;
    var s' := NextOpen(s, k, r, env, d, ok);
    var o := OpenAux(s.entries[k].c, s.memuse, r, env);
    assert EntryOk(s, k);
    OpenAuxKeeps(s.entries[k].c, s.memuse, r, env);
    TotalUpdate(s.entries, k, s'.entries[k], EntryBytes());
    if o.block.Some? {
      var x := Slot(k, r, 0, o.block.value, Active);
      AppendKeeps(x, d, ok);
      PushSums(s.slots, s'.slots[|s.slots|]);
    }
    forall j | 0 <= j < |s'.entries| ensures EntryOk(s', j) { assert EntryOk(s, j); }
  }

  lemma ReleaseKeeps(s: System, i: nat)
    requires Owned(s) && Alive(s) && i < |s.slots| && s.slots[i].stage == Finished
    ensures Owned(NextRelease(s, i)) && Alive(NextRelease(s, i))
  {
    hide Total, TreeBytes, Sorted;
    var s' := NextRelease(s, i);
    var h := s.slots[i].home;
    SlotWithin(s, i);
    SlotSums(s.slots, i, s'.slots[i]);
    TotalUpdate(s.entries, h, s'.entries[h], EntryBytes());
    forall k | 0 <= k < |s'.entries| ensures EntryOk(s', k) { assert EntryOk(s, k); }
  }

  /** No block points at an idle entry, so none holds its file. */
  lemma {:induction false} IdleHoldsNothing(slots: seq<Slot>, k: nat)
    requires forall i :: 0 <= i < |slots| ==> BlockOk(slots[i])
    requires Total(slots, UsesEntry(k)) == 0
    ensures Total(slots, HoldsFiles(k)) == 0
  {
    if slots != [] {
      var r := slots[..|slots| - 1];
      TotalNonNegative(r, UsesEntry(k));
      IdleHoldsNothing(r, k);
      assert BlockOk(slots[|slots| - 1]);
    }
  }

  lemma EvictKeeps(s: System, k: nat)
    requires Owned(s) && Alive(s) && k < |s.entries| && s.entries[k].live && s.entries[k].useCnt == 0
    ensures Owned(NextEvict(s, k)) && Alive(NextEvict(s, k))
  {
    var s' := NextEvict(s, k);
    assert EntryOk(s, k);
    IdleHoldsNothing(s.slots, k);
    TotalUpdate(s.entries, k, s'.entries[k], EntryBytes());
    forall j | 0 <= j < |s'.entries| ensures EntryOk(s', j) { assert EntryOk(s, j); }
  }

  lemma SortedEmpty()
    ensures Sorted([])
  {
  }

  lemma CreateKeeps(s: System)
    requires Owned(s) && Alive(s)
    ensures Owned(Next(s, Create)) && Alive(Next(s, Create))
  {
    hide Total, Sorted;
    var s' := Next(s, Create);
    SortedEmpty();
    var n := |s.entries|;
    TotalPush(s.entries, s'.entries[n], EntryBytes());
    NobodyUses(s.slots, n);
    forall j | 0 <= j < |s'.entries| ensures EntryOk(s', j) {
      if j < n { assert EntryOk(s, j); }
    }
  }

  lemma {:induction false} NobodyUses(slots: seq<Slot>, k: nat)
    requires forall i :: 0 <= i < |slots| ==> slots[i].home < k
    ensures Total(slots, UsesEntry(k)) == 0 && Total(slots, HoldsFiles(k)) == 0
  {
    if slots != [] {
      NobodyUses(slots[..|slots| - 1], k);
    }
  }

  /** The step theorem: ownership, use counts, memory and validations survive every event. */
  lemma StepKeeps(s: System, e: Event)
    requires Owned(s) && Alive(s) && Enabled(s, e)
    ensures Owned(Next(s, e)) && Alive(Next(s, e))
  {
    match e
    case Create => CreateKeeps(s);
    case Open(k, r, env, d, ok) => OpenKeeps(s, k, r, env, d, ok);
    case Deliver(i, d, ok) => DeliverKeeps(s, i, d, ok);
    case Finish(i, d, ok, fails) =>
      DeliverKeeps(s, i, d, ok);
      CloseStepKeeps(NextDeliver(s, i, d, ok), i, fails);
    case Release(i) => ReleaseKeeps(s, i);
    case Evict(k) => EvictKeeps(s, k);
  }

  lemma {:induction false} RunKeeps(s: System, es: seq<Event>)
    requires Owned(s) && Alive(s) && Runs(s, es)
    ensures Owned(After(s, es)) && Alive(After(s, es))
    decreases |es|
  {
    if es != [] {
      StepKeeps(s, es[0]);
      RunKeeps(Next(s, es[0]), es[1..]);
    }
  }

  // ----- the theorems -----

  /** The positions whose element satisfies p. */
  function Where<T>(s: seq<T>, p: T -> bool): set<nat> {
    set i: nat | i < |s| && p(s[i])
  }

  /** The blocks that hold the file container of entry k. */
  function Holders(slots: seq<Slot>, k: nat): set<nat> {
    Where(slots, (x: Slot) => x.home == k && !x.b.files.NoFiles?)
  }

  /** The blocks that point at entry k. */
  function Users(slots: seq<Slot>, k: nat): set<nat> {
    Where(slots, (x: Slot) => x.home == k && x.b.attached)
  }

  lemma {:induction false} TotalCounts<T>(s: seq<T>, w: T -> int, p: T -> bool)
    requires forall x :: w(x) == if p(x) then 1 else 0
    ensures Total(s, w) == |Where(s, p)|
  {
    if s != [] {
      var n := |s| - 1;
      TotalCounts(s[..n], w, p);
      var r := Where(s[..n], p);
      if p(s[n]) {
        assert Where(s, p) == r + {n};
      } else {
        assert Where(s, p) == r;
      }
    }
  }

  lemma TotalsCount(slots: seq<Slot>, k: nat)
    ensures Total(slots, UsesEntry(k)) == |Users(slots, k)|
    ensures Total(slots, HoldsFiles(k)) == |Holders(slots, k)|
  {
    TotalCounts(slots, UsesEntry(k), (x: Slot) => x.home == k && x.b.attached);
    TotalCounts(slots, HoldsFiles(k), (x: Slot) => x.home == k && !x.b.files.NoFiles?);
  }

  /** Over every run: a live entry's file container is held by the entry or by exactly one
      block, the use count is the number of blocks pointing at the entry, and an entry
      nobody uses has its file container. */
  lemma OwnershipTheorem(es: seq<Event>, k: nat)
    requires Runs(START, es)
    requires k < |After(START, es).entries|
    ensures var s := After(START, es); var en := s.entries[k];
            && en.useCnt == |Users(s.slots, k)|
            && (en.live ==> |Holders(s.slots, k)| == if en.c.files.NoFiles? then 1 else 0)
            && (en.live && en.useCnt == 0 ==> !en.c.files.NoFiles?)
            && (!en.live ==> en.useCnt == 0 && en.c.files.NoFiles? && Holders(s.slots, k) == {})
  {
    RunKeeps(START, es);
    var s := After(START, es);
    assert EntryOk(s, k);
    TotalsCount(s.slots, k);
    if s.entries[k].useCnt == 0 {
      IdleHoldsNothing(s.slots, k);
    }
  }

  /** Over every run no validation of the source fails. */
  lemma NeverCrashes(es: seq<Event>)
    requires Runs(START, es)
    ensures !After(START, es).crashed
  {
    RunKeeps(START, es);
  }

  /** Every block is released and every entry evicted. */
  ghost predicate AllGone(s: System) {
    && (forall i :: 0 <= i < |s.slots| ==> s.slots[i].stage == Released)
    && (forall k :: 0 <= k < |s.entries| ==> !s.entries[k].live)
  }

  lemma NothingHeld(s: System)
    requires Owned(s) && AllGone(s)
    ensures s.memuse == 0
  {
    hide Total;
    forall i | 0 <= i < |s.slots| ensures SlotBytes()(s.slots[i]) == 0 { assert BlockOk(s.slots[i]); }
    forall k | 0 <= k < |s.entries| ensures EntryBytes()(s.entries[k]) == 0 { assert EntryOk(s, k); }
    TotalZero(s.slots, SlotBytes());
    TotalZero(s.entries, EntryBytes());
  }

  /** Over every run the out-of-order share of the counter is exactly the buffers still
      held, so it is zero once every block is released and every entry evicted. */
  lemma MemoryTheorem(es: seq<Event>)
    requires Runs(START, es)
    ensures var s := After(START, es);
            && s.memuse == Total(s.entries, EntryBytes()) + Total(s.slots, SlotBytes())
            && s.memuse >= 0
            && (AllGone(s) ==> s.memuse == 0)
  {
    RunKeeps(START, es);
    hide Runs, After, Total, Alive, AllGone;
    var s := After(START, es);
    TotalNonNegative(s.entries, EntryBytes());
    TotalNonNegative(s.slots, SlotBytes());
    if AllGone(s) {
      NothingHeld(s);
    }
  }

  lemma {:induction false} TotalZero<T>(s: seq<T>, w: T -> int)
    requires forall i :: 0 <= i < |s| ==> w(s[i]) == 0
    ensures Total(s, w) == 0
  {
    if s != [] {
      TotalZero(s[..|s| - 1], w);
    }
  }
}
