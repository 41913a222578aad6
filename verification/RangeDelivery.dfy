/**
 What of a resource ends up in the file when blocks may be cut short: over every run nothing
 but what was delivered, and without refusals the longest prefix that was delivered.
 */
module RangeDelivery {
  import opened RangeModel
  import opened RangeOwnership
  import opened RangeContent
  import opened RangeOrder

  // ----- nothing but what was delivered -----

  /** Every byte below n was delivered. */
  ghost predicate UpTo(s: System, k: nat, n: nat) {
    forall p: nat :: p < n ==> Delivered(s, k, p)
  }

  ghost predicate FragmentFed(y: Fragment, s: System, k: nat) {
    forall p: nat :: y.start <= p < y.End() ==> Delivered(s, k, p)
  }

  ghost predicate TreeFed(t: seq<Fragment>, s: System, k: nat) {
    forall y :: y in t ==> FragmentFed(y, s, k)
  }

  /** A block that holds the file starts within it. */
  predicate StartsWithin(x: Slot, c: Container) {
    x.b.files.OneFile? ==> x.req.first <= c.lastsize
  }

  ghost predicate Fed(s: System, k: nat) {
    k < |s.entries| ==>
      && UpTo(s, k, s.entries[k].c.lastsize)
      && TreeFed(s.entries[k].c.tree, s, k)
      && forall i :: 0 <= i < |s.slots| && s.slots[i].home == k ==> StartsWithin(s.slots[i], s.entries[k].c)
  }

  /** Slots are only added, and given more. */
  ghost predicate Grown(s: System, t: System) {
    && |s.slots| <= |t.slots|
    && forall i :: 0 <= i < |s.slots| ==>
         t.slots[i].home == s.slots[i].home && t.slots[i].req == s.slots[i].req && t.slots[i].sent >= s.slots[i].sent
  }

  lemma DeliveredGrown(s: System, t: System, k: nat, p: nat)
    requires Grown(s, t) && Delivered(s, k, p)
    ensures Delivered(t, k, p)
  {
    var i :| 0 <= i < |s.slots| && Brought(s.slots[i], k, p);
    assert Brought(t.slots[i], k, p);
  }

  lemma FedGrown(s: System, t: System, k: nat, n: nat, tree: seq<Fragment>)
    requires Grown(s, t) && UpTo(s, k, n) && TreeFed(tree, s, k)
    ensures UpTo(t, k, n) && TreeFed(tree, t, k)
  {
    hide Delivered, Grown;
    forall p: nat | Delivered(s, k, p) ensures Delivered(t, k, p) { DeliveredGrown(s, t, k, p); }
    forall y | y in tree ensures FragmentFed(y, t, k) { assert FragmentFed(y, s, k); }
  }

  /** A merge brings in what the fragments hold and nothing else. */
  lemma {:induction false} MergeFed(t: seq<Fragment>, f: File, fails: seq<bool>, s: System, k: nat, R: Resource)
    requires TreeGood(t, R) && TreeFed(t, s, k) && UpTo(s, k, f.size)
    ensures var m := Merge(t, f, fails); UpTo(s, k, m.file.size) && TreeFed(m.tree, s, k)
  {
    hide Delivered;
    if t != [] && f.size >= t[0].start {
      assert t[0] in t && FragmentGood(t[0], R) && FragmentFed(t[0], s, k);
      var a := AppendFragment(f, t[0], StoreOk(fails));
      assert a.file.size <= f.size || a.file.size <= t[0].End();
      if a.ok {
        MergeFed(t[1..], a.file, Rest(fails), s, k, R);
      }
    }
  }

  /** What a block holds was delivered through it, behind what the file held. */
  lemma SlotFed(s: System, i: nat, k: nat, R: Resource)
    requires Content(s, k, R) && Fed(s, k) && i < |s.slots| && s.slots[i].home == k < |s.entries|
    ensures s.slots[i].b.files.OneFile? ==> UpTo(s, k, s.slots[i].b.files.file.size)
    ensures s.slots[i].b.current.Some? ==> FragmentFed(s.slots[i].b.current.value, s, k)
  {
    hide EntryGood, TreeGood, FileGood, FragmentGood;
    var x := s.slots[i];
    forall p: nat | x.req.first <= p < x.req.first + x.sent ensures Delivered(s, k, p) {
      assert Brought(s.slots[i], k, p);
    }
    hide Delivered;
    assert SlotGood(x, s.entries[k].c, R) && StartsWithin(x, s.entries[k].c);
  }

  lemma CloseFed(s: System, i: nat, fails: seq<bool>, k: nat, R: Resource)
    requires Owned(s) && Alive(s) && Content(s, k, R) && Fed(s, k)
    requires i < |s.slots| && s.slots[i].stage == Active && s.slots[i].b.attached
    requires s.slots[i].home == k < |s.entries| && CloseSafe(s.slots[i].b)
    ensures var r := Close(s.entries[k].c, s.slots[i].b, s.memuse, fails);
            UpTo(s, k, r.c.lastsize) && TreeFed(r.c.tree, s, k)
  {
    hide Owned, Alive, UpTo, TreeFed, FragmentFed, Merge, Insert, Holds, Sorted;
    var x, c := s.slots[i], s.entries[k].c;
    CloseReady(s, i);
    SlotFed(s, i, k, R);
    if x.b.current.Some? {
      var y := x.b.current.value;
      InsertFed(c.tree, y, s, k);
      assert SlotGood(x, c, R) && FragmentGood(y, R);
      InsertGood(c.tree, y, R);
      if c.files.OneFile? && c.lastsize < y.End() {
        EntryFile(s.entries[k], R);
        MergeFed(Insert(c.tree, y), c.files.file, fails, s, k, R);
      }
    } else if x.b.toskip == 0 {
      MergeFed(c.tree, x.b.files.file, fails, s, k, R);
    }
  }

  /** An unfinished entry's file ends at its last size. */
  lemma EntryFile(en: Entry, R: Resource)
    requires EntryGood(en, R) && en.live && en.c.files.OneFile? && en.c.lastsize < |R|
    ensures en.c.files.file.size == en.c.lastsize
  {
  }

  lemma InsertFed(t: seq<Fragment>, y: Fragment, s: System, k: nat)
    requires TreeFed(t, s, k) && FragmentFed(y, s, k)
    ensures TreeFed(Insert(t, y), s, k)
  {
    InsertMembers(t, y);
  }

  // ----- steps -----

  lemma DeliverFed(s: System, i: nat, d: Chunk, ok: bool, k: nat)
    requires Owned(s) && Fed(s, k) && i < |s.slots| && s.slots[i].stage == Active
    ensures Fed(NextDeliver(s, i, d, ok), k)
  {
    hide UpTo, TreeFed;
    var t := NextDeliver(s, i, d, ok);
    assert BlockOk(s.slots[i]);
    AppendKeeps(s.slots[i], d, ok);
    if k < |s.entries| {
      FedGrown(s, t, k, s.entries[k].c.lastsize, s.entries[k].c.tree);
    }
  }

  lemma OpenFed(s: System, j: nat, r: Request, env: OpenEnv, d: Chunk, ok: bool, k: nat, R: Resource)
    requires Content(s, k, R) && Fed(s, k)
    requires j < |s.entries| && s.entries[j].live && !s.entries[j].c.error && r.Valid()
    requires j == k ==> NextBytes(d, r, 0, R)
    ensures Fed(NextOpen(s, j, r, env, d, ok), k)
  {
    hide UpTo, TreeFed, NextBytes, SlotGood, EntryGood, TreeGood;
    var t := NextOpen(s, j, r, env, d, ok);
    if k < |s.entries| {
      FedGrown(s, t, k, s.entries[k].c.lastsize, s.entries[k].c.tree);
    }
  }

  lemma CloseStepFed(s: System, i: nat, fails: seq<bool>, k: nat, R: Resource)
    requires Owned(s) && Alive(s) && Content(s, k, R) && Fed(s, k) && i < |s.slots| && s.slots[i].stage == Active
    ensures Fed(NextClose(s, i, fails), k)
  {
    hide Owned, Alive, Content, Close, BlockOk, Sorted, UpTo, TreeFed;
    var x := s.slots[i];
    if x.b.attached {
      CloseReady(s, i);
      CloseKeeps(s.entries[x.home].c, x, s.memuse, fails);
      NextCloseIs(s, i, fails);
      if x.home == k {
        CloseOwnFed(s, i, fails, k, R);
      } else if k < |s.entries| {
        FedGrown(s, NextClose(s, i, fails), k, s.entries[k].c.lastsize, s.entries[k].c.tree);
      }
    } else if k < |s.entries| {
      FedGrown(s, NextClose(s, i, fails), k, s.entries[k].c.lastsize, s.entries[k].c.tree);
    }
  }

  lemma CloseOwnFed(s: System, i: nat, fails: seq<bool>, k: nat, R: Resource)
    requires Owned(s) && Alive(s) && Content(s, k, R) && Fed(s, k) && i < |s.slots| && s.slots[i].stage == Active
    requires s.slots[i].b.attached && s.slots[i].home == k
    ensures Fed(NextClose(s, i, fails), k)
  {
    hide Owned, Alive, SlotGood, EntryGood, TreeGood, Close, BlockOk, Sorted, NextClose, CloseSafe, UpTo, TreeFed;
    var x := s.slots[i];
    var t := NextClose(s, i, fails);
    CloseReady(s, i);
    CloseKeeps(s.entries[k].c, x, s.memuse, fails);
    CloseGood(s.entries[k], x, s.memuse, fails, R);
    CloseFed(s, i, fails, k, R);
    NextCloseIs(s, i, fails);
    CloseStepKeeps(s, i, fails);
    SoleHolder(t, k);
    FedGrown(s, t, k, t.entries[k].c.lastsize, t.entries[k].c.tree);
  }

  lemma CreateFed(s: System, k: nat)
    requires Owned(s) && Fed(s, k)
    ensures Fed(Next(s, Create), k)
  {
    hide UpTo, TreeFed;
    var t := Next(s, Create);
    forall i | 0 <= i < |s.slots| ensures s.slots[i].home < |s.entries| {
      SlotWithin(s, i);
    }
    if k < |s.entries| {
      FedGrown(s, t, k, s.entries[k].c.lastsize, s.entries[k].c.tree);
    } else {
      NothingFed(t, k);
    }
  }

  lemma NothingFed(s: System, k: nat)
    ensures UpTo(s, k, 0) && TreeFed([], s, k)
  {
  }

  lemma ReleaseFed(s: System, i: nat, k: nat)
    requires Fed(s, k) && i < |s.slots|
    ensures Fed(NextRelease(s, i), k)
  {
    hide UpTo, TreeFed;
    if k < |s.entries| {
      FedGrown(s, NextRelease(s, i), k, s.entries[k].c.lastsize, s.entries[k].c.tree);
    }
  }

  lemma EvictFed(s: System, j: nat, k: nat)
    requires Fed(s, k) && j < |s.entries|
    ensures Fed(NextEvict(s, j), k)
  {
    hide UpTo, TreeFed;
    if k < |s.entries| {
      FedGrown(s, NextEvict(s, j), k, s.entries[k].c.lastsize, s.entries[k].c.tree);
      NothingFed(NextEvict(s, j), k);
    }
  }

  lemma StepFed(s: System, e: Event, k: nat, R: Resource)
    requires Owned(s) && Alive(s) && Content(s, k, R) && Fed(s, k) && Enabled(s, e) && Faithful(s, e, k, R)
    ensures Fed(Next(s, e), k)
  {
    hide Owned, Alive, Content, Fed, NextBytes, NextOpen, NextDeliver, NextClose, NextRelease, NextEvict;
    match e
    case Create => CreateFed(s, k);
    case Open(j, r, env, d, ok) => OpenFed(s, j, r, env, d, ok, k, R);
    case Deliver(i, d, ok) => DeliverFed(s, i, d, ok, k);
    case Finish(i, d, ok, fails) =>
      DeliverKeeps(s, i, d, ok);
      DeliverContent(s, i, d, ok, k, R);
      DeliverFed(s, i, d, ok, k);
      DeliverStage(s, i, d, ok);
      CloseStepFed(NextDeliver(s, i, d, ok), i, fails, k, R);
    case Release(i) => ReleaseFed(s, i, k);
    case Evict(j) => EvictFed(s, j, k);
  }

  /** Over every run that fetches R, whatever fails: each byte counted in the file was
      delivered by some block. */
  lemma {:induction false} NothingElse(s: System, es: seq<Event>, k: nat, R: Resource)
    requires Owned(s) && Alive(s) && Content(s, k, R) && Fed(s, k) && Runs(s, es) && Fetches(s, es, k, R)
    ensures Fed(After(s, es), k)
    decreases |es|
  {
    if es != [] {
      hide Owned, Alive, Content, Fed, Enabled, Faithful, Next;
      StepKeeps(s, es[0]);
      StepContent(s, es[0], k, R);
      StepFed(s, es[0], k, R);
      NothingElse(Next(s, es[0]), es[1..], k, R);
    }
  }

  // ----- the longest delivered prefix -----

  /** Without refusals, once every block is closed: all below the size of the file was
      delivered, and the byte at it was not unless the file is all of R.  The complete file,
      and only that, has been handed out; a shorter one is kept. */
  lemma LongestPrefix(es: seq<Event>, k: nat, R: Resource)
    requires R != []
    requires Runs(START, es) && Fetches(START, es, k, R) && RunsUnhindered(START, es, k)
    requires k < |After(START, es).entries| && AllClosed(After(START, es), k)
    ensures var s := After(START, es); var en := s.entries[k]; var n := en.c.lastsize;
            && (forall p: nat :: p < n ==> Delivered(s, k, p))
            && n <= |R| && (n < |R| ==> !Delivered(s, k, n))
            && (n == |R| ==> en.handed == [HandOut(File(|R|, R, true, false), false)])
            && (n < |R| ==> en.handed == [] && (n > 0 ==> en.c.files == OneFile(File(n, R[..n], true, false))))
  {
    hide Owned, Alive, Delivered;
    StartOwned();
    RunComplete(START, es, k, R);
    NothingElse(START, es, k, R);
    var s := After(START, es);
    var en := s.entries[k];
    if en.handed == [] {
      EndsAtHole(s, k, R);
    } else {
      var f := en.handed[0].file;
      assert f.stored == R[..|R|] == R;
    }
  }

  /** So the outcome depends on which bytes were delivered and on nothing else. */
  lemma OnlyDeliveryMatters(es: seq<Event>, fs: seq<Event>, k: nat, R: Resource)
    requires R != []
    requires Runs(START, es) && Fetches(START, es, k, R) && RunsUnhindered(START, es, k)
    requires Runs(START, fs) && Fetches(START, fs, k, R) && RunsUnhindered(START, fs, k)
    requires k < |After(START, es).entries| && AllClosed(After(START, es), k)
    requires k < |After(START, fs).entries| && AllClosed(After(START, fs), k)
    requires forall p: nat :: Delivered(After(START, es), k, p) <==> Delivered(After(START, fs), k, p)
    ensures var a := After(START, es).entries[k]; var b := After(START, fs).entries[k];
            a.c.lastsize == b.c.lastsize && a.handed == b.handed
  {
    hide Runs, Fetches, RunsUnhindered, After, AllClosed, Delivered;
    LongestPrefix(es, k, R);
    LongestPrefix(fs, k, R);
  }
}
