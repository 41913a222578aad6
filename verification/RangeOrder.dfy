/**
 Order independence: blocks that together cover a resource rebuild it exactly, whatever the
 order in which they are opened, fed and closed, and whether or not each gets all it asked for.
 */
module RangeOrder {
  import opened Common
  import opened RangeModel
  import opened RangeOwnership
  import opened RangeContent

  // ----- runs without failures -----

  /** A close leaves something behind in two ways: an empty buffer is parked ahead of the
      file, or a file is given back within the overlap, unmerged, although it has reached a
      parked fragment. */
  predicate ClosesClean(c: Container, b: Block) {
    && (b.current.Some? ==> b.current.value.written != [] || b.current.value.start <= c.lastsize)
    && (b.files.OneFile? && b.toskip > 0 ==> forall y :: y in c.tree ==> y.start > c.lastsize)
  }

  /** On entry k nothing is refused, ranges stay below 4 GiB, no close leaves anything behind,
      and the entry is not evicted meanwhile. */
  predicate Unhindered(s: System, e: Event, k: nat) {
    match e
    case Open(j, r, env, _, ok) =>
      j == k ==> env == OpenEnv(true, true, true, true, true) && ok && r.Valid() && r.Len() <= U32_MAX
    case Deliver(i, _, ok) => i < |s.slots| && s.slots[i].home == k ==> ok
    case Finish(i, d, ok, fails) =>
      i < |s.slots| && s.slots[i].home == k ==>
        ok && fails == [] && (k < |s.entries| ==> ClosesClean(s.entries[k].c, Append(s.slots[i].b, d, ok)))
    case Evict(j) => j != k
    case _ => true
  }

  ghost predicate RunsUnhindered(s: System, es: seq<Event>, k: nat)
    requires Runs(s, es)
    decreases |es|
  {
    es == [] || (Unhindered(s, es[0], k) && RunsUnhindered(Next(s, es[0]), es[1..], k))
  }

  /** Every block of entry k has been closed. */
  ghost predicate AllClosed(s: System, k: nat) {
    forall i :: 0 <= i < |s.slots| && s.slots[i].home == k ==> s.slots[i].stage != Active
  }

  /** Some block of entry k was given byte p. */
  ghost predicate Delivered(s: System, k: nat, p: nat) {
    exists i :: 0 <= i < |s.slots| && Brought(s.slots[i], k, p)
  }

  predicate Brought(x: Slot, k: nat, p: nat) {
    x.home == k && x.req.first <= p < x.req.first + x.sent
  }

  // ----- the invariant -----

  predicate Sound(x: Fragment) { 0 < |x.written| <= U32_MAX }

  /** What the block was given is in the file or waits in the tree. */
  ghost predicate Kept(x: Slot, c: Container) {
    || x.sent == 0
    || x.req.first + x.sent <= c.lastsize
    || exists y :: y in c.tree && y.start == x.req.first && y.End() == x.req.first + x.sent
  }

  ghost predicate SlotComplete(x: Slot, c: Container) {
    && !c.files.EmptyFiles?
    && (x.b.files.OneFile? ==> x.b.files.file.writable)
    && (x.b.current.Some? ==> x.b.current.value.buflen <= U32_MAX)
    && (x.stage == Active && !x.b.attached ==> x.req.last < c.lastsize)
    && (x.stage != Active ==> Kept(x, c))
  }

  ghost predicate EntryComplete(en: Entry, R: Resource) {
    && en.live && !en.c.error
    && (en.handed == [] ==>
          && en.c.lastsize < |R|
          && (en.c.files.OneFile? ==> en.c.files.file.writable)
          && (forall y :: y in en.c.tree ==> Sound(y))
          && (!en.c.files.NoFiles? ==> forall y :: y in en.c.tree ==> y.start > en.c.lastsize))
    && (en.handed != [] ==> en.handed[0].file.writable && !en.handed[0].truncated)
  }

  ghost predicate Complete(s: System, k: nat, R: Resource) {
    k < |s.entries| ==>
      && EntryComplete(s.entries[k], R)
      && (s.entries[k].handed == [] ==>
            forall i :: 0 <= i < |s.slots| && s.slots[i].home == k ==> SlotComplete(s.slots[i], s.entries[k].c))
  }

  // ----- merging never fails -----

  lemma {:induction false} MergeComplete(t: seq<Fragment>, f: File, R: Resource)
    requires FileGood(f, R) && TreeGood(t, R) && Sorted(t) && f.writable
    requires forall y :: y in t ==> Sound(y)
    ensures var m := Merge(t, f, []);
            && m.ok && m.file.writable
            && (forall y :: y in m.tree ==> Sound(y))
  {
    if t != [] && t[0].start <= f.size {
      assert Sound(t[0]);
      AppendFragmentGood(f, t[0], true, R);
      MergeComplete(t[1..], AppendFragment(f, t[0], true).file, R);
    }
  }

  /** Merging keeps every range that was in the file or in the tree. */
  lemma MergeIntoComplete(c: Container, b: Block, memuse: int, R: Resource)
    requires c.files.OneFile? && FileGood(c.files.file, R) && TreeGood(c.tree, R) && Sorted(c.tree)
    requires c.files.file.writable && c.totalsize == |R| && c.lastsize <= c.files.file.size && !c.error
    requires forall y :: y in c.tree ==> Sound(y)
    ensures var r := MergeInto(c, b, memuse, []); var size := Merge(c.tree, c.files.file, []).file.size;
            && r.c.lastsize == size >= c.files.file.size
            && !r.c.error
            && (r.out.Some? ==> r.out.value.file.writable && !r.out.value.truncated)
            && (r.out.None? ==>
                  && r.c.lastsize < |R|
                  && r.c.files.OneFile? && r.c.files.file.writable
                  && (forall y :: y in r.c.tree ==> Sound(y) && y.start > r.c.lastsize)
                  && (forall y :: y in c.tree ==> y in r.c.tree || y.End() <= r.c.lastsize))
  {
    MergeGood(c.tree, c.files.file, [], R);
    MergeComplete(c.tree, c.files.file, R);
  }

  lemma KeptMonotone(x: Slot, c: Container, c': Container)
    requires Kept(x, c) && c.lastsize <= c'.lastsize
    requires forall y :: y in c.tree ==> y in c'.tree || y.End() <= c'.lastsize
    ensures Kept(x, c')
  {
  }

  /** A close that leaves nothing behind, and only such a close, keeps the entry complete;
      what the block was given is kept, and so is everything kept before. */
  lemma CloseComplete(en: Entry, x: Slot, memuse: int, R: Resource)
    requires EntryGood(en, R) && TreeGood(en.c.tree, R) && Sorted(en.c.tree) && EntryComplete(en, R)
    requires BlockOk(x) && x.stage == Active && x.b.attached && SlotGood(x, en.c, R)
    requires en.handed == [] ==> SlotComplete(x, en.c)
    requires x.b.files.OneFile? ==> en.c.files.NoFiles?
    ensures CloseSafe(x.b)
    ensures var r := Close(en.c, x.b, memuse, []);
            var en' := en.Closed(r);
            && (EntryComplete(en', R) <==> ClosesClean(en.c, x.b))
            && (EntryComplete(en', R) && en'.handed == [] ==>
                  && Kept(x, r.c)
                  && en.c.lastsize <= r.c.lastsize
                  && forall y :: y in en.c.tree ==> y in r.c.tree || y.End() <= r.c.lastsize)
  {
    if x.b.current.Some? {
      CloseBuffer(en, x, memuse, R);
    } else if x.b.toskip == 0 {
      MergeIntoComplete(en.c.(files := x.b.files), x.b.(files := NoFiles), memuse, R);
    }
  }

  lemma CloseBuffer(en: Entry, x: Slot, memuse: int, R: Resource)
    requires EntryGood(en, R) && TreeGood(en.c.tree, R) && Sorted(en.c.tree) && EntryComplete(en, R)
    requires BlockOk(x) && x.stage == Active && x.b.attached && SlotGood(x, en.c, R) && x.b.current.Some?
    requires en.handed == [] ==> SlotComplete(x, en.c)
    ensures var r := Close(en.c, x.b, memuse, []);
            var en' := en.Closed(r);
            && (EntryComplete(en', R) <==> ClosesClean(en.c, x.b))
            && (EntryComplete(en', R) && en'.handed == [] ==>
                  && Kept(x, r.c)
                  && en.c.lastsize <= r.c.lastsize
                  && forall y :: y in en.c.tree ==> y in r.c.tree || y.End() <= r.c.lastsize)
  {
    var y := x.b.current.value;
    if en.c.lastsize < y.End() {
      assert en.handed == [];
      if Holds(en.c.tree, y) {
        var i :| 0 <= i < |en.c.tree| && Compare(en.c.tree[i], y) == 0;
        assert en.c.tree[i] in en.c.tree && Sound(en.c.tree[i]);
      } else {
        CloseParks(en, x, memuse, R);
      }
    }
  }

  lemma CloseParks(en: Entry, x: Slot, memuse: int, R: Resource)
    requires EntryGood(en, R) && TreeGood(en.c.tree, R) && Sorted(en.c.tree) && EntryComplete(en, R)
    requires BlockOk(x) && x.stage == Active && x.b.attached && SlotGood(x, en.c, R) && x.b.current.Some?
    requires en.handed == [] && SlotComplete(x, en.c)
    requires en.c.lastsize < x.b.current.value.End() && !Holds(en.c.tree, x.b.current.value)
    ensures var r := Close(en.c, x.b, memuse, []);
            var en' := en.Closed(r);
            && (EntryComplete(en', R) <==> ClosesClean(en.c, x.b))
            && (EntryComplete(en', R) && en'.handed == [] ==>
                  && Kept(x, r.c)
                  && en.c.lastsize <= r.c.lastsize
                  && forall y :: y in en.c.tree ==> y in r.c.tree || y.End() <= r.c.lastsize)
  {
    var y := x.b.current.value;
    var c' := en.c.(tree := Insert(en.c.tree, y));
    InsertMembers(en.c.tree, y);
    InsertGood(en.c.tree, y, R);
    InsertSorted(en.c.tree, y);
    assert y in c'.tree && (Sound(y) <==> y.written != []);
    if en.c.files.OneFile? {
      if y.written == [] {
        NothingReached(c', x.b.(current := None), memuse);
      } else {
        MergeIntoComplete(c', x.b.(current := None), memuse, R);
      }
    }
  }

  /** Nothing is merged while every fragment lies ahead of the file. */
  lemma NothingReached(c: Container, b: Block, memuse: int)
    requires c.files.OneFile? && (forall y :: y in c.tree ==> y.start > c.files.file.size)
    requires c.files.file.size < c.totalsize
    ensures var r := MergeInto(c, b, memuse, []); r.c.tree == c.tree && r.out.None?
  {
    if c.tree != [] {
      assert c.tree[0] in c.tree;
    }
  }

  lemma InsertMembers(t: seq<Fragment>, x: Fragment)
    ensures forall y :: y in Insert(t, x) <==> y in t || y == x
  {
    InsertAdds(t, x);
    forall y ensures y in Insert(t, x) <==> y in t || y == x {
      assert y in Insert(t, x) <==> y in multiset(Insert(t, x));
      assert y in t <==> y in multiset(t);
    }
  }

  // ----- steps -----

  lemma AppendComplete(x: Slot, d: Chunk, c: Container, R: Resource)
    requires BlockOk(x) && x.stage == Active && SlotGood(x, c, R) && NextBytes(d, x.req, x.sent, R)
    requires SlotComplete(x, c)
    ensures SlotComplete(x.(b := Append(x.b, d, true), sent := x.sent + d.Len()), c)
  {
  }

  lemma DeliverComplete(s: System, i: nat, d: Chunk, ok: bool, k: nat, R: Resource)
    requires Owned(s) && Content(s, k, R) && Complete(s, k, R) && i < |s.slots| && s.slots[i].stage == Active
    requires s.slots[i].home == k ==> ok && NextBytes(d, s.slots[i].req, s.slots[i].sent, R)
    ensures Complete(NextDeliver(s, i, d, ok), k, R)
  {
    if s.slots[i].home == k && s.entries[k].handed == [] {
      AppendComplete(s.slots[i], d, s.entries[k].c, R);
    }
  }

  lemma CloseStepComplete(s: System, i: nat, fails: seq<bool>, k: nat, R: Resource)
    requires Owned(s) && Alive(s) && Content(s, k, R) && Complete(s, k, R)
    requires i < |s.slots| && s.slots[i].stage == Active
    requires s.slots[i].home == k < |s.entries| ==> fails == [] && ClosesClean(s.entries[k].c, s.slots[i].b)
    ensures Complete(NextClose(s, i, fails), k, R)
  {
    hide Owned, Alive, Close, BlockOk, Sorted, SlotComplete, SlotGood, EntryGood, TreeGood, EntryComplete, ClosesClean;
    var x := s.slots[i];
    if x.b.attached {
      CloseReady(s, i);
      CloseKeeps(s.entries[x.home].c, x, s.memuse, fails);
      NextCloseIs(s, i, fails);
      if x.home == k {
        CloseOwnComplete(s, i, k, R);
      }
    } else if x.home == k && k < |s.entries| && s.entries[k].handed == [] {
      DetachedComplete(x, s.entries[k].c, R);
    }
  }

  lemma DetachedComplete(x: Slot, c: Container, R: Resource)
    requires SlotComplete(x, c) && SlotGood(x, c, R) && x.stage == Active && !x.b.attached
    ensures SlotComplete(x.(stage := Finished), c)
  {
  }

  /** A closed block whose range is kept is complete. */
  lemma DoneComplete(x: Slot, b: Block, c: Container)
    requires Kept(x, c) && b.current.None? && b.files.NoFiles? && !c.files.EmptyFiles?
    ensures SlotComplete(x.(b := b, stage := Finished), c)
  {
  }

  lemma MovedComplete(x: Slot, c: Container, c': Container)
    requires SlotComplete(x, c) && c.lastsize <= c'.lastsize && !c'.files.EmptyFiles?
    requires forall y :: y in c.tree ==> y in c'.tree || y.End() <= c'.lastsize
    ensures SlotComplete(x, c')
  {
    if x.stage != Active {
      KeptMonotone(x, c, c');
    }
  }

  lemma CloseOwnComplete(s: System, i: nat, k: nat, R: Resource)
    requires Owned(s) && Alive(s) && Content(s, k, R) && Complete(s, k, R)
    requires i < |s.slots| && s.slots[i].stage == Active
    requires s.slots[i].b.attached && s.slots[i].home == k < |s.entries| && ClosesClean(s.entries[k].c, s.slots[i].b)
    ensures Complete(NextClose(s, i, []), k, R)
  {
    hide Owned, Alive, SlotGood, EntryGood, TreeGood, Close, BlockOk, Sorted, NextClose, CloseSafe, SlotComplete,
         EntryComplete, Kept, ClosesClean;
    var x := s.slots[i];
    var s' := NextClose(s, i, []);
    CloseReady(s, i);
    CloseKeeps(s.entries[k].c, x, s.memuse, []);
    CloseComplete(s.entries[k], x, s.memuse, R);
    NextCloseIs(s, i, []);
    if s'.entries[k].handed == [] {
      NotEmptied(s.entries[k].c, x, s.memuse);
      forall j | 0 <= j < |s'.slots| && s'.slots[j].home == k ensures SlotComplete(s'.slots[j], s'.entries[k].c) {
        if j == i {
          DoneComplete(x, s'.slots[i].b, s'.entries[k].c);
        } else {
          MovedComplete(s.slots[j], s.entries[k].c, s'.entries[k].c);
        }
      }
    }
  }

  /** A close that hands out nothing leaves no container without its file. */
  lemma NotEmptied(c: Container, x: Slot, memuse: int)
    requires BlockOk(x) && x.stage == Active && x.b.attached && CloseSafe(x.b) && SlotComplete(x, c)
    ensures var r := Close(c, x.b, memuse, []); r.out.None? ==> !r.c.files.EmptyFiles?
  {
    hide Merge, Insert, Holds;
  }

  lemma OpenFileComplete(en: Entry, memuse: int, r: Request, d: Chunk, k: nat, R: Resource)
    requires en.live && !en.c.error && EntryGood(en, R) && EntryComplete(en, R)
    requires NextBytes(d, r, 0, R) && r.Len() <= U32_MAX
    ensures var o := OpenFile(en.c, memuse, r, OpenEnv(true, true, true, true, true), d, true);
            && EntryComplete(en.(c := o.c), R)
            && o.block.Some? && !o.c.files.EmptyFiles?
            && (en.handed == [] ==> SlotComplete(Slot(k, r, d.Len(), o.block.value, Active), o.c))
  {
    var env := OpenEnv(true, true, true, true, true);
    OpenAuxGood(en, memuse, r, env, R);
    OpenAuxKeeps(en.c, memuse, r, env);
    var o := OpenAux(en.c, memuse, r, env);
    if en.handed == [] {
      AppendComplete(Slot(k, r, 0, o.block.value, Active), d, o.c, R);
    }
  }

  lemma SlotCompleteFrame(x: Slot, c: Container, c': Container)
    requires SlotComplete(x, c) && c'.tree == c.tree && c'.lastsize == c.lastsize && !c'.files.EmptyFiles?
    ensures SlotComplete(x, c')
  {
  }

  lemma OpenComplete(s: System, j: nat, r: Request, env: OpenEnv, d: Chunk, ok: bool, k: nat, R: Resource)
    requires Content(s, k, R) && Complete(s, k, R)
    requires j < |s.entries| && s.entries[j].live && !s.entries[j].c.error && r.Valid()
    requires j == k ==>
               NextBytes(d, r, 0, R) && env == OpenEnv(true, true, true, true, true) && ok && r.Len() <= U32_MAX
    ensures Complete(NextOpen(s, j, r, env, d, ok), k, R)
  {
    hide OpenFile, SlotComplete, EntryGood, SlotGood, NextBytes;
    if j == k {
      OpenFileGood(s.entries[k], s.memuse, r, env, d, ok, k, R);
      OpenFileComplete(s.entries[k], s.memuse, r, d, k, R);
      var s' := NextOpen(s, j, r, env, d, ok);
      if s'.entries[k].handed == [] {
        forall i | 0 <= i < |s'.slots| && s'.slots[i].home == k ensures SlotComplete(s'.slots[i], s'.entries[k].c) {
          if i < |s.slots| {
            assert s'.slots[i] == s.slots[i];
            SlotCompleteFrame(s.slots[i], s.entries[k].c, s'.entries[k].c);
          }
        }
      }
    }
  }

  lemma ReleaseComplete(s: System, i: nat, k: nat, R: Resource)
    requires Complete(s, k, R) && i < |s.slots| && s.slots[i].stage == Finished
    ensures Complete(NextRelease(s, i), k, R)
  {
  }

  lemma EvictComplete(s: System, j: nat, k: nat, R: Resource)
    requires Complete(s, k, R) && j < |s.entries| && j != k
    ensures Complete(NextEvict(s, j), k, R)
  {
  }

  lemma CreateComplete(s: System, k: nat, R: Resource)
    requires R != [] && Owned(s) && Complete(s, k, R)
    ensures Complete(Next(s, Create), k, R)
  {
    forall i | 0 <= i < |s.slots| ensures s.slots[i].home < |s.entries| {
      SlotWithin(s, i);
    }
  }

  lemma StepComplete(s: System, e: Event, k: nat, R: Resource)
    requires R != [] && Owned(s) && Alive(s) && Content(s, k, R) && Complete(s, k, R)
    requires Enabled(s, e) && Faithful(s, e, k, R) && Unhindered(s, e, k)
    ensures Complete(Next(s, e), k, R)
  {
    hide Owned, Alive, Content, Complete, NextBytes, NextOpen, NextClose, NextRelease, NextEvict, ClosesClean, Append;
    match e
    case Create => CreateComplete(s, k, R);
    case Open(j, r, env, d, ok) => OpenComplete(s, j, r, env, d, ok, k, R);
    case Deliver(i, d, ok) => DeliverComplete(s, i, d, ok, k, R);
    case Finish(i, d, ok, fails) =>
      DeliverKeeps(s, i, d, ok);
      DeliverContent(s, i, d, ok, k, R);
      DeliverComplete(s, i, d, ok, k, R);
      DeliverStage(s, i, d, ok);
      CloseStepComplete(NextDeliver(s, i, d, ok), i, fails, k, R);
    case Release(i) => ReleaseComplete(s, i, k, R);
    case Evict(j) => EvictComplete(s, j, k, R);
  }

  lemma {:induction false} RunComplete(s: System, es: seq<Event>, k: nat, R: Resource)
    requires R != [] && Owned(s) && Alive(s) && Content(s, k, R) && Complete(s, k, R)
    requires Runs(s, es) && Fetches(s, es, k, R) && RunsUnhindered(s, es, k)
    ensures Owned(After(s, es)) && Alive(After(s, es)) && Content(After(s, es), k, R) && Complete(After(s, es), k, R)
    decreases |es|
  {
    if es != [] {
      hide Owned, Alive, Content, Complete, Enabled, Faithful, Unhindered, Next;
      StepKeeps(s, es[0]);
      StepContent(s, es[0], k, R);
      StepComplete(s, es[0], k, R);
      RunComplete(Next(s, es[0]), es[1..], k, R);
    }
  }

  /** Once every block is closed the entry holds its file again. */
  lemma NobodyHolds(s: System, k: nat)
    requires Owned(s) && k < |s.entries| && s.entries[k].live && AllClosed(s, k)
    ensures !s.entries[k].c.files.NoFiles?
  {
    assert EntryOk(s, k);
    forall i | 0 <= i < |s.slots| ensures HoldsFiles(k)(s.slots[i]) == 0 { assert BlockOk(s.slots[i]); }
    TotalZero(s.slots, HoldsFiles(k));
  }

  /** Once every block is closed, the file ends where no block delivered. */
  lemma EndsAtHole(s: System, k: nat, R: Resource)
    requires Owned(s) && Complete(s, k, R) && k < |s.entries| && AllClosed(s, k) && s.entries[k].handed == []
    ensures !s.entries[k].c.files.NoFiles? && !Delivered(s, k, s.entries[k].c.lastsize)
  {
    NobodyHolds(s, k);
    var c := s.entries[k].c;
    forall i | 0 <= i < |s.slots| && s.slots[i].home == k ensures !Brought(s.slots[i], k, c.lastsize) {
      assert SlotComplete(s.slots[i], c) && Kept(s.slots[i], c);
    }
  }

  /** When every block has been closed and every byte was delivered, exactly one file has been
      handed out, and it is R byte for byte. */
  lemma AllDelivered(es: seq<Event>, k: nat, R: Resource)
    requires R != []
    requires Runs(START, es) && Fetches(START, es, k, R) && RunsUnhindered(START, es, k)
    requires k < |After(START, es).entries| && AllClosed(After(START, es), k)
    requires forall p: nat :: p < |R| ==> Delivered(After(START, es), k, p)
    ensures After(START, es).entries[k].handed == [HandOut(File(|R|, R, true, false), false)]
  {
    hide Owned, Alive;
    StartOwned();
    RunComplete(START, es, k, R);
    var s := After(START, es);
    var en := s.entries[k];
    if en.handed == [] {
      EndsAtHole(s, k, R);
      assert false;
    }
    var f := en.handed[0].file;
    assert f.stored == R[..|R|] == R;
  }

  // ----- blocks that are delivered in full -----

  /** As in an unhindered run, but each block is closed once its whole range was delivered;
      nothing else has to be known of the closes. */
  predicate Smooth(s: System, e: Event, k: nat) {
    match e
    case Finish(i, d, ok, fails) =>
      i < |s.slots| && s.slots[i].home == k ==>
        ok && fails == [] && s.slots[i].req.Valid() && s.slots[i].sent + d.Len() == s.slots[i].req.Len()
    case _ => Unhindered(s, e, k)
  }

  ghost predicate RunsSmoothly(s: System, es: seq<Event>, k: nat)
    requires Runs(s, es)
    decreases |es|
  {
    es == [] || (Smooth(s, es[0], k) && RunsSmoothly(Next(s, es[0]), es[1..], k))
  }

  /** Some block of entry k asked for byte p. */
  ghost predicate Requested(s: System, k: nat, p: nat) {
    exists i :: 0 <= i < |s.slots| && s.slots[i].home == k && s.slots[i].req.first <= p <= s.slots[i].req.last
  }

  ghost predicate Covers(s: System, k: nat, R: Resource) {
    forall p: nat :: p < |R| ==> Requested(s, k, p)
  }

  /** The closed blocks of entry k were delivered in full. */
  ghost predicate FullySent(s: System, k: nat) {
    forall i :: 0 <= i < |s.slots| && s.slots[i].home == k && s.slots[i].stage != Active ==>
      s.slots[i].req.Valid() && s.slots[i].sent == s.slots[i].req.Len()
  }

  /** A block delivered in full leaves nothing behind. */
  lemma FullClosesClean(x: Slot, c: Container, R: Resource)
    requires SlotGood(x, c, R) && x.sent == x.req.Len()
    ensures ClosesClean(c, x.b)
  {
  }

  lemma SmoothUnhindered(s: System, e: Event, k: nat, R: Resource)
    requires Owned(s) && Content(s, k, R) && Enabled(s, e) && Faithful(s, e, k, R) && Smooth(s, e, k)
    ensures Unhindered(s, e, k)
  {
    hide ClosesClean, SlotGood, EntryGood, TreeGood, Append, NextBytes, Owned;
    if e.Finish? && s.slots[e.slot].home == k < |s.entries| {
      var x := s.slots[e.slot];
      assert BlockOk(x) by { BlockKnown(s, e.slot); }
      AppendGood(x, e.data, e.storeOk, s.entries[k].c, R);
      FullClosesClean(x.(b := Append(x.b, e.data, e.storeOk), sent := x.sent + e.data.Len()), s.entries[k].c, R);
    }
  }

  lemma BlockKnown(s: System, i: nat)
    requires Owned(s) && i < |s.slots|
    ensures BlockOk(s.slots[i])
  {
  }

  lemma SmoothSent(s: System, e: Event, k: nat)
    requires FullySent(s, k) && Enabled(s, e) && Smooth(s, e, k)
    ensures FullySent(Next(s, e), k)
  {
    hide Append, Close, OpenFile, Unhindered;
  }

  lemma {:induction false} RunSmooth(s: System, es: seq<Event>, k: nat, R: Resource)
    requires Owned(s) && Alive(s) && Content(s, k, R) && FullySent(s, k)
    requires Runs(s, es) && Fetches(s, es, k, R) && RunsSmoothly(s, es, k)
    ensures RunsUnhindered(s, es, k) && FullySent(After(s, es), k)
    decreases |es|
  {
    if es != [] {
      hide Owned, Alive, Content, FullySent, Enabled, Faithful, Smooth, Unhindered, Next;
      SmoothUnhindered(s, es[0], k, R);
      SmoothSent(s, es[0], k);
      StepKeeps(s, es[0]);
      StepContent(s, es[0], k, R);
      RunSmooth(Next(s, es[0]), es[1..], k, R);
    }
  }

  /** Order independence.  However the events of several flows interleave: when every block
      of entry k has been closed, each after its whole range, and the blocks cover R, exactly
      one file has been handed out, and it is R byte for byte. */
  lemma OrderIndependence(es: seq<Event>, k: nat, R: Resource)
    requires R != []
    requires Runs(START, es) && Fetches(START, es, k, R) && RunsSmoothly(START, es, k)
    requires k < |After(START, es).entries|
    requires AllClosed(After(START, es), k) && Covers(After(START, es), k, R)
    ensures After(START, es).entries[k].handed == [HandOut(File(|R|, R, true, false), false)]
  {
    hide Owned, Alive, RunsSmoothly, RunsUnhindered, Fetches, Runs, After;
    StartOwned();
    RunSmooth(START, es, k, R);
    var s := After(START, es);
    forall p: nat | p < |R| ensures Delivered(s, k, p) {
      assert Requested(s, k, p);
      var i :| 0 <= i < |s.slots| && s.slots[i].home == k && s.slots[i].req.first <= p <= s.slots[i].req.last;
      assert Brought(s.slots[i], k, p);
    }
    AllDelivered(es, k, R);
  }
}
