/**
 What the reassembled bytes are: with gap-free delivery of one resource the file is at all
 times a prefix of that resource, whatever is delivered, skipped, refused or out of memory,
 and at most one file is ever handed out.
 */
module RangeContent {
  import opened Common
  import opened RangeModel
  import opened RangeOwnership

  type Resource = seq<Byte>

  // ----- runs that fetch one resource through entry k -----

  /** The bytes are the next ones of the requested slice of R. */
  predicate NextBytes(d: Chunk, r: Request, sent: nat, R: Resource) {
    && d.Data?
    && r.Valid() && r.total == |R|
    && sent + |d.bytes| <= r.Len()
    && d.bytes == R[r.first + sent..r.first + sent + |d.bytes|]
  }

  /** Events on entry k deliver R; events on other entries are free. */
  predicate Faithful(s: System, e: Event, k: nat, R: Resource) {
    match e
    case Open(j, r, _, d, _) => j == k ==> NextBytes(d, r, 0, R)
    case Deliver(i, d, _) => i < |s.slots| && s.slots[i].home == k ==> NextBytes(d, s.slots[i].req, s.slots[i].sent, R)
    case Finish(i, d, _, _) =>
      i < |s.slots| && s.slots[i].home == k ==> NextBytes(d, s.slots[i].req, s.slots[i].sent, R)
    case _ => true
  }

  ghost predicate Fetches(s: System, es: seq<Event>, k: nat, R: Resource)
    requires Runs(s, es)
    decreases |es|
  {
    es == [] || (Faithful(s, es[0], k, R) && Fetches(Next(s, es[0]), es[1..], k, R))
  }

  // ----- the invariant -----

  /** The bytes kept are a prefix of R, and all bytes offered unless an append failed. */
  predicate FileGood(f: File, R: Resource) {
    && !f.gapped
    && |f.stored| <= f.size <= |R|
    && f.stored == R[..|f.stored|]
    && (f.writable ==> |f.stored| == f.size)
  }

  predicate FragmentGood(x: Fragment, R: Resource) {
    && x.gap == 0
    && x.start + x.buflen <= |R|
    && |x.written| <= x.buflen
    && x.written == R[x.start..x.End()]
  }

  ghost predicate TreeGood(t: seq<Fragment>, R: Resource) {
    forall x :: x in t ==> FragmentGood(x, R)
  }

  /** A block of entry k: its buffer holds what was delivered, and the file it owns stands
      where skipping and delivery have brought it. */
  predicate SlotGood(x: Slot, c: Container, R: Resource) {
    && x.req.Valid() && x.req.total == |R| && x.sent <= x.req.Len()
    && c.totalsize == |R|
    && (x.b.current.Some? ==>
          var y := x.b.current.value;
          FragmentGood(y, R) && y.start == x.req.first && y.buflen == x.req.Len() && |y.written| == x.sent)
    && (x.b.files.OneFile? ==>
          && FileGood(x.b.files.file, R)
          && c.lastsize <= x.req.last
          && c.lastsize <= x.b.files.file.size
          && if x.b.toskip > 0 then x.b.files.file.size == c.lastsize == x.req.first + x.sent + x.b.toskip
             else x.b.files.file.size == x.req.first + x.sent)
  }

  /** A live entry before and after its file was handed out. */
  predicate EntryGood(en: Entry, R: Resource) {
    && en.c.totalsize <= |R|
    && en.c.lastsize <= |R|
    && (en.live && en.handed == [] ==>
          && (en.c.files.OneFile? ==> FileGood(en.c.files.file, R) && en.c.files.file.size == en.c.lastsize)
          && (en.c.files.EmptyFiles? ==> en.c.lastsize == 0))
    && |en.handed| <= 1
    && (en.handed != [] ==>
          && FileGood(en.handed[0].file, R)
          && (en.handed[0].truncated || en.handed[0].file.size == |R|)
          && (en.live ==> !en.c.files.NoFiles?)
          && (en.c.lastsize == |R| || (en.c.error && (en.live ==> en.c.files.EmptyFiles?))))
  }

  ghost predicate Content(s: System, k: nat, R: Resource) {
    k < |s.entries| ==>
      && EntryGood(s.entries[k], R)
      && TreeGood(s.entries[k].c.tree, R)
      && forall i :: 0 <= i < |s.slots| && s.slots[i].home == k ==> SlotGood(s.slots[i], s.entries[k].c, R)
  }

  // ----- files and fragments -----

  /** Appending the bytes of R at the file's size keeps the file a prefix of R. */
  lemma FileAppendGood(f: File, bytes: seq<Byte>, ok: bool, R: Resource)
    requires FileGood(f, R) && f.size + |bytes| <= |R| && bytes == R[f.size..f.size + |bytes|]
    ensures var a := FileAppend(f, Data(bytes), ok);
            && FileGood(a.file, R)
            && a.file.size == f.size + |bytes|
            && (a.ok <==> f.writable && ok && bytes != [])
            && (a.file.writable <==> f.writable && (ok || bytes == []))
  {
    if f.writable && ok && bytes != [] {
      assert f.stored + bytes == R[..f.size + |bytes|];
    }
  }

  lemma AppendFragmentGood(f: File, x: Fragment, ok: bool, R: Resource)
    requires FileGood(f, R) && FragmentGood(x, R) && x.start <= f.size
    ensures var a := AppendFragment(f, x, ok);
            && FileGood(a.file, R)
            && a.file.size >= f.size
            && (a.ok ==> a.file.size >= x.End())
            && (f.writable && ok && 0 < |x.written| <= U32_MAX ==> a.ok && a.file.writable)
  {
    var overlap := f.size - x.start;
    if overlap == 0 || overlap < |x.written| {
      if |x.written| - overlap <= U32_MAX {
        assert x.written[overlap..] == R[f.size..f.size + |x.written| - overlap];
        FileAppendGood(f, x.written[overlap..], ok, R);
      }
    }
  }

  /** The merge loop keeps the file a prefix, drops only fragments the file now contains,
      and when it meets no error leaves only fragments strictly beyond the file. */
  lemma {:induction false} MergeGood(t: seq<Fragment>, f: File, fails: seq<bool>, R: Resource)
    requires FileGood(f, R) && TreeGood(t, R) && Sorted(t)
    ensures var m := Merge(t, f, fails);
            && FileGood(m.file, R)
            && m.file.size >= f.size
            && TreeGood(m.tree, R)
            && (forall x :: x in t ==> x in m.tree || x.End() <= m.file.size)
            && (m.ok ==> forall x :: x in m.tree ==> x.start > m.file.size)
  {
    if t == [] {
    } else if f.size < t[0].start {
      forall x | x in t ensures x.start > f.size {
        var i :| 0 <= i < |t| && t[i] == x;
        if i > 0 { assert Compare(t[0], t[i]) < 0; }
      }
    } else {
      AppendFragmentGood(f, t[0], StoreOk(fails), R);
      var a := AppendFragment(f, t[0], StoreOk(fails));
      if a.ok {
        MergeGood(t[1..], a.file, Rest(fails), R);
      }
    }
  }

  // ----- steps -----

  lemma AppendGood(x: Slot, d: Chunk, ok: bool, c: Container, R: Resource)
    requires BlockOk(x) && x.stage == Active && SlotGood(x, c, R) && NextBytes(d, x.req, x.sent, R)
    ensures SlotGood(x.(b := Append(x.b, d, ok), sent := x.sent + d.Len()), c, R)
  {
    if x.b.files.OneFile? && x.b.toskip < |d.bytes| {
      var rest := d.bytes[x.b.toskip..];
      var f := x.b.files.file;
      assert rest == R[f.size..f.size + |rest|];
      FileAppendGood(f, rest, ok, R);
      if x.b.toskip == 0 { assert rest == d.bytes; }
    } else if x.b.current.Some? {
      var y := x.b.current.value;
      assert y.written + d.bytes == R[y.start..y.start + x.sent + |d.bytes|];
    }
  }

  /** At most one block holds the file, and none while the entry does. */
  lemma SoleHolder(s: System, k: nat)
    requires Owned(s) && k < |s.entries|
    ensures !s.entries[k].c.files.NoFiles? ==> forall i :: 0 <= i < |s.slots| && s.slots[i].home == k ==>
              s.slots[i].b.files.NoFiles?
    ensures forall i, j :: 0 <= i < |s.slots| && 0 <= j < |s.slots| && i != j && s.slots[i].home == k == s.slots[j].home
                ==> s.slots[i].b.files.NoFiles? || s.slots[j].b.files.NoFiles?
  {
    assert EntryOk(s, k);
    forall i | 0 <= i < |s.slots| && s.slots[i].home == k && !s.slots[i].b.files.NoFiles?
      ensures s.entries[k].c.files.NoFiles?
    {
      TotalBounds(s.slots, i, HoldsFiles(k));
    }
    forall i, j | 0 <= i < |s.slots| && 0 <= j < |s.slots| && i != j && s.slots[i].home == k == s.slots[j].home
      ensures s.slots[i].b.files.NoFiles? || s.slots[j].b.files.NoFiles?
    {
      var x := s.slots[i].(b := NEW_BLOCK);
      TotalUpdate(s.slots, i, x, HoldsFiles(k));
      TotalBounds(s.slots[i := x], j, HoldsFiles(k));
    }
  }

  lemma MergeIntoGood(en: Entry, c: Container, b: Block, memuse: int, fails: seq<bool>, R: Resource)
    requires c.files.OneFile? && FileGood(c.files.file, R) && TreeGood(c.tree, R) && Sorted(c.tree)
    requires c.totalsize == |R| && c.lastsize <= c.files.file.size && en.handed == [] && en.live
    ensures var r := MergeInto(c, b, memuse, fails);
            && EntryGood(en.Closed(r), R)
            && TreeGood(r.c.tree, R)
            && r.c.totalsize == |R|
  {
    MergeGood(c.tree, c.files.file, fails, R);
  }

  lemma InsertGood(t: seq<Fragment>, x: Fragment, R: Resource)
    requires TreeGood(t, R) && FragmentGood(x, R)
    ensures TreeGood(Insert(t, x), R)
  {
    InsertAdds(t, x);
    forall y | y in Insert(t, x) ensures FragmentGood(y, R) {
      assert y in multiset(Insert(t, x));
      assert y in t || y == x;
    }
  }

  /** Closing one block of entry k, seen from the entry. */
  lemma CloseGood(en: Entry, x: Slot, memuse: int, fails: seq<bool>, R: Resource)
    requires en.live && EntryGood(en, R) && TreeGood(en.c.tree, R) && Sorted(en.c.tree)
    requires BlockOk(x) && x.stage == Active && x.b.attached && SlotGood(x, en.c, R)
    requires x.b.files.OneFile? ==> en.c.files.NoFiles?
    ensures CloseSafe(x.b)
    ensures var r := Close(en.c, x.b, memuse, fails);
            && EntryGood(en.Closed(r), R)
            && TreeGood(r.c.tree, R)
            && r.c.totalsize == |R|
            && (r.c.lastsize != en.c.lastsize ==> !r.c.files.NoFiles?)
  {
    if x.b.current.Some? {
      var y := x.b.current.value;
      if en.c.lastsize < y.End() && !Holds(en.c.tree, y) {
        InsertGood(en.c.tree, y, R);
        InsertSorted(en.c.tree, y);
        if en.c.files.OneFile? {
          MergeIntoGood(en, en.c.(tree := Insert(en.c.tree, y)), x.b.(current := None), memuse, fails, R);
        }
      }
    } else if x.b.toskip == 0 {
      MergeIntoGood(en, en.c.(files := x.b.files), x.b.(files := NoFiles), memuse, fails, R);
    }
  }

  lemma DeliverContent(s: System, i: nat, d: Chunk, ok: bool, k: nat, R: Resource)
    requires Owned(s) && Content(s, k, R) && i < |s.slots| && s.slots[i].stage == Active
    requires s.slots[i].home == k ==> NextBytes(d, s.slots[i].req, s.slots[i].sent, R)
    ensures Content(NextDeliver(s, i, d, ok), k, R)
  {
    if s.slots[i].home == k {
      AppendGood(s.slots[i], d, ok, s.entries[k].c, R);
    }
  }

  /** A closed block holds nothing more. */
  lemma SlotGoodDone(x: Slot, b: Block, c: Container, c': Container, R: Resource)
    requires SlotGood(x, c, R) && b.current.None? && b.files.NoFiles? && c'.totalsize == |R|
    ensures SlotGood(x.(b := b, stage := Finished), c', R)
  {
  }

  /** Other blocks do not mind a moved edge if they hold no file. */
  lemma SlotGoodMoved(x: Slot, c: Container, c': Container, R: Resource)
    requires SlotGood(x, c, R) && c'.totalsize == |R| && (c'.lastsize == c.lastsize || x.b.files.NoFiles?)
    ensures SlotGood(x, c', R)
  {
  }

  lemma CloseContent(s: System, i: nat, fails: seq<bool>, k: nat, R: Resource)
    requires Owned(s) && Alive(s) && Content(s, k, R) && i < |s.slots| && s.slots[i].stage == Active
    ensures Content(NextClose(s, i, fails), k, R)
  {
    hide Owned, Alive, SlotGood, EntryGood, TreeGood, Close, BlockOk, Sorted;
    var x := s.slots[i];
    if x.b.attached {
      CloseReady(s, i);
      CloseKeeps(s.entries[x.home].c, x, s.memuse, fails);
      NextCloseIs(s, i, fails);
      if x.home == k {
        CloseOwnContent(s, i, fails, k, R);
      }
    } else if x.home == k && k < |s.entries| {
      SlotGoodStage(x, s.entries[k].c, R);
    }
  }

  lemma SlotGoodStage(x: Slot, c: Container, R: Resource)
    requires SlotGood(x, c, R)
    ensures SlotGood(x.(stage := Finished), c, R)
  {
  }

  lemma CloseOwnContent(s: System, i: nat, fails: seq<bool>, k: nat, R: Resource)
    requires Owned(s) && Alive(s) && Content(s, k, R) && i < |s.slots| && s.slots[i].stage == Active
    requires s.slots[i].b.attached && s.slots[i].home == k
    ensures Content(NextClose(s, i, fails), k, R)
  {
    hide Owned, Alive, SlotGood, EntryGood, TreeGood, Close, BlockOk, Sorted, NextClose, CloseSafe;
    var x := s.slots[i];
    var s' := NextClose(s, i, fails);
    CloseReady(s, i);
    CloseKeeps(s.entries[k].c, x, s.memuse, fails);
    CloseGood(s.entries[k], x, s.memuse, fails, R);
    NextCloseIs(s, i, fails);
    CloseStepKeeps(s, i, fails);
    SoleHolder(s', k);
    forall j | 0 <= j < |s'.slots| && s'.slots[j].home == k ensures SlotGood(s'.slots[j], s'.entries[k].c, R) {
      if j == i {
        SlotGoodDone(x, s'.slots[i].b, s.entries[k].c, s'.entries[k].c, R);
      } else {
        SlotGoodMoved(s.slots[j], s.entries[k].c, s'.entries[k].c, R);
      }
    }
  }

  /** Opening: the entry lends its file only at the position the file has reached. */
  lemma OpenAuxGood(en: Entry, memuse: int, r: Request, env: OpenEnv, R: Resource)
    requires en.live && !en.c.error && EntryGood(en, R) && r.Valid() && r.total == |R|
    ensures var o := OpenAux(en.c, memuse, r, env);
            && EntryGood(en.(c := o.c), R)
            && o.c.lastsize == en.c.lastsize
            && (en.c.totalsize == |R| ==> o.c.totalsize == |R|)
            && (o.block.Some? ==> SlotGood(Slot(0, r, 0, o.block.value, Active), o.c, R))
  {
    if en.c.files.EmptyFiles? { assert NEW_FILE.stored == R[..0]; }
    assert [] == R[r.first..r.first];
  }

  /** Opening and appending the first data, seen from the entry. */
  lemma OpenFileGood(en: Entry, memuse: int, r: Request, env: OpenEnv, d: Chunk, ok: bool, k: nat, R: Resource)
    requires en.live && !en.c.error && EntryGood(en, R) && NextBytes(d, r, 0, R)
    ensures var o := OpenFile(en.c, memuse, r, env, d, ok);
            && EntryGood(en.(c := o.c), R)
            && o.c.tree == en.c.tree && o.c.lastsize == en.c.lastsize
            && (en.c.totalsize == |R| ==> o.c.totalsize == |R|)
            && (o.block.Some? ==> SlotGood(Slot(k, r, d.Len(), o.block.value, Active), o.c, R))
  {
    OpenAuxGood(en, memuse, r, env, R);
    OpenAuxKeeps(en.c, memuse, r, env);
    hide OpenAux, EntryGood;
    var o := OpenAux(en.c, memuse, r, env);
    if o.block.Some? {
      AppendGood(Slot(k, r, 0, o.block.value, Active), d, ok, o.c, R);
    }
  }

  /** Only the two sizes of the container matter to a block. */
  lemma SlotGoodFrame(x: Slot, c: Container, c': Container, R: Resource)
    requires SlotGood(x, c, R) && c'.lastsize == c.lastsize && c'.totalsize == c.totalsize
    ensures SlotGood(x, c', R)
  {
  }

  lemma SlotGoodTotal(x: Slot, c: Container, R: Resource)
    requires SlotGood(x, c, R)
    ensures c.totalsize == |R|
  {
  }

  lemma OpenContent(s: System, j: nat, r: Request, env: OpenEnv, d: Chunk, ok: bool, k: nat, R: Resource)
    requires Content(s, k, R)
    requires j < |s.entries| && s.entries[j].live && !s.entries[j].c.error && r.Valid()
    requires j == k ==> NextBytes(d, r, 0, R)
    ensures Content(NextOpen(s, j, r, env, d, ok), k, R)
  {
    hide SlotGood, EntryGood, OpenFile, TreeGood;
    if j == k {
      OpenFileGood(s.entries[k], s.memuse, r, env, d, ok, k, R);
      EntryGoodFrame(s.entries[k].(c := OpenFile(s.entries[k].c, s.memuse, r, env, d, ok).c), s, j, r, env, d, ok, R);
      var s' := NextOpen(s, j, r, env, d, ok);
      forall i | 0 <= i < |s'.slots| && s'.slots[i].home == k ensures SlotGood(s'.slots[i], s'.entries[k].c, R) {
        if i < |s.slots| {
          assert s'.slots[i] == s.slots[i];
          SlotGoodTotal(s.slots[i], s.entries[k].c, R);
          SlotGoodFrame(s.slots[i], s.entries[k].c, s'.entries[k].c, R);
        }
      }
    }
  }

  /** The use count does not matter to the content. */
  lemma EntryGoodFrame(en: Entry, s: System, k: nat, r: Request, env: OpenEnv, d: Chunk, ok: bool, R: Resource)
    requires k < |s.entries| && r.Valid() && EntryGood(en, R)
    requires en == s.entries[k].(c := OpenFile(s.entries[k].c, s.memuse, r, env, d, ok).c)
    ensures EntryGood(NextOpen(s, k, r, env, d, ok).entries[k], R)
  {
    hide OpenFile;
  }

  lemma ReleaseContent(s: System, i: nat, k: nat, R: Resource)
    requires Content(s, k, R) && i < |s.slots|
    ensures Content(NextRelease(s, i), k, R)
  {
  }

  lemma EvictContent(s: System, j: nat, k: nat, R: Resource)
    requires Content(s, k, R) && j < |s.entries|
    ensures Content(NextEvict(s, j), k, R)
  {
  }

  lemma CreateContent(s: System, k: nat, R: Resource)
    requires Owned(s) && Content(s, k, R)
    ensures Content(Next(s, Create), k, R)
  {
    forall i | 0 <= i < |s.slots| ensures s.slots[i].home < |s.entries| {
      SlotWithin(s, i);
    }
  }

  /** The step theorem for the content of entry k. */
  lemma StepContent(s: System, e: Event, k: nat, R: Resource)
    requires Owned(s) && Alive(s) && Content(s, k, R) && Enabled(s, e) && Faithful(s, e, k, R)
    ensures Content(Next(s, e), k, R)
  {
    hide Owned, Alive, Content, NextBytes, NextOpen, NextDeliver, NextClose, NextRelease, NextEvict;
    match e
    case Create => CreateContent(s, k, R);
    case Open(j, r, env, d, ok) => OpenContent(s, j, r, env, d, ok, k, R);
    case Deliver(i, d, ok) => DeliverContent(s, i, d, ok, k, R);
    case Finish(i, d, ok, fails) =>
      DeliverKeeps(s, i, d, ok);
      DeliverContent(s, i, d, ok, k, R);
      DeliverStage(s, i, d, ok);
      CloseContent(NextDeliver(s, i, d, ok), i, fails, k, R);
    case Release(i) => ReleaseContent(s, i, k, R);
    case Evict(j) => EvictContent(s, j, k, R);
  }

  lemma DeliverStage(s: System, i: nat, d: Chunk, ok: bool)
    requires i < |s.slots|
    ensures var s' := NextDeliver(s, i, d, ok);
            |s'.slots| == |s.slots| && s'.slots[i].stage == s.slots[i].stage && s'.slots[i].home == s.slots[i].home
            && s'.slots[i].req == s.slots[i].req && s'.slots[i].sent == s.slots[i].sent + d.Len()
            && (Alive(s) ==> Alive(s'))
  {
  }

  lemma {:induction false} RunContent(s: System, es: seq<Event>, k: nat, R: Resource)
    requires Owned(s) && Alive(s) && Content(s, k, R) && Runs(s, es) && Fetches(s, es, k, R)
    ensures Owned(After(s, es)) && Alive(After(s, es)) && Content(After(s, es), k, R)
    decreases |es|
  {
    if es != [] {
      hide Owned, Alive, Content, Enabled, Faithful, Next;
      StepKeeps(s, es[0]);
      StepContent(s, es[0], k, R);
      RunContent(Next(s, es[0]), es[1..], k, R);
    }
  }

  /** Over every run that fetches R through entry k, with any delivery, refusal, memcap or
      allocation failure: the file, wherever it is held, is a prefix of R; its size is
      `lastsize` while the entry holds it; and at most one file, again a prefix, is ever
      handed out, complete in size unless the merge met an error. */
  lemma PrefixTheorem(es: seq<Event>, k: nat, R: Resource)
    requires Runs(START, es) && Fetches(START, es, k, R)
    requires k < |After(START, es).entries|
    ensures var s := After(START, es); var en := s.entries[k];
            && (en.live && en.handed == [] && en.c.files.OneFile? ==>
                  en.c.files.file.stored <= R && en.c.files.file.size == en.c.lastsize)
            && (forall i :: 0 <= i < |s.slots| && s.slots[i].home == k && s.slots[i].b.files.OneFile? ==>
                  s.slots[i].b.files.file.stored <= R)
            && |en.handed| <= 1
            && (forall h :: h in en.handed ==> h.file.stored <= R && (h.truncated || h.file.size == |R|))
  {
    hide Owned, Alive, Runs, Fetches, After;
    StartOwned();
    RunContent(START, es, k, R);
  }

  lemma StartOwned()
    ensures Owned(START) && Alive(START)
  {
  }
}
