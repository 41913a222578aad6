/**
 The frame store of one stream direction as values: creation, in-order removal, the left
 edge that tells the stream engine what data frames still need, and whole runs.
 */
module FrameModel {
  import opened Common

  const STATIC_CNT: nat := 3
  const DYN_FIRST: nat := 8
  const DYN_MAX: nat := 256
  const KEEP: int := 2500
  const U32: nat := 0x1_0000_0000

  /** A frame; `len` is negative while the length is unknown. */
  datatype Frame = Frame(kind: nat, flags: nat, events: seq<nat>, offset: nat, len: int, id: nat, txId: nat,
      inspected: nat)

  /** A zeroed slot. */
  const BLANK: Frame := Frame(0, 0, [], 0, 0, 0, 0, 0)

  datatype Store = Store(frames: seq<Frame>, dynSize: nat, baseId: nat, leftEdgeRel: nat)

  datatype Stream = Stream(base: nat, progress: nat)

  // ----- creation -----

  /** Slots in the dynamic part once one more frame has to fit, unless that is impossible. */
  function Grown(cnt: nat, dynSize: nat, memOk: bool): Option<nat> {
    if cnt < STATIC_CNT + dynSize then Some(dynSize)
    else if dynSize == DYN_MAX || !memOk then None
    else Some(if dynSize == 0 then DYN_FIRST else 2 * dynSize)
  }

  predicate DynSizeOk(n: nat) { n in {0, 8, 16, 32, 64, 128, 256} }

  /** Creation fails in two cases only: all 3 + 256 slots are in use, or memory is needed
      and not to be had. */
  lemma CreationFails(cnt: nat, dynSize: nat, memOk: bool)
    requires DynSizeOk(dynSize) && cnt <= STATIC_CNT + dynSize
    ensures Grown(cnt, dynSize, memOk).None? <==>
            cnt == STATIC_CNT + DYN_MAX || (cnt == STATIC_CNT + dynSize && !memOk)
    ensures Grown(cnt, dynSize, memOk).Some? ==>
            var n := Grown(cnt, dynSize, memOk).value; DynSizeOk(n) && dynSize <= n && cnt < STATIC_CNT + n
  {
  }

  function NewFrame(s: Store, offset: nat, len: int, kind: nat, memOk: bool): Store {
    match Grown(|s.frames|, s.dynSize, memOk)
    case None => s
    case Some(n) =>
      var id := s.baseId + 1;
      s.(frames := s.frames + [BLANK.(offset := offset, len := len, id := id, kind := kind)], dynSize := n,
        baseId := id)
  }

  // ----- removal -----

  /** What a pass over the frames removes: those left behind by a slide, or those that are
      done up to the acknowledged data (all of them at the end of the stream). */
  datatype Pass = Sliding(nextBase: nat) | Pruning(eof: bool, acked: nat)

  predicate Gone(f: Frame, p: Pass) {
    match p
    case Sliding(next) => f.len >= 0 && f.offset + f.len <= next
    case Pruning(eof, acked) => eof || (f.len >= 0 && f.offset + f.len <= acked)
  }

  /** The order-preserving filter. */
  function Keep(s: seq<Frame>, p: Pass): seq<Frame> {
    if s == [] then []
    else
      var last := s[|s| - 1];
      Keep(s[..|s| - 1], p) + if Gone(last, p) then [] else [last]
  }

  predicate Increasing(s: seq<Frame>) {
    forall i, j :: 0 <= i < j < |s| ==> s[i].id < s[j].id
  }

  lemma {:induction false} KeepMembers(s: seq<Frame>, p: Pass, f: Frame)
    ensures f in Keep(s, p) <==> f in s && !Gone(f, p)
  {
    if s != [] {
      var init, last := s[..|s| - 1], s[|s| - 1];
      KeepMembers(init, p, f);
      assert s == init + [last];
    }
  }

  lemma {:induction false} KeepIncreasing(s: seq<Frame>, p: Pass)
    requires Increasing(s)
    ensures Increasing(Keep(s, p)) && |Keep(s, p)| <= |s|
  {
    if s != [] {
      hide Gone;
      var init, last := s[..|s| - 1], s[|s| - 1];
      KeepIncreasing(init, p);
      forall i | 0 <= i < |Keep(init, p)| ensures Keep(init, p)[i].id < last.id {
        KeepMembers(init, p, Keep(init, p)[i]);
      }
    }
  }

  /** The last of frames in id order has the greatest id, and only it is not before it. */
  lemma LastIsGreatest(s: seq<Frame>, f: Frame)
    requires s != [] && Increasing(s)
    ensures f in s ==> f.id <= s[|s| - 1].id
    ensures f in s[..|s| - 1] <==> f in s && f.id < s[|s| - 1].id
  {
    assert s == s[..|s| - 1] + [s[|s| - 1]];
    if f in s {
      var i :| 0 <= i < |s| && s[i] == f;
      assert i < |s| - 1 ==> f in s[..|s| - 1];
    }
    if f in s[..|s| - 1] {
      var i :| 0 <= i < |s| - 1 && s[i] == f;
    }
  }

  /** Frames in id order are determined by which frames they are. */
  lemma {:induction false} SameFrames(s: seq<Frame>, t: seq<Frame>)
    requires Increasing(s) && Increasing(t) && forall f :: f in s <==> f in t
    ensures s == t
  {
    assert |t| > 0 ==> t[0] in s;
    if s != [] {
      assert s[0] in t;
      var a, b := s[|s| - 1], t[|t| - 1];
      assert a in s && b in t;
      LastIsGreatest(s, b);
      LastIsGreatest(t, a);
      var s', t' := s[..|s| - 1], t[..|t| - 1];
      forall f ensures f in s' <==> f in t' {
        LastIsGreatest(s, f);
        LastIsGreatest(t, f);
      }
      SameFrames(s', t');
      assert s == s' + [a] && t == t' + [b];
    }
  }

  /** A pass leaves exactly the frames it does not remove, each unchanged and in order:
      any such sequence is the one it leaves. */
  lemma KeepExactly(s: seq<Frame>, p: Pass, t: seq<Frame>)
    requires Increasing(s)
    ensures t == Keep(s, p) <==> Increasing(t) && forall f :: f in t <==> f in s && !Gone(f, p)
  {
    hide Gone;
    KeepIncreasing(s, p);
    forall f ensures f in Keep(s, p) <==> f in s && !Gone(f, p) {
      KeepMembers(s, p, f);
    }
    if Increasing(t) && forall f :: f in t <==> f in s && !Gone(f, p) {
      SameFrames(t, Keep(s, p));
    }
  }

  // ----- the left edge -----

  /** How far back data is needed for a frame, with the case split of FrameLeftEdge. */
  function FrameLeftEdge(progress: nat, f: Frame): int {
    var data := progress - f.offset;
    if f.len < 0 then
      if data <= KEEP then f.offset else f.offset + (data - KEEP)
    else if f.len <= data then f.offset + data
    else if data < KEEP then f.offset
    else f.offset + (data - KEEP)
  }

  function Min(a: int, b: int): int { if a < b then a else b }

  function Edge(s: seq<Frame>, progress: nat): int {
    if s == [] then progress else Min(Edge(s[..|s| - 1], progress), FrameLeftEdge(progress, s[|s| - 1]))
  }

  /** The edge is the least of the progress and the edges of the frames, and at most 2500
      behind the progress. */
  lemma {:induction false} EdgeIsLeast(s: seq<Frame>, progress: nat)
    ensures progress - KEEP <= Edge(s, progress) <= progress
    ensures forall f :: f in s ==> Edge(s, progress) <= FrameLeftEdge(progress, f)
    ensures Edge(s, progress) == progress || exists f :: f in s && Edge(s, progress) == FrameLeftEdge(progress, f)
  {
    if s != [] {
      var init, last := s[..|s| - 1], s[|s| - 1];
      EdgeIsLeast(init, progress);
      assert s == init + [last];
    }
  }

  // ----- runs -----

  datatype World = World(store: Store, stream: Stream)

  datatype Event =
    | New(offset: nat, len: int, kind: nat, memOk: bool)
    | SetLength(id: nat, len: int)
    | Advance(bytes: nat)
    | Slide(bytes: nat)
    | Prune(eof: bool, acked: nat)

  function WithLength(s: seq<Frame>, id: nat, len: int): seq<Frame> {
    match FirstWithId(s, id)
    case None => s
    case Some(i) => s[i := s[i].(len := len)]
  }

  /** FrameGetById. */
  function FirstWithId(s: seq<Frame>, id: nat): (r: Option<nat>)
    ensures r.Some? ==> r.value < |s| && s[r.value].id == id
    ensures r.None? ==> forall i :: 0 <= i < |s| ==> s[i].id != id
  {
    if s == [] then None
    else if s[0].id == id then Some(0)
    else
      match FirstWithId(s[1..], id)
      case None => None
      case Some(i) => Some(i + 1)
  }

  /** A pass and the recomputed edge, relative to `base` and truncated to 32 bits. */
  function Passed(s: Store, p: Pass, progress: nat, base: nat): Store {
    var kept := Keep(s.frames, p);
    s.(frames := kept, leftEdgeRel := (Edge(kept, progress) - base) % U32)
  }

  function Next(w: World, e: Event): World {
    var World(s, st) := w;
    match e
    case New(offset, len, kind, memOk) => w.(store := NewFrame(s, offset, len, kind, memOk))
    case SetLength(id, len) => w.(store := s.(frames := WithLength(s.frames, id, len)))
    case Advance(n) => w.(stream := st.(progress := st.progress + n))
    case Slide(n) =>
      World(Passed(s, Sliding(st.base + n), st.progress, st.base + n), st.(base := st.base + n))
    case Prune(eof, acked) => w.(store := Passed(s, Pruning(eof, acked), st.progress, st.base))
  }

  function After(w: World, es: seq<Event>): World {
    if es == [] then w else Next(After(w, es[..|es| - 1]), es[|es| - 1])
  }

  const START: World := World(Store([], 0, 0, 0), Stream(0, 0))

  // ----- what every run keeps -----

  ghost predicate StoreOk(s: Store) {
    && DynSizeOk(s.dynSize)
    && |s.frames| <= STATIC_CNT + s.dynSize
    && Increasing(s.frames)
    && forall i :: 0 <= i < |s.frames| ==> s.frames[i].id <= s.baseId
  }

  lemma PassOk(s: Store, p: Pass, progress: nat, base: nat)
    requires StoreOk(s)
    ensures StoreOk(Passed(s, p, progress, base))
  {
    hide Gone, Edge;
    KeepIncreasing(s.frames, p);
    var kept := Keep(s.frames, p);
    forall i | 0 <= i < |kept| ensures kept[i].id <= s.baseId {
      KeepMembers(s.frames, p, kept[i]);
    }
  }

  lemma StepOk(w: World, e: Event)
    requires StoreOk(w.store)
    ensures StoreOk(Next(w, e).store)
  {
    hide Passed;
    match e
    case New(_, _, _, memOk) => CreationFails(|w.store.frames|, w.store.dynSize, memOk);
    case SetLength(_, _) =>
    case Advance(_) =>
    case Slide(n) => PassOk(w.store, Sliding(w.stream.base + n), w.stream.progress, w.stream.base + n);
    case Prune(eof, acked) => PassOk(w.store, Pruning(eof, acked), w.stream.progress, w.stream.base);
  }

  /** In every run ids increase along the store, up to the last one given, and there are at
      most 3 + 256 frames. */
  lemma {:induction false} StoreTheorem(es: seq<Event>)
    ensures StoreOk(After(START, es).store)
    ensures |After(START, es).store.frames| <= STATIC_CNT + DYN_MAX
  {
    if es != [] {
      StoreTheorem(es[..|es| - 1]);
      StepOk(After(START, es[..|es| - 1]), es[|es| - 1]);
    }
  }

  /** The frame is one of these, but for its length. */
  ghost predicate Among(f: Frame, frames: seq<Frame>) {
    exists g :: g in frames && f == g.(len := f.len)
  }

  /** Since the store was `s`, only frames with newer ids have come. */
  ghost predicate Since(s: Store, t: Store) {
    && s.baseId <= t.baseId
    && forall f :: f in t.frames && f.id <= s.baseId ==> Among(f, s.frames)
  }

  lemma StepSince(s: Store, w: World, e: Event)
    requires Since(s, w.store)
    ensures Since(s, Next(w, e).store)
  {
    hide Gone, Edge, Keep;
    var t := Next(w, e).store;
    forall f | f in t.frames && f.id <= s.baseId ensures Among(f, s.frames) {
      match e
      case New(_, _, _, _) =>
      case SetLength(id, len) =>
        if f !in w.store.frames {
          var i := FirstWithId(w.store.frames, id).value;
          assert w.store.frames[i] in w.store.frames;
          var g :| g in s.frames && w.store.frames[i] == g.(len := w.store.frames[i].len);
          assert f == g.(len := f.len);
        }
      case Advance(_) =>
      case Slide(n) => KeepMembers(w.store.frames, Sliding(w.stream.base + n), f);
      case Prune(eof, acked) => KeepMembers(w.store.frames, Pruning(eof, acked), f);
    }
  }

  /** Ids are never reused: a frame whose id had been given by time k was in the store then,
      and but for its length it is still the same. */
  lemma {:induction false} IdsNotReused(es: seq<Event>, k: nat)
    requires k <= |es|
    ensures Since(After(START, es[..k]).store, After(START, es).store)
  {
    hide Next;
    if k == |es| {
      assert es[..k] == es;
      hide After;
      SinceItself(After(START, es).store);
    } else {
      var init := es[..|es| - 1];
      assert init[..k] == es[..k];
      IdsNotReused(init, k);
      StepSince(After(START, es[..k]).store, After(START, init), es[|es| - 1]);
    }
  }

  lemma SinceItself(s: Store)
    ensures Since(s, s)
  {
    forall f | f in s.frames ensures Among(f, s.frames) {
      assert f == f.(len := f.len);
    }
  }

  /** The left edge as a stream offset. */
  function Left(w: World): nat { w.stream.base + w.store.leftEdgeRel }

  /** All data of the frame has been seen. */
  predicate Complete(f: Frame, progress: nat) { 0 <= f.len <= progress - f.offset }

  /** The new length turns a complete frame into one that still needs data. */
  predicate Reopens(f: Frame, len: int, progress: nat) {
    Complete(f, progress) && !Complete(f.(len := len), progress) && f.offset < progress
  }

  /** What the stream engine and the parsers have to respect: frames start at or after the
      progress, no complete frame is reopened (one whose length is unknown never is), a
      slide stays left of the edge, and the data held (progress less base) is counted in
      32 bits. */
  ghost predicate Enabled(w: World, e: Event) {
    match e
    case New(offset, _, _, _) => offset >= w.stream.progress
    case SetLength(id, len) => forall f :: f in w.store.frames && f.id == id ==> !Reopens(f, len, w.stream.progress)
    case Advance(_) => true
    case Slide(n) => n <= w.store.leftEdgeRel && w.stream.progress - (w.stream.base + n) < U32
    case Prune(_, _) => w.stream.progress - w.stream.base < U32
  }

  ghost predicate Runs(w: World, es: seq<Event>) {
    es == [] || (Runs(w, es[..|es| - 1]) && Enabled(After(w, es[..|es| - 1]), es[|es| - 1]))
  }

  ghost predicate Needed(w: World) {
    && Left(w) <= w.stream.progress
    && forall f :: f in w.store.frames ==> Left(w) <= FrameLeftEdge(w.stream.progress, f)
  }

  /** A pass does not move the edge back. */
  lemma PassedEdge(s: seq<Frame>, p: Pass, progress: nat, left: nat)
    requires left <= progress && forall f :: f in s ==> left <= FrameLeftEdge(progress, f)
    ensures left <= Edge(Keep(s, p), progress)
  {
    hide Gone, FrameLeftEdge;
    var kept := Keep(s, p);
    EdgeIsLeast(kept, progress);
    if Edge(kept, progress) != progress {
      var f :| f in kept && Edge(kept, progress) == FrameLeftEdge(progress, f);
      KeepMembers(s, p, f);
    }
  }

  lemma PassNeeded(w: World, p: Pass, base: nat)
    requires Needed(w) && base <= Left(w) && w.stream.progress - base < U32
    ensures var s := Passed(w.store, p, w.stream.progress, base);
            var after := World(s, w.stream.(base := base));
            && Needed(after) && Left(w) <= Left(after)
            && w.stream.progress - KEEP <= Left(after) == Edge(s.frames, w.stream.progress)
  {
    hide Gone, FrameLeftEdge, Keep, Edge;
    var kept := Keep(w.store.frames, p);
    PassedEdge(w.store.frames, p, w.stream.progress, Left(w));
    EdgeIsLeast(kept, w.stream.progress);
  }

  lemma EdgeGrows(p: nat, q: nat, f: Frame)
    requires p <= q
    ensures Min(p, FrameLeftEdge(p, f)) <= FrameLeftEdge(q, f)
  {
  }

  lemma EdgeAfterLength(p: nat, f: Frame, len: int)
    ensures FrameLeftEdge(p, f.(len := len)) < Min(p, FrameLeftEdge(p, f)) <==> Reopens(f, len, p)
  {
  }

  lemma StepNeeded(w: World, e: Event)
    requires Needed(w) && Enabled(w, e)
    ensures Needed(Next(w, e)) && Left(w) <= Left(Next(w, e))
    ensures e.Slide? || e.Prune? ==>
              w.stream.progress - KEEP <= Left(Next(w, e)) == Edge(Next(w, e).store.frames, w.stream.progress)
  {
    hide Passed;
    var next := Next(w, e);
    match e
    case New(_, _, _, _) =>
    case SetLength(id, len) =>
      hide FrameLeftEdge;
      forall f | f in next.store.frames ensures Left(w) <= FrameLeftEdge(w.stream.progress, f) {
        if f !in w.store.frames {
          var i := FirstWithId(w.store.frames, id).value;
          assert w.store.frames[i] in w.store.frames;
          EdgeAfterLength(w.stream.progress, w.store.frames[i], len);
        }
      }
    case Advance(n) =>
      hide FrameLeftEdge;
      forall f | f in w.store.frames ensures Left(w) <= FrameLeftEdge(next.stream.progress, f) {
        EdgeGrows(w.stream.progress, next.stream.progress, f);
      }
    case Slide(n) =>
      PassNeeded(w, Sliding(w.stream.base + n), w.stream.base + n);
    case Prune(eof, acked) =>
      PassNeeded(w, Pruning(eof, acked), w.stream.base);
      assert w.stream.(base := w.stream.base) == w.stream;
  }

  lemma {:induction false} RunNeeded(w: World, es: seq<Event>)
    requires Needed(w) && Runs(w, es)
    ensures Needed(After(w, es)) && Left(w) <= Left(After(w, es))
  {
    if es != [] {
      hide Needed, Enabled, Next;
      RunNeeded(w, es[..|es| - 1]);
      StepNeeded(After(w, es[..|es| - 1]), es[|es| - 1]);
    }
  }

  lemma {:induction false} RunSplit(w: World, es: seq<Event>, k: nat)
    requires k <= |es|
    ensures After(w, es) == After(After(w, es[..k]), es[k..])
    ensures Runs(w, es) ==> Runs(w, es[..k]) && Runs(After(w, es[..k]), es[k..])
  {
    hide Next, Enabled;
    if k == |es| {
      assert es[..k] == es && es[k..] == [];
    } else {
      var init := es[..|es| - 1];
      assert es[k..][..|es[k..]| - 1] == init[k..] && init[..k] == es[..k];
      assert es[k..][|es[k..]| - 1] == es[|es| - 1];
      RunSplit(w, init, k);
    }
  }

  /** Over every run the left edge never goes back, lies between the stream base and the
      progress and never passes what a stored frame still needs; and whenever it has just
      been recomputed it is exactly the least of these, at most 2500 bytes behind the
      progress. */
  lemma LeftEdgeTheorem(es: seq<Event>, k: nat)
    requires Runs(START, es) && k <= |es|
    ensures var w := After(START, es);
            && Left(After(START, es[..k])) <= Left(w)
            && w.stream.base <= Left(w) <= w.stream.progress
            && (forall f :: f in w.store.frames ==> Left(w) <= FrameLeftEdge(w.stream.progress, f))
            && (es != [] && (es[|es| - 1].Slide? || es[|es| - 1].Prune?) ==>
                  w.stream.progress - KEEP <= Left(w) == Edge(w.store.frames, w.stream.progress))
  {
    RunSplit(START, es, k);
    RunNeeded(START, es[..k]);
    RunNeeded(After(START, es[..k]), es[k..]);
    if es != [] {
      RunNeeded(START, es[..|es| - 1]);
      StepNeeded(After(START, es[..|es| - 1]), es[|es| - 1]);
    }
  }

  // ----- what reopening a frame does -----

  /** With the edge at the progress: a new length, once the edge is recomputed, moves it back
      exactly if it reopens the frame. */
  lemma ReopeningMovesBack(w: World, id: nat, len: int)
    requires FirstWithId(w.store.frames, id).Some?
    requires Needed(w) && Left(w) == w.stream.progress && w.stream.progress - w.stream.base < U32
    requires w.stream.base <= w.store.frames[FirstWithId(w.store.frames, id).value].offset
    ensures var f := w.store.frames[FirstWithId(w.store.frames, id).value];
            Left(After(w, [SetLength(id, len), Slide(0)])) < Left(w) <==> Reopens(f, len, w.stream.progress)
  {
    hide Gone, Keep, Edge, FirstWithId, After, Runs;
    var i, p := FirstWithId(w.store.frames, id).value, w.stream.progress;
    var f := w.store.frames[i];
    var g := f.(len := len);
    var mid := Next(w, SetLength(id, len));
    var kept := Keep(mid.store.frames, Sliding(w.stream.base));
    TwoEvents(w, SetLength(id, len), Slide(0));
    EdgeIsLeast(kept, p);
    EdgeAfterLength(p, f, len);
    assert f in w.store.frames && g == mid.store.frames[i];
    if Reopens(f, len, p) {
      StillThere(g, w.stream.base, p);
      KeepMembers(mid.store.frames, Sliding(w.stream.base), g);
      PassedEdge(mid.store.frames, Sliding(w.stream.base), p, w.stream.base);
    } else {
      PassedEdge(mid.store.frames, Sliding(w.stream.base), p, p);
    }
  }

  lemma StillThere(g: Frame, base: nat, p: nat)
    requires !Complete(g, p) && base <= p
    ensures !Gone(g, Sliding(base))
  {
  }

  lemma OneMore(w: World, es: seq<Event>, e: Event)
    ensures After(w, es + [e]) == Next(After(w, es), e)
    ensures Runs(w, es + [e]) <==> Runs(w, es) && Enabled(After(w, es), e)
  {
    hide Next, Enabled;
    assert (es + [e])[..|es + [e]| - 1] == es;
  }

  lemma TwoEvents(w: World, a: Event, b: Event)
    ensures After(w, [a, b]) == Next(Next(w, a), b)
    ensures Runs(w, [a, b]) <==> Enabled(w, a) && Enabled(Next(w, a), b)
  {
    hide Next, Enabled, After, Runs;
    assert [a, b] == [a] + [b] && [a] == [] + [a];
    OneMore(w, [], a);
    OneMore(w, [a], b);
    Nothing(w);
  }

  lemma Nothing(w: World)
    ensures After(w, []) == w && Runs(w, [])
  {
  }

  /** Such a run: a frame of five octets is complete and the edge is past it; then its length
      becomes 20, which reopens it, and the edge goes back from 10 to 0. */
  lemma ReopenedRun()
    ensures var es := [New(0, 5, 0, true), Advance(10), Slide(0)];
            && Runs(START, es) && Left(After(START, es)) == 10
            && !Enabled(After(START, es), SetLength(1, 20))
            && Left(After(After(START, es), [SetLength(1, 20), Slide(0)])) == 0
  {
    hide Keep, Edge, After, Runs;
    var f := BLANK.(offset := 0, len := 5, id := 1, kind := 0);
    var g := f.(len := 20);
    var a, b, c := New(0, 5, 0, true), Advance(10), Slide(0);
    var v, w := World(Store([f], 0, 1, 0), Stream(0, 10)), World(Store([f], 0, 1, 10), Stream(0, 10));
    assert [] + [f] == [f] && [a, b, c] == [a, b] + [c];
    TwoEvents(START, a, b);
    assert Next(Next(START, a), b) == v;
    OneMore(START, [a, b], c);
    OneFrame(f, 0, 10);
    assert Next(v, c) == w;
    TwoEvents(w, SetLength(1, 20), c);
    assert WithLength([f], 1, 20) == [g];
    OneFrame(g, 0, 10);
    assert Reopens(w.store.frames[0], 20, 10);
  }

  lemma OneFrame(f: Frame, base: nat, progress: nat)
    requires !Gone(f, Sliding(base))
    ensures Keep([f], Sliding(base)) == [f]
    ensures Edge([f], progress) == Min(progress, FrameLeftEdge(progress, f))
  {
    assert [f][..0] == [];
  }
}
