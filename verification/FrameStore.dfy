/**
 The frame store as the source keeps it: three static slots and a dynamic part that doubles
 up to 256, compacted in place.
 */
module FrameStore {
  import opened Common
  import opened FrameModel

  class Frames {
    const sframes: array<Frame>
    var dframes: array<Frame>
    var cnt: nat
    var dynSize: nat
    var leftEdgeRel: nat
    var baseId: nat

    /** A null `dframes` is an array of length 0. */
    ghost predicate Valid()
      reads this, sframes, dframes
    {
      && Shaped()
      && forall i :: cnt <= i < |Slots()| ==> Slots()[i] == BLANK
    }

    ghost predicate Shaped()
      reads this
    {
      && sframes != dframes && sframes.Length == STATIC_CNT
      && dframes.Length == dynSize && DynSizeOk(dynSize)
      && cnt <= STATIC_CNT + dynSize
    }

    ghost function Slots(): (s: seq<Frame>)
      requires Shaped()
      reads this, sframes, dframes
      ensures |s| == STATIC_CNT + dynSize
    {
      sframes[..] + dframes[..]
    }

    ghost function View(): Store
      requires Shaped()
      reads this, sframes, dframes
    {
      Store(Slots()[..cnt], dynSize, baseId, leftEdgeRel)
    }

    constructor ()
      ensures Valid() && fresh(sframes) && fresh(dframes) && View() == START.store
    {
      sframes := new Frame[STATIC_CNT](_ => BLANK);
      dframes := new Frame[0];
      cnt, dynSize, leftEdgeRel, baseId := 0, 0, 0, 0;
    }

    function Slot(i: nat): Frame
      requires Shaped() && i < STATIC_CNT + dynSize
      reads this, sframes, dframes
      ensures Slot(i) == Slots()[i]
    {
      if i < STATIC_CNT then sframes[i] else dframes[i - STATIC_CNT]
    }

    method Put(i: nat, f: Frame)
      requires Shaped() && i < STATIC_CNT + dynSize
      modifies sframes, dframes
      ensures Shaped() && Slots() == old(Slots())[i := f]
    {
      if i < STATIC_CNT {
        sframes[i] := f;
      } else {
        dframes[i - STATIC_CNT] := f;
      }
    }

    /** Make room for one more frame. */
    method Grow(memOk: bool) returns (ok: bool)
      requires Valid()
      modifies this
      ensures Valid() && (dframes == old(dframes) || fresh(dframes))
      ensures ok == Grown(old(cnt), old(dynSize), memOk).Some?
      ensures ok ==> Grown(old(cnt), old(dynSize), memOk).value == dynSize && cnt < STATIC_CNT + dynSize
      ensures View() == old(View()).(dynSize := dynSize)
      ensures !ok ==> dynSize == old(dynSize)
    {
      CreationFails(cnt, dynSize, memOk);
      if cnt < STATIC_CNT || cnt - STATIC_CNT < dynSize {
        return true;
      }
      if dynSize == DYN_MAX || !memOk {
        return false;
      }
      var size := if dynSize == 0 then DYN_FIRST else 2 * dynSize;
      var more := new Frame[size](_ => BLANK);
      var k := 0;
      while k < dynSize
        invariant 0 <= k <= dynSize && fresh(more) && more.Length == size
        invariant forall j :: 0 <= j < k ==> more[j] == dframes[j]
        invariant forall j :: k <= j < size ==> more[j] == BLANK
        modifies more
      {
        more[k] := dframes[k];
        k := k + 1;
      }
      dframes, dynSize := more, size;
      assert Slots()[..cnt] == old(Slots())[..cnt];
      ok := true;
    }

    /** FrameNew and the callers that set the type: only four fields of the slot are
        written. */
    method New(offset: nat, len: int, kind: nat, memOk: bool) returns (ok: bool)
      requires Valid()
      modifies this, sframes, dframes
      ensures Valid() && (dframes == old(dframes) || fresh(dframes))
      ensures View() == NewFrame(old(View()), offset, len, kind, memOk)
      ensures ok == Grown(old(cnt), old(dynSize), memOk).Some?
    {
      ok := Grow(memOk);
      if !ok {
        return;
      }
      ghost var before := Slots();
      baseId := baseId + 1;
      Put(cnt, Slot(cnt).(offset := offset, len := len, id := baseId, kind := kind));
      cnt := cnt + 1;
      assert Slots()[..cnt] == before[..cnt - 1] + [Slots()[cnt - 1]];
    }

    method GetById(id: nat) returns (r: Option<nat>)
      requires Valid()
      ensures r == FirstWithId(View().frames, id)
    {
      ghost var all := View().frames;
      var i := 0;
      assert all[0..] == all;
      while i < cnt
        invariant 0 <= i <= cnt
        invariant FirstWithId(all, id) ==
                  match FirstWithId(all[i..], id) case None => None case Some(j) => Some(i + j)
      {
        assert all[i..][0] == Slot(i) && all[i..][1..] == all[i + 1..];
        if Slot(i).id == id {
          return Some(i);
        }
        i := i + 1;
      }
      return None;
    }

    method SetLength(id: nat, len: int)
      requires Valid()
      modifies sframes, dframes
      ensures Valid() && View() == old(View()).(frames := WithLength(old(View()).frames, id, len))
    {
      var r := GetById(id);
      if r.Some? {
        Put(r.value, Slot(r.value).(len := len));
        assert View().frames == old(View().frames)[r.value := old(View().frames)[r.value].(len := len)];
      }
    }

    /** The loop both passes run: frames kept move down to slot `x`, every slot left is
        zeroed, and the edge is taken over the frames kept. */
    method Compact(p: Pass, progress: nat) returns (edge: int)
      requires Valid()
      modifies this`cnt, sframes, dframes
      ensures Valid()
      ensures View() == old(View()).(frames := Keep(old(View()).frames, p))
      ensures edge == Edge(Keep(old(View()).frames, p), progress)
    {
      hide Gone, FrameLeftEdge, Keep, Edge, Compacted;
      ghost var was := Slots();
      var x, i := 0, 0;
      edge := progress;
      CompactStart(was, p, progress);
      while i < cnt
        invariant Shaped() && 0 <= x <= i <= cnt == old(cnt)
        invariant Compacted(Slots(), was, x, i, p, progress, edge)
      {
        var frame := Slot(i);
        CompactTurn(Slots(), was, x, i, p, progress, edge);
        if Gone(frame, p) {
          Put(i, BLANK);
        } else {
          if x != i {
            Put(x, frame);
            Put(i, BLANK);
          }
          edge := Min(edge, FrameLeftEdge(progress, Slot(x)));
          x := x + 1;
        }
        i := i + 1;
      }
      CompactEnd(Slots(), was, x, i, p, progress, edge);
      cnt := x;
    }

    method Slide(stream: Stream, slide: nat)
      requires Valid()
      modifies this`cnt, this`leftEdgeRel, sframes, dframes
      ensures Valid()
      ensures View() == Passed(old(View()), Sliding(stream.base + slide), stream.progress, stream.base + slide)
    {
      hide Keep, Edge;
      var edge := Compact(Sliding(stream.base + slide), stream.progress);
      leftEdgeRel := (edge - (stream.base + slide)) % U32;
    }

    method Prune(stream: Stream, eof: bool, acked: nat)
      requires Valid()
      modifies this`cnt, this`leftEdgeRel, sframes, dframes
      ensures Valid()
      ensures View() == Passed(old(View()), Pruning(eof, acked), stream.progress, stream.base)
    {
      hide Keep, Edge;
      var edge := Compact(Pruning(eof, acked), stream.progress);
      leftEdgeRel := (edge - stream.base) % U32;
    }
  }

  /** `i` slots are done, the frames kept stand in the first `x`. */
  ghost predicate Compacted(now: seq<Frame>, was: seq<Frame>, x: nat, i: nat, p: Pass, progress: nat, edge: int) {
    && |now| == |was| && x <= i <= |was|
    && now[..x] == Keep(was[..i], p)
    && (forall j :: x <= j < i ==> now[j] == BLANK)
    && (forall j :: i <= j < |was| ==> now[j] == was[j])
    && edge == Edge(Keep(was[..i], p), progress)
  }

  lemma CompactStart(s: seq<Frame>, p: Pass, progress: nat)
    ensures Compacted(s, s, 0, 0, p, progress, progress)
  {
    assert s[..0] == [];
  }

  lemma CompactTurn(now: seq<Frame>, was: seq<Frame>, x: nat, i: nat, p: Pass, progress: nat, edge: int)
    requires Compacted(now, was, x, i, p, progress, edge) && i < |was|
    ensures now[i] == was[i] && x < |now|
    ensures Gone(was[i], p) ==> Compacted(now[i := BLANK], was, x, i + 1, p, progress, edge)
    ensures !Gone(was[i], p) ==>
              var next := if x == i then now else now[x := was[i]][i := BLANK];
              next[x] == was[i] && Compacted(next, was, x + 1, i + 1, p, progress,
                Min(edge, FrameLeftEdge(progress, was[i])))
  {
    hide Gone, FrameLeftEdge, Keep, Edge;
    KeepStep(was, i, p, progress);
    if Gone(was[i], p) {
      assert now[i := BLANK][..x] == now[..x];
    } else {
      var next := if x == i then now else now[x := was[i]][i := BLANK];
      assert next[..x + 1] == now[..x] + [was[i]];
    }
  }

  lemma CompactEnd(now: seq<Frame>, was: seq<Frame>, x: nat, cnt: nat, p: Pass, progress: nat, edge: int)
    requires Compacted(now, was, x, cnt, p, progress, edge)
    requires forall j :: cnt <= j < |was| ==> was[j] == BLANK
    ensures now[..x] == Keep(was[..cnt], p) && edge == Edge(now[..x], progress)
    ensures forall j :: x <= j < |now| ==> now[j] == BLANK
  {
    hide Keep, Edge;
  }

  lemma KeepStep(s: seq<Frame>, i: nat, p: Pass, progress: nat)
    requires i < |s|
    ensures Keep(s[..i + 1], p) == Keep(s[..i], p) + if Gone(s[i], p) then [] else [s[i]]
    ensures Edge(Keep(s[..i + 1], p), progress) ==
            if Gone(s[i], p) then Edge(Keep(s[..i], p), progress)
            else Min(Edge(Keep(s[..i], p), progress), FrameLeftEdge(progress, s[i]))
  {
    hide Gone, FrameLeftEdge;
    var k := Keep(s[..i], p);
    assert s[..i + 1][..i] == s[..i];
    assert (k + [s[i]])[..|k|] == k;
    assert k + [] == k;
  }
}
