/**
 What the two closes that leave something behind lead to: two runs without any refusal in
 which every byte of the resource is delivered and every block closed, and the file is short.
 */
module RangeLeftovers {
  import opened Common
  import opened RangeModel
  import opened RangeContent
  import opened RangeOrder

  const GRANTED := OpenEnv(true, true, true, true, true)

  /** Requests for the first byte of a two-byte resource, the second and both. */
  const FIRST := Request(0, 0, 2)
  const SECOND := Request(1, 1, 2)
  const BOTH := Request(0, 1, 2)

  function Opening(r: Request, bytes: seq<Byte>): Event { Open(0, r, GRANTED, Data(bytes), true) }

  function Closing(i: nat): Event { Finish(i, Data([]), true, []) }

  /** A system with one entry. */
  function Single(c: Container, useCnt: nat, handed: seq<HandOut>, slots: seq<Slot>, memuse: int): System {
    System([Entry(c, useCnt, true, handed)], slots, memuse, false)
  }

  // ----- steps of such a system -----

  /** A run of events all of which deliver R, and where it leads. */
  ghost predicate Leads(s: System, es: seq<Event>, end: System, R: Resource) {
    Runs(s, es) && Fetches(s, es, 0, R) && After(s, es) == end
  }

  /** One more event in front of a run. */
  lemma Before(s: System, e: Event, t: System, es: seq<Event>, end: System, R: Resource)
    requires Enabled(s, e) && Faithful(s, e, 0, R) && Next(s, e) == t && Leads(t, es, end, R)
    ensures Leads(s, [e] + es, end, R)
  {
    hide Enabled, Faithful, Next;
    assert ([e] + es)[1..] == es;
  }

  lemma NoEvents(s: System, R: Resource)
    ensures Leads(s, [], s, R)
  {
  }

  lemma Opens(s: System, r: Request, bytes: seq<Byte>, o: Opened, all: seq<Event>, t: System, es: seq<Event>,
              end: System, R: Resource)
    requires |s.entries| == 1 && NextBytes(Data(bytes), r, 0, R)
    requires var en := s.entries[0];
             && en.live && !en.c.error
             && o == OpenFile(en.c, s.memuse, r, GRANTED, Data(bytes), true)
             && o.block.Some? && o.block.value.attached
             && t.entries == [en.(c := o.c, useCnt := en.useCnt + 1)]
             && t.slots == s.slots + [Slot(0, r, |bytes|, o.block.value, Active)]
             && t.memuse == o.memuse && t.crashed == s.crashed
    requires Leads(t, es, end, R) && all == [Opening(r, bytes)] + es
    ensures Leads(s, all, end, R)
  {
    assert r.Valid();
    hide OpenFile, NextBytes, Leads;
    Before(s, Opening(r, bytes), t, es, end, R);
  }

  lemma Closes(s: System, i: nat, r: ClosedRange, all: seq<Event>, t: System, es: seq<Event>, end: System, R: Resource)
    requires |s.entries| == 1 && i < |s.slots| && s.slots[i].home == 0
    requires var en, x := s.entries[0], s.slots[i];
             && en.live && en.useCnt > 0 && x.stage == Active && x.b.attached
             && NextBytes(Data([]), x.req, x.sent, R)
             && CloseSafe(x.b) && r == Close(en.c, x.b, s.memuse, [])
             && t.entries == [en.Closed(r)]
             && t.slots == s.slots[i := x.(b := r.b, stage := Finished)]
             && t.memuse == r.memuse && t.crashed == s.crashed
    requires Leads(t, es, end, R) && all == [Closing(i)] + es
    ensures Leads(s, all, end, R)
  {
    hide Close, CloseSafe, NextBytes, Leads;
    assert NextDeliver(s, i, Data([]), true) == s by {
      assert s.slots[i := s.slots[i]] == s.slots;
    }
    Before(s, Closing(i), t, es, end, R);
  }

  // ----- the blocks -----

  const EMPTY_BUFFER := Fragment(1, 1, [], 0)

  function Buffer(x: Byte): Fragment { Fragment(1, 1, [x], 0) }

  function Parking(y: Fragment): Block { NEW_BLOCK.(attached := true, current := Some(y)) }

  function Holding(x: Byte, toskip: nat): Block {
    Block(toskip, None, true, OneFile(File(1, [x], true, false)))
  }

  const DONE := NEW_BLOCK.(attached := true)

  const NEW_FILE_HELD := Container(OneFile(NEW_FILE), [], 0, 2, false)
  const NEW_FILE_LENT := NEW_FILE_HELD.(files := NoFiles)

  /** A block for bytes the file has not reached, or cannot be given, gets a buffer. */
  lemma OpensAhead(c: Container, memuse: int, r: Request, bytes: seq<Byte>)
    requires r.Valid() && r.first >= c.lastsize && (r.first == c.lastsize ==> c.files.NoFiles?)
    requires |bytes| <= r.Len() && c.totalsize <= r.total
    ensures OpenFile(c, memuse, r, GRANTED, Data(bytes), true) ==
            Opened(c.(files := if c.files.EmptyFiles? then OneFile(NEW_FILE) else c.files, totalsize := r.total),
                   memuse + r.Len(), Some(Parking(Fragment(r.first, r.Len(), bytes, 0))))
  {
    assert [] + bytes == bytes;
  }

  /** A block that starts where a new file is gets the file. */
  lemma OpensFirst(c: Container, memuse: int, x: Byte)
    requires c.lastsize == 0 && (c.files.EmptyFiles? || c.files == OneFile(NEW_FILE)) && c.totalsize <= 2
    ensures OpenFile(c, memuse, FIRST, GRANTED, Data([x]), true) ==
            Opened(c.(files := NoFiles, totalsize := 2), memuse, Some(Holding(x, 0)))
  {
    assert [] + [x] == [x];
  }

  // ----- an empty buffer is parked ahead of the file -----

  lemma EmptyOpens(b: Byte)
    ensures OpenFile(NEW_CONTAINER, 0, SECOND, GRANTED, Data([]), true) ==
            Opened(NEW_FILE_HELD, 1, Some(Parking(EMPTY_BUFFER)))
    ensures OpenFile(NEW_FILE_HELD, 1, SECOND, GRANTED, Data([b]), true) ==
            Opened(NEW_FILE_HELD, 2, Some(Parking(Buffer(b))))
  {
    OpensAhead(NEW_CONTAINER, 0, SECOND, []);
    OpensAhead(NEW_FILE_HELD, 1, SECOND, [b]);
  }

  lemma EmptyCloses(a: Byte, b: Byte)
    ensures Close(NEW_FILE_LENT, Parking(EMPTY_BUFFER), 2, []) ==
            ClosedRange(NEW_FILE_LENT.(tree := [EMPTY_BUFFER]), DONE, 2, None)
    ensures Close(NEW_FILE_LENT.(tree := [EMPTY_BUFFER]), Parking(Buffer(b)), 2, []) ==
            ClosedRange(NEW_FILE_LENT.(tree := [EMPTY_BUFFER, Buffer(b)]), DONE, 2, None)
    ensures Close(NEW_FILE_LENT.(tree := [EMPTY_BUFFER, Buffer(b)]), Holding(a, 0), 2, []) ==
            ClosedRange(Container(EmptyFiles, [EMPTY_BUFFER, Buffer(b)], 1, 2, true), DONE, 2,
                        Some(HandOut(File(1, [a], true, false), true)))
  {
    assert [EMPTY_BUFFER][1..] == [];
    assert Insert([EMPTY_BUFFER], Buffer(b)) == [EMPTY_BUFFER, Buffer(b)];
  }

  const NO_BYTE := Slot(0, SECOND, 0, Parking(EMPTY_BUFFER), Active)

  function SecondByte(x: Byte): Slot { Slot(0, SECOND, 1, Parking(Buffer(x)), Active) }

  function FirstByte(x: Byte): Slot { Slot(0, FIRST, 1, Holding(x, 0), Active) }

  /** The slot once it is closed. */
  function Closed(x: Slot): Slot { x.(b := DONE, stage := Finished) }

  /** Two blocks for the second byte, one of them without it, and one for the first. */
  function ThreeOpen(a: Byte, b: Byte): System {
    Single(NEW_FILE_LENT, 3, [], [NO_BYTE, SecondByte(b), FirstByte(a)], 2)
  }

  function Truncated(a: Byte, b: Byte): System {
    Single(Container(EmptyFiles, [EMPTY_BUFFER, Buffer(b)], 1, 2, true), 3, [HandOut(File(1, [a], true, false), true)],
           [Closed(NO_BYTE), Closed(SecondByte(b)), Closed(FirstByte(a))], 2)
  }

  const THREE_CLOSES := [Closing(0), Closing(1), Closing(2)]

  lemma EmptyRunCloses(a: Byte, b: Byte)
    ensures Leads(ThreeOpen(a, b), THREE_CLOSES, Truncated(a, b), [a, b])
  {
    hide Close, Leads;
    EmptyCloses(a, b);
    var R: Resource, end := [a, b], Truncated(a, b);
    var c, c' := NEW_FILE_LENT.(tree := [EMPTY_BUFFER]), NEW_FILE_LENT.(tree := [EMPTY_BUFFER, Buffer(b)]);
    var x, f := SecondByte(b), FirstByte(a);
    var s, t := Single(c, 3, [], [Closed(NO_BYTE), x, f], 2), Single(c', 3, [], [Closed(NO_BYTE), Closed(x), f], 2);
    NoEvents(end, R);
    assert [] + end.entries[0].handed == end.entries[0].handed;
    Closes(t, 2, Close(c', f.b, 2, []), THREE_CLOSES[2..], end, [], end, R);
    Closes(s, 1, Close(c, x.b, 2, []), THREE_CLOSES[1..], t, THREE_CLOSES[2..], end, R);
    Closes(ThreeOpen(a, b), 0, Close(NEW_FILE_LENT, NO_BYTE.b, 2, []), THREE_CLOSES, s, THREE_CLOSES[1..], end, R);
  }

  function EmptyRun(a: Byte, b: Byte): seq<Event> {
    [Create, Opening(SECOND, []), Opening(SECOND, [b]), Opening(FIRST, [a])] + THREE_CLOSES
  }

  lemma EmptyRunLeads(a: Byte, b: Byte)
    ensures Leads(START, EmptyRun(a, b), Truncated(a, b), [a, b])
  {
    hide OpenFile, Leads;
    EmptyOpens(b);
    OpensFirst(NEW_FILE_HELD, 2, a);
    var R: Resource, end, all := [a, b], Truncated(a, b), EmptyRun(a, b);
    var x, f := SecondByte(b), FirstByte(a);
    var s0, s1 := Single(NEW_CONTAINER, 0, [], [], 0), Single(NEW_FILE_HELD, 1, [], [NO_BYTE], 1);
    var s2, s3 := Single(NEW_FILE_HELD, 2, [], [NO_BYTE, x], 2), ThreeOpen(a, b);
    EmptyRunCloses(a, b);
    Opens(s2, FIRST, [a], Opened(NEW_FILE_LENT, 2, Some(f.b)), all[3..], s3, THREE_CLOSES, end, R);
    Opens(s1, SECOND, [b], Opened(NEW_FILE_HELD, 2, Some(x.b)), all[2..], s2, all[3..], end, R);
    Opens(s0, SECOND, [], Opened(NEW_FILE_HELD, 1, Some(NO_BYTE.b)), all[1..], s1, all[2..], end, R);
    Before(START, Create, s0, all[1..], end, R);
    assert [Create] + all[1..] == all;
  }

  /** A block for the second byte is closed before anything arrived.  The byte comes through
      another block; yet when the file reaches it, the first byte alone is handed out. */
  lemma EmptyBufferTruncates(a: Byte, b: Byte)
    ensures var es := EmptyRun(a, b); var end := Truncated(a, b);
            && Runs(START, es) && Fetches(START, es, 0, [a, b]) && After(START, es) == end
            && AllClosed(end, 0) && Delivered(end, 0, 0) && Delivered(end, 0, 1)
            && end.entries[0].handed == [HandOut(File(1, [a], true, false), true)]
    ensures !ClosesClean(NEW_FILE_LENT, NO_BYTE.b)
  {
    EmptyRunLeads(a, b);
    hide Runs, Fetches, After;
    assert Brought(Truncated(a, b).slots[1], 0, 1) && Brought(Truncated(a, b).slots[2], 0, 0);
  }

  // ----- the file is given back within the overlap -----

  function OneByteHeld(x: Byte): Container { Container(OneFile(File(1, [x], true, false)), [], 1, 2, false) }

  function OneByteLent(x: Byte): Container { OneByteHeld(x).(files := NoFiles) }

  function Overlapping(x: Byte): Slot { Slot(0, BOTH, 0, Holding(x, 1), Active) }

  lemma OverlapOpens(a: Byte, b: Byte)
    ensures OpenFile(OneByteHeld(a), 0, BOTH, GRANTED, Data([]), true) ==
            Opened(OneByteLent(a), 0, Some(Overlapping(a).b))
    ensures OpenFile(OneByteLent(a), 0, SECOND, GRANTED, Data([b]), true) ==
            Opened(OneByteLent(a), 1, Some(Parking(Buffer(b))))
  {
    OpensAhead(OneByteLent(a), 0, SECOND, [b]);
  }

  lemma OverlapCloses(a: Byte, b: Byte)
    ensures Close(NEW_FILE_LENT, Holding(a, 0), 0, []) == ClosedRange(OneByteHeld(a), DONE, 0, None)
    ensures Close(OneByteLent(a), Parking(Buffer(b)), 1, []) ==
            ClosedRange(OneByteLent(a).(tree := [Buffer(b)]), DONE, 1, None)
    ensures Close(OneByteLent(a).(tree := [Buffer(b)]), Holding(a, 1), 1, []) ==
            ClosedRange(OneByteHeld(a).(tree := [Buffer(b)]), DONE.(toskip := 1), 1, None)
  {
  }

  function Unmerged(a: Byte, b: Byte): System {
    Single(OneByteHeld(a).(tree := [Buffer(b)]), 3, [],
           [Closed(FirstByte(a)), Overlapping(a).(b := DONE.(toskip := 1), stage := Finished), Closed(SecondByte(b))],
           1)
  }

  function OverlapRun(a: Byte, b: Byte): seq<Event> {
    [Create, Opening(FIRST, [a]), Closing(0), Opening(BOTH, []), Opening(SECOND, [b]), Closing(2), Closing(1)]
  }

  lemma OverlapRunEnds(a: Byte, b: Byte)
    ensures Leads(Single(OneByteHeld(a), 1, [], [Closed(FirstByte(a))], 0), OverlapRun(a, b)[3..], Unmerged(a, b),
                  [a, b])
  {
    hide OpenFile, Close, Leads;
    OverlapOpens(a, b);
    OverlapCloses(a, b);
    var R: Resource, end, all := [a, b], Unmerged(a, b), OverlapRun(a, b);
    var f, o, x, c := Closed(FirstByte(a)), Overlapping(a), SecondByte(b), OneByteLent(a);
    var c' := c.(tree := [Buffer(b)]);
    var s, t := Single(OneByteHeld(a), 1, [], [f], 0), Single(c, 2, [], [f, o], 0);
    var u, v := Single(c, 3, [], [f, o, x], 1), Single(c', 3, [], [f, o, Closed(x)], 1);
    NoEvents(end, R);
    Closes(v, 1, Close(c', o.b, 1, []), all[6..], end, [], end, R);
    Closes(u, 2, Close(c, x.b, 1, []), all[5..], v, all[6..], end, R);
    Opens(t, SECOND, [b], Opened(c, 1, Some(x.b)), all[4..], u, all[5..], end, R);
    Opens(s, BOTH, [], Opened(c, 0, Some(o.b)), all[3..], t, all[4..], end, R);
  }

  lemma OverlapRunLeads(a: Byte, b: Byte)
    ensures Leads(START, OverlapRun(a, b), Unmerged(a, b), [a, b])
  {
    hide OpenFile, Close, Leads;
    OverlapCloses(a, b);
    OpensFirst(NEW_CONTAINER, 0, a);
    OverlapRunEnds(a, b);
    var R: Resource, end, all := [a, b], Unmerged(a, b), OverlapRun(a, b);
    var f := FirstByte(a);
    var s, t, u := Single(NEW_CONTAINER, 0, [], [], 0), Single(NEW_FILE_LENT, 1, [], [f], 0),
      Single(OneByteHeld(a), 1, [], [Closed(f)], 0);
    Closes(t, 0, Close(NEW_FILE_LENT, f.b, 0, []), all[2..], u, all[3..], end, R);
    Opens(s, FIRST, [a], Opened(NEW_FILE_LENT, 0, Some(f.b)), all[1..], t, all[2..], end, R);
    Before(START, Create, s, all[1..], end, R);
    assert [Create] + all[1..] == all;
  }

  /** A block that overlaps the file is closed before anything arrived, after the second byte
      was parked.  All is closed and delivered, and the byte stays in the tree. */
  lemma OverlapStaysUnmerged(a: Byte, b: Byte)
    ensures var es := OverlapRun(a, b); var end := Unmerged(a, b);
            && Runs(START, es) && Fetches(START, es, 0, [a, b]) && After(START, es) == end
            && AllClosed(end, 0) && Delivered(end, 0, 0) && Delivered(end, 0, 1)
            && end.entries[0].handed == [] && end.entries[0].c.lastsize == 1
    ensures !ClosesClean(OneByteLent(a).(tree := [Buffer(b)]), Overlapping(a).b)
  {
    OverlapRunLeads(a, b);
    hide Runs, Fetches, After;
    assert Brought(Unmerged(a, b).slots[0], 0, 0) && Brought(Unmerged(a, b).slots[2], 0, 1);
    assert Buffer(b) in [Buffer(b)];
  }
}
