/**
 DNP3 transactions (IEEE 1815-2012, clause 8): transport segments assembled into
 application messages, and the bookkeeping of the transaction list.
 */
module Dnp3Transport {
  import opened Common
  import opened Dnp3Crc
  import opened Dnp3Framing
  import opened Dnp3Link
  import Dnp3Application
  import Dnp3Objects

  // ----- reading a frame -----

  /** What the link layer checks before it passes a frame on. */
  predicate Accepted(f: seq<Byte>, dir: Direction) {
    && |f| >= HEADER_SIZE
    && StartBytes(f) && CheckCRC(f[..HEADER_SIZE])
    && |f| == FrameLength(f)
    && IsUserData(f) && HasUserData(f, dir)
    && BlocksOk(f[HEADER_SIZE..])
  }

  /** These are exactly the frames it passes on. */
  lemma AcceptedIff(f: seq<Byte>, dir: Direction)
    ensures Accepted(f, dir) <==> Examine(f, dir) == Take(Handle(f))
  {
    hide CheckCRC, BlocksOk;
    if |f| >= HEADER_SIZE && |f| == FrameLength(f) {
      assert f[..FrameLength(f)] == f && f[HEADER_SIZE..FrameLength(f)] == f[HEADER_SIZE..];
    }
  }

  /** Whatever is handed over from a stream is such a frame. */
  lemma HandledIsAccepted(s: seq<Byte>, dir: Direction)
    requires Examine(s, dir).Take? && Examine(s, dir).action.Handle?
    ensures Accepted(Examine(s, dir).action.frame, dir)
  {
    hide CheckCRC, BlocksOk;
    var f := Examine(s, dir).action.frame;
    assert f[0] == s[0] && f[1] == s[1] && f[2] == s[2] && f[3] == s[3];
    assert f[..HEADER_SIZE] == s[..HEADER_SIZE];
    assert f[HEADER_SIZE..] == s[HEADER_SIZE..FrameLength(s)];
  }

  /** The announced user octets, and what they say about the frame. */
  lemma AcceptedSizes(f: seq<Byte>, dir: Direction)
    requires Accepted(f, dir)
    ensures Strippable(|f| - HEADER_SIZE)
    ensures |f| >= HEADER_SIZE + 3 + CRC_LEN
    ensures |StripCrcs(f[HEADER_SIZE..])| == Num(f[2]) - LINK_HDR_LEN
  {
    hide CheckCRC, BlocksOk, StripCrcs;
    FrameStrippable(Num(f[2]));
    StripLength(f[HEADER_SIZE..]);
    FrameAtLeast(Num(f[2]));
  }

  lemma FrameAtLeast(length: nat)
    requires length >= LINK_HDR_LEN + 3
    ensures LinkLength(length) >= HEADER_SIZE + 5
  {
    var n := length - LINK_HDR_LEN;
    assert n == 16 * (n / 16) + n % 16;
  }

  type Address = (Byte, Byte)

  function Destination(f: seq<Byte>): Address
    requires |f| >= HEADER_SIZE
  {
    (f[4], f[5])
  }

  function Source(f: seq<Byte>): Address
    requires |f| >= HEADER_SIZE
  {
    (f[6], f[7])
  }

  function Transport(f: seq<Byte>): Byte
    requires |f| > HEADER_SIZE
  {
    f[HEADER_SIZE]
  }

  predicate IsFirst(th: Byte) { th & 0x40 != 0 }

  predicate IsFinal(th: Byte) { th & 0x80 != 0 }

  function SeqNo(th: Byte): nat { (th & 0x3f) as int }

  function NextSeq(n: nat): nat { (n + 1) % 64 }

  /** A request that only confirms an earlier response. */
  predicate IsConfirm(f: seq<Byte>)
    requires |f| > HEADER_SIZE + 2
  {
    f[HEADER_SIZE + 2] == 0
  }

  /** The application octets a frame carries. */
  function Payload(f: seq<Byte>): seq<Byte> {
    if |f| < HEADER_SIZE then []
    else var s := StripCrcs(f[HEADER_SIZE..]); if s == [] then [] else s[1..]
  }

  /** An accepted frame carries the application header, and never more than 249 octets. */
  lemma PayloadSize(f: seq<Byte>, dir: Direction)
    requires Accepted(f, dir)
    ensures AppHeaderSize(dir) <= |Payload(f)| <= 249
  {
    hide BlocksOk, StripCrcs;
    AcceptedSizes(f, dir);
  }

  // ----- transactions -----

  /** A segment absorbed by a transaction, and whether memory allowed keeping its octets. */
  datatype Segment = Segment(frame: seq<Byte>, kept: bool)

  /** A transaction; `segs` is its history, which the program does not store. */
  datatype Tx = Tx(num: nat, isRequest: bool, src: Address, dst: Address, th: Byte,
                   buffer: seq<Byte>, done: bool, complete: bool, objects: seq<Dnp3Application.Object>,
                   segs: seq<Segment>) {
    function Dir(): Direction { if isRequest then ToServer else ToClient }
  }

  /** Longest reassembly that still accepts another segment. */
  const MAX_REASSEMBLY: nat := 63 * 255

  const MAX_PAYLOAD: nat := 249

  function NewTx(num: nat, f: seq<Byte>, dir: Direction): Tx
    requires |f| > HEADER_SIZE
  {
    Tx(num, dir.ToServer?, Source(f), Destination(f), Transport(f), [], false, false, [], [])
  }

  /** The segment belongs to this unfinished transaction. */
  predicate Continues(tx: Tx, f: seq<Byte>, dir: Direction)
    requires |f| > HEADER_SIZE
  {
    && tx.src == Source(f) && tx.dst == Destination(f)
    && tx.isRequest == dir.ToServer?
    && !tx.done
    && NextSeq(SeqNo(tx.th)) == SeqNo(Transport(f))
  }

  /** The limits of the configuration. */
  datatype Config = Config(maxTx: nat, limits: Dnp3Application.Limits)

  function Octets(s: seq<Byte>): seq<Dnp3Objects.Octet> {
    seq(|s|, i requires 0 <= i < |s| => Num(s[i]))
  }

  /** What the object decoder makes of a message behind its application header. */
  function Decoded(b: seq<Byte>, dir: Direction, limits: Dnp3Application.Limits): Dnp3Application.Message {
    if |b| < AppHeaderSize(dir) then Dnp3Application.Message(false, [])
    else Dnp3Application.DecodeObjects(Octets(b[AppHeaderSize(dir)..]), 0, 0, limits)
  }

  /** Reassembly, the length limit and decoding, for a segment given to a transaction. */
  function Absorb(tx: Tx, f: seq<Byte>, dir: Direction, memOk: bool, limits: Dnp3Application.Limits): Tx
    requires |f| > HEADER_SIZE
  {
    var kept := Strippable(|f| - HEADER_SIZE) && memOk;
    var t := tx.(th := Transport(f), segs := tx.segs + [Segment(f, kept)]);
    if !kept then t.(done := tx.done || dir.ToServer?)
    else
      var b := tx.buffer + Payload(f);
      if |b| > MAX_REASSEMBLY then t.(buffer := b, done := true)
      else if !IsFinal(Transport(f)) then t.(buffer := b)
      else
        var m := Decoded(b, dir, limits);
        t.(buffer := b, done := true, complete := m.complete, objects := m.objects)
  }

  // ----- the flow's state -----

  datatype State = State(txs: seq<Tx>, curr: Option<nat>, txMax: nat, unreplied: int, flooded: bool)

  const EMPTY := State([], None, 0, 0, false)

  /** DNP3TxAlloc. */
  function AllocTx(s: State, tx: Tx, maxTx: nat): State {
    s.(txs := s.txs + [tx], curr := Some(tx.num), txMax := s.txMax + 1, unreplied := s.unreplied + 1,
       flooded := s.flooded || s.unreplied + 1 > maxTx)
  }

  /** The first transaction in the list that satisfies p, as an index. */
  function FirstIndex(txs: seq<Tx>, p: Tx -> bool): (r: Option<nat>)
    ensures r.Some? ==> r.value < |txs| && p(txs[r.value]) && forall j :: 0 <= j < r.value ==> !p(txs[j])
    ensures r.None? ==> forall j :: 0 <= j < |txs| ==> !p(txs[j])
  {
    if txs == [] then None
    else if p(txs[0]) then Some(0)
    else match FirstIndex(txs[1..], p)
         case None => None
         case Some(i) => Some(i + 1)
  }

  function ContinuedBy(f: seq<Byte>, dir: Direction): Tx -> bool
    requires |f| > HEADER_SIZE
  {
    (tx: Tx) => Continues(tx, f, dir)
  }

  function Numbers(id: nat): Tx -> bool {
    (tx: Tx) => tx.num == id + 1
  }

  function Pending(txs: seq<Tx>, f: seq<Byte>, dir: Direction): Option<nat>
    requires |f| > HEADER_SIZE
  {
    FirstIndex(txs, ContinuedBy(f, dir))
  }

  /** DNP3HandleUserDataRequest and DNP3HandleUserDataResponse; `txOk` and `memOk` say
      whether allocations succeed. */
  function HandleUserData(s: State, f: seq<Byte>, dir: Direction, cfg: Config, txOk: bool, memOk: bool): State
    requires |f| > HEADER_SIZE + 2
  {
    if !BlocksOk(f[HEADER_SIZE..]) then s
    else if !IsFirst(Transport(f)) then
      match Pending(s.txs, f, dir)
      case None => s
      case Some(i) => s.(txs := s.txs[i := Absorb(s.txs[i], f, dir, memOk, cfg.limits)])
    else if dir.ToServer? && IsConfirm(f) then s
    else if !txOk then s
    else AllocTx(s, Absorb(NewTx(s.txMax + 1, f, dir), f, dir, memOk, cfg.limits), cfg.maxTx)
  }

  /** DNP3StateTxFree for transaction `id`. */
  function FreeTx(s: State, id: nat, maxTx: nat): State {
    match FirstIndex(s.txs, Numbers(id))
    case None => s
    case Some(i) =>
      s.(txs := s.txs[..i] + s.txs[i + 1..],
         curr := if s.curr == Some(id + 1) then None else s.curr,
         unreplied := s.unreplied - 1,
         flooded := s.flooded && s.unreplied - 1 >= maxTx)
  }

  // ----- runs -----

  datatype Event =
    | Receive(frame: seq<Byte>, dir: Direction, txOk: bool, memOk: bool)
    | Free(id: nat)

  predicate Enabled(e: Event) {
    e.Receive? ==> Accepted(e.frame, e.dir)
  }

  function Next(s: State, e: Event, cfg: Config): State
    requires Enabled(e)
  {
    match e
    case Receive(f, dir, txOk, memOk) =>
      AcceptedSizes(f, dir);
      HandleUserData(s, f, dir, cfg, txOk, memOk)
    case Free(id) => FreeTx(s, id, cfg.maxTx)
  }

  function After(s: State, es: seq<Event>, cfg: Config): State
    requires forall e :: e in es ==> Enabled(e)
    decreases |es|
  {
    if es == [] then s else After(Next(s, es[0], cfg), es[1..], cfg)
  }

  /** The last event of a run comes last. */
  lemma {:induction false} AfterLast(s: State, es: seq<Event>, e: Event, cfg: Config)
    requires Enabled(e) && forall x :: x in es ==> Enabled(x)
    ensures forall x :: x in es + [e] ==> Enabled(x)
    ensures After(s, es + [e], cfg) == Next(After(s, es, cfg), e, cfg)
    decreases |es|
  {
    hide Enabled, Next;
    var all := es + [e];
    if es == [] {
      assert all[1..] == [];
    } else {
      assert all[0] == es[0] && all[1..] == es[1..] + [e];
      AfterLast(Next(s, es[0], cfg), es[1..], e, cfg);
    }
  }

  // ----- transaction assembly -----

  /** The octets of the segments kept, in order. */
  function Assembled(segs: seq<Segment>): seq<Byte> {
    if segs == [] then []
    else var n := |segs| - 1; Assembled(segs[..n]) + if segs[n].kept then Payload(segs[n].frame) else []
  }

  /** An accepted frame of this conversation, with FIR set exactly on the first one. */
  predicate SegmentOf(f: seq<Byte>, dir: Direction, src: Address, dst: Address, first: bool) {
    && Accepted(f, dir) && |f| > HEADER_SIZE
    && Source(f) == src && Destination(f) == dst
    && (IsFirst(Transport(f)) <==> first)
  }

  predicate Follows(f: seq<Byte>, g: seq<Byte>) {
    |f| > HEADER_SIZE && |g| > HEADER_SIZE && SeqNo(Transport(g)) == NextSeq(SeqNo(Transport(f)))
  }

  /** One FIR segment, then segments without FIR in the same direction between the same
      addresses, numbered consecutively modulo 64. */
  ghost predicate Consecutive(segs: seq<Segment>, dir: Direction, src: Address, dst: Address) {
    && segs != []
    && (forall i :: 0 <= i < |segs| ==> SegmentOf(segs[i].frame, dir, src, dst, i == 0))
    && (forall i :: 0 < i < |segs| ==> Follows(segs[i - 1].frame, segs[i].frame))
  }

  lemma ConsecutivePush(segs: seq<Segment>, x: Segment, dir: Direction, src: Address, dst: Address)
    requires Consecutive(segs, dir, src, dst)
    requires SegmentOf(x.frame, dir, src, dst, false) && Follows(segs[|segs| - 1].frame, x.frame)
    ensures Consecutive(segs + [x], dir, src, dst)
  {
    hide SegmentOf, Follows;
    var t := segs + [x];
    forall i | 0 < i < |t| ensures Follows(t[i - 1].frame, t[i].frame) {
      if i < |segs| { assert t[i - 1] == segs[i - 1] && t[i] == segs[i]; }
    }
  }

  /** A request stops at the first segment it could not keep. */
  ghost predicate RequestWhole(tx: Tx) {
    tx.isRequest ==> forall i :: 0 <= i < |tx.segs| - 1 ==> tx.segs[i].kept
  }

  /** How a transaction ends: with FIN, by its length, or, for a request, out of memory. */
  predicate Ended(tx: Tx)
    requires tx.segs != [] && |tx.segs[|tx.segs| - 1].frame| > HEADER_SIZE
  {
    var last := tx.segs[|tx.segs| - 1];
    if last.kept then IsFinal(Transport(last.frame)) || |tx.buffer| > MAX_REASSEMBLY else tx.isRequest
  }

  /** The whole message has been taken in. */
  predicate Finished(tx: Tx)
    requires tx.segs != [] && |tx.segs[|tx.segs| - 1].frame| > HEADER_SIZE
  {
    var last := tx.segs[|tx.segs| - 1];
    last.kept && IsFinal(Transport(last.frame)) && |tx.buffer| <= MAX_REASSEMBLY
  }

  /** A finished message holds its header and was decoded behind it, any other was not. */
  ghost predicate DecodedOk(tx: Tx, limits: Dnp3Application.Limits)
    requires tx.segs != [] && |tx.segs[|tx.segs| - 1].frame| > HEADER_SIZE
  {
    if Finished(tx) then
      && |tx.buffer| >= AppHeaderSize(tx.Dir())
      && Dnp3Application.Message(tx.complete, tx.objects) == Decoded(tx.buffer, tx.Dir(), limits)
    else !tx.complete && tx.objects == []
  }

  ghost predicate TxGood(tx: Tx, limits: Dnp3Application.Limits) {
    && Consecutive(tx.segs, tx.Dir(), tx.src, tx.dst)
    && |tx.segs[|tx.segs| - 1].frame| > HEADER_SIZE
    && tx.th == Transport(tx.segs[|tx.segs| - 1].frame)
    && tx.buffer == Assembled(tx.segs)
    && RequestWhole(tx)
    && |tx.buffer| <= MAX_REASSEMBLY + MAX_PAYLOAD
    && (!tx.done ==> |tx.buffer| <= MAX_REASSEMBLY)
    && (tx.done <==> Ended(tx))
    && DecodedOk(tx, limits)
  }

  lemma AssembledPush(segs: seq<Segment>, x: Segment)
    ensures Assembled(segs + [x]) == Assembled(segs) + if x.kept then Payload(x.frame) else []
  {
    assert (segs + [x])[..|segs|] == segs;
  }

  /** Absorbing a segment that continues the transaction keeps it well assembled. */
  lemma AbsorbContinues(tx: Tx, f: seq<Byte>, dir: Direction, memOk: bool, limits: Dnp3Application.Limits)
    requires TxGood(tx, limits) && Accepted(f, dir) && |f| > HEADER_SIZE
    requires Continues(tx, f, dir) && !IsFirst(Transport(f))
    ensures TxGood(Absorb(tx, f, dir, memOk, limits), limits)
  {
    hide Accepted, IsFirst, IsFinal, SeqNo, Assembled, Payload, Strippable, Decoded, Consecutive;
    AcceptedSizes(f, dir);
    PayloadSize(f, dir);
    AssembledPush(tx.segs, Segment(f, memOk));
    assert SegmentOf(f, tx.Dir(), tx.src, tx.dst, false);
    NonEmpty(tx.segs, tx.Dir(), tx.src, tx.dst);
    ConsecutivePush(tx.segs, Segment(f, memOk), tx.Dir(), tx.src, tx.dst);
  }

  lemma OneSegment(x: Segment, dir: Direction, src: Address, dst: Address)
    requires SegmentOf(x.frame, dir, src, dst, true)
    ensures Consecutive([x], dir, src, dst)
    ensures Assembled([x]) == if x.kept then Payload(x.frame) else []
  {
    hide SegmentOf, Payload;
    AssembledPush([], x);
    AssembledNone();
    assert [] + [x] == [x];
  }

  /** The transaction after its first segment. */
  ghost predicate Begun(t: Tx, f: seq<Byte>, dir: Direction, memOk: bool, limits: Dnp3Application.Limits)
    requires |f| > HEADER_SIZE
  {
    && t.isRequest == dir.ToServer? && t.src == Source(f) && t.dst == Destination(f)
    && t.th == Transport(f) && t.segs == [Segment(f, memOk)]
    && t.buffer == (if memOk then Payload(f) else [])
    && t.done == (if memOk then IsFinal(Transport(f)) else dir.ToServer?)
    && Dnp3Application.Message(t.complete, t.objects) ==
       if memOk && IsFinal(Transport(f)) then Decoded(Payload(f), dir, limits) else Dnp3Application.Message(false, [])
  }

  lemma AbsorbBegins(num: nat, f: seq<Byte>, dir: Direction, memOk: bool, limits: Dnp3Application.Limits)
    requires Accepted(f, dir) && |f| > HEADER_SIZE
    ensures Begun(Absorb(NewTx(num, f, dir), f, dir, memOk, limits), f, dir, memOk, limits)
  {
    hide Accepted, IsFinal, Payload, Strippable, Decoded, StripCrcs;
    AcceptedSizes(f, dir);
    PayloadSize(f, dir);
    assert [] + [Segment(f, memOk)] == [Segment(f, memOk)];
    assert [] + Payload(f) == Payload(f);
  }

  lemma BegunGood(t: Tx, f: seq<Byte>, dir: Direction, memOk: bool, limits: Dnp3Application.Limits)
    requires Accepted(f, dir) && |f| > HEADER_SIZE && IsFirst(Transport(f)) && Begun(t, f, dir, memOk, limits)
    ensures TxGood(t, limits)
  {
    hide Accepted, IsFirst, IsFinal, Assembled, Payload, Decoded, Consecutive, SeqNo;
    PayloadSize(f, dir);
    OneSegment(Segment(f, memOk), dir, Source(f), Destination(f));
  }

  lemma AbsorbFirst(num: nat, f: seq<Byte>, dir: Direction, memOk: bool, limits: Dnp3Application.Limits)
    requires Accepted(f, dir) && |f| > HEADER_SIZE && IsFirst(Transport(f))
    ensures TxGood(Absorb(NewTx(num, f, dir), f, dir, memOk, limits), limits)
  {
    hide Accepted, IsFirst, Begun, Absorb, TxGood;
    AbsorbBegins(num, f, dir, memOk, limits);
    BegunGood(Absorb(NewTx(num, f, dir), f, dir, memOk, limits), f, dir, memOk, limits);
  }

  lemma NonEmpty(segs: seq<Segment>, dir: Direction, src: Address, dst: Address)
    requires Consecutive(segs, dir, src, dst)
    ensures segs != []
  {
  }

  lemma AssembledNone()
    ensures Assembled([]) == []
  {
  }

  // ----- the list and its counters -----

  /** Numbers grow along the list and were all handed out. */
  ghost predicate Numbered(txs: seq<Tx>, txMax: nat) {
    && (forall i, j :: 0 <= i < j < |txs| ==> txs[i].num < txs[j].num)
    && (forall i :: 0 <= i < |txs| ==> 1 <= txs[i].num <= txMax)
  }

  ghost predicate Known(txs: seq<Tx>, curr: Option<nat>) {
    curr.Some? ==> exists i :: 0 <= i < |txs| && txs[i].num == curr.value
  }

  ghost predicate Counted(s: State, maxTx: nat) {
    && s.unreplied == |s.txs|
    && (if s.flooded then s.unreplied >= maxTx else s.unreplied <= maxTx)
  }

  ghost predicate StateGood(s: State, cfg: Config) {
    && (forall tx :: tx in s.txs ==> TxGood(tx, cfg.limits))
    && Numbered(s.txs, s.txMax)
    && Known(s.txs, s.curr)
    && Counted(s, cfg.maxTx)
  }

  lemma AbsorbKeepsIdentity(tx: Tx, f: seq<Byte>, dir: Direction, memOk: bool, limits: Dnp3Application.Limits)
    requires |f| > HEADER_SIZE
    ensures Absorb(tx, f, dir, memOk, limits).num == tx.num
  {
  }

  lemma ReceiveGood(s: State, f: seq<Byte>, dir: Direction, cfg: Config, txOk: bool, memOk: bool)
    requires StateGood(s, cfg) && Accepted(f, dir) && |f| > HEADER_SIZE + 2
    ensures StateGood(HandleUserData(s, f, dir, cfg, txOk, memOk), cfg)
  {
    hide Accepted, BlocksOk, IsFirst, Absorb, TxGood, IsConfirm;
    var s' := HandleUserData(s, f, dir, cfg, txOk, memOk);
    if s' != s {
      if !IsFirst(Transport(f)) {
        var i := Pending(s.txs, f, dir).value;
        var tx := s.txs[i];
        AbsorbContinues(tx, f, dir, memOk, cfg.limits);
        AbsorbKeepsIdentity(tx, f, dir, memOk, cfg.limits);
        if s.curr.Some? {
          var j :| 0 <= j < |s.txs| && s.txs[j].num == s.curr.value;
          assert s'.txs[j].num == s.curr.value;
        }
      } else {
        AbsorbFirst(s.txMax + 1, f, dir, memOk, cfg.limits);
        AbsorbKeepsIdentity(NewTx(s.txMax + 1, f, dir), f, dir, memOk, cfg.limits);
        assert s'.txs[|s.txs|].num == s.txMax + 1;
      }
    }
  }

  lemma RemoveNumbered(txs: seq<Tx>, i: nat, txMax: nat)
    requires Numbered(txs, txMax) && i < |txs|
    ensures Numbered(txs[..i] + txs[i + 1..], txMax)
  {
    var r := txs[..i] + txs[i + 1..];
    forall a, b | 0 <= a < b < |r| ensures r[a].num < r[b].num {
      assert r[a] == txs[if a < i then a else a + 1] && r[b] == txs[if b < i then b else b + 1];
    }
    forall a | 0 <= a < |r| ensures 1 <= r[a].num <= txMax {
      assert r[a] == txs[if a < i then a else a + 1];
    }
  }

  lemma RemoveKnown(txs: seq<Tx>, i: nat, curr: Option<nat>)
    requires Known(txs, curr) && i < |txs| && curr != Some(txs[i].num)
    ensures Known(txs[..i] + txs[i + 1..], curr)
  {
    if curr.Some? {
      var j :| 0 <= j < |txs| && txs[j].num == curr.value;
      assert (txs[..i] + txs[i + 1..])[if j < i then j else j - 1].num == curr.value;
    }
  }

  lemma FreeGood(s: State, id: nat, cfg: Config)
    requires StateGood(s, cfg)
    ensures StateGood(FreeTx(s, id, cfg.maxTx), cfg)
  {
    hide TxGood, Numbered, Known;
    var r := FirstIndex(s.txs, Numbers(id));
    if r.Some? {
      RemoveNumbered(s.txs, r.value, s.txMax);
      KnownNone(s.txs[..r.value] + s.txs[r.value + 1..]);
      if s.curr != Some(id + 1) {
        RemoveKnown(s.txs, r.value, s.curr);
      }
    }
  }

  lemma KnownNone(txs: seq<Tx>)
    ensures Known(txs, None)
  {
  }

  lemma StepGood(s: State, e: Event, cfg: Config)
    requires StateGood(s, cfg) && Enabled(e)
    ensures StateGood(Next(s, e, cfg), cfg)
  {
    hide Accepted, StateGood, HandleUserData, FreeTx;
    match e
    case Receive(f, dir, txOk, memOk) =>
      AcceptedSizes(f, dir);
      ReceiveGood(s, f, dir, cfg, txOk, memOk);
    case Free(id) => FreeGood(s, id, cfg);
  }

  lemma {:induction false} RunGood(s: State, es: seq<Event>, cfg: Config)
    requires StateGood(s, cfg) && forall e :: e in es ==> Enabled(e)
    ensures StateGood(After(s, es, cfg), cfg)
    decreases |es|
  {
    hide Enabled, StateGood, Next;
    if es != [] {
      StepGood(s, es[0], cfg);
      RunGood(Next(s, es[0], cfg), es[1..], cfg);
    }
  }
}
