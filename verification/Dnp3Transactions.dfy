/**
 Theorems about DNP3 transactions over every run of received frames and freed transactions,
 and the per-flow state as the source keeps it: lists walked by loops, counters in place.
 */
module Dnp3Transactions {
  import opened Common
  import opened Dnp3Crc
  import opened Dnp3Framing
  import opened Dnp3Link
  import opened Dnp3Transport
  import opened Dnp3Trace
  import Dnp3Decoder

  // ----- transaction assembly -----

  /** In every run a transaction is one FIR segment and the segments that follow it in
      sequence, received at increasing positions of the run; nothing it waited for went past
      it, unless an older transaction took it.  Its buffer is the octets of the segments
      there was memory for, in order, bounded so that a 16-bit length cannot wrap; it is
      finished exactly by FIN, by its length or, for a request, by a lost segment. */
  lemma TransactionAssembly(es: seq<Event>, cfg: Config, tx: Tx) returns (at: seq<nat>)
    requires forall e :: e in es ==> Enabled(e)
    requires tx in After(EMPTY, es, cfg).txs
    ensures Traced(es, tx, at) && NothingMissed(es, cfg, tx, at) && Origin(es, tx, at)
    ensures Consecutive(tx.segs, tx.Dir(), tx.src, tx.dst)
    ensures tx.buffer == Assembled(tx.segs)
    ensures |tx.buffer| <= 63 * 255 + 249 < 0x10000
    ensures |tx.segs[|tx.segs| - 1].frame| > HEADER_SIZE && (tx.done <==> Ended(tx))
    ensures tx.isRequest ==> forall i :: 0 <= i < |tx.segs| - 1 ==> tx.segs[i].kept
  {
    hide Enabled, After, Accepted, Traced, NothingMissed, Origin;
    at := Trace(es, cfg, tx);
    RunGood(EMPTY, es, cfg);
  }

  /** All octets received at these positions. */
  function Delivered(es: seq<Event>, at: seq<nat>): seq<Byte>
    requires forall i :: 0 <= i < |at| ==> at[i] < |es| && es[at[i]].Receive?
  {
    if at == [] then [] else Delivered(es, at[..|at| - 1]) + Payload(es[at[|at| - 1]].frame)
  }

  /** These segments were received at these positions. */
  ghost predicate SeenAt(es: seq<Event>, segs: seq<Segment>, at: seq<nat>, dir: Direction) {
    |segs| == |at| && forall i :: 0 <= i < |at| ==> at[i] < |es| && SeenAs(es[at[i]], segs[i], dir)
  }

  lemma {:induction false} AssembledSize(es: seq<Event>, segs: seq<Segment>, at: seq<nat>, dir: Direction)
    requires SeenAt(es, segs, at, dir)
    requires forall i :: 0 <= i < |segs| ==> Accepted(segs[i].frame, dir)
    ensures |Assembled(segs)| <= |Delivered(es, at)|
    ensures |Assembled(segs)| == |Delivered(es, at)| ==> forall i :: 0 <= i < |at| ==> es[at[i]].memOk
  {
    hide Accepted, Payload;
    if segs != [] {
      var n := |segs| - 1;
      AssembledSize(es, segs[..n], at[..n], dir);
      PayloadSize(segs[n].frame, dir);
    }
  }

  lemma {:induction false} AllKept(es: seq<Event>, segs: seq<Segment>, at: seq<nat>, dir: Direction)
    requires SeenAt(es, segs, at, dir) && forall i :: 0 <= i < |at| ==> es[at[i]].memOk
    ensures Assembled(segs) == Delivered(es, at)
  {
    hide Payload;
    if segs != [] {
      var n := |segs| - 1;
      AllKept(es, segs[..n], at[..n], dir);
    }
  }

  /** The buffer is the whole of what was received for the transaction exactly when there
      was memory at each of these events. */
  lemma WholeMessage(es: seq<Event>, cfg: Config, tx: Tx, at: seq<nat>)
    requires forall e :: e in es ==> Enabled(e)
    requires tx in After(EMPTY, es, cfg).txs && Traced(es, tx, at)
    ensures tx.buffer == Delivered(es, at) <==> forall i :: 0 <= i < |at| ==> es[at[i]].memOk
  {
    hide Enabled, After, Accepted, Assembled, Delivered, IsFirst, Follows, DecodedOk, Ended;
    RunGood(EMPTY, es, cfg);
    AssembledSize(es, tx.segs, at, tx.Dir());
    if forall i :: 0 <= i < |at| ==> es[at[i]].memOk {
      AllKept(es, tx.segs, at, tx.Dir());
    }
  }

  /** In every run: a message that was taken in whole (its last segment kept, with FIN, and
      within the length limit) holds at least its application header, and flag and objects
      are what the object decoder makes of the octets behind it; any other transaction is
      not decoded. */
  lemma DecodedMessage(es: seq<Event>, cfg: Config, tx: Tx)
    requires forall e :: e in es ==> Enabled(e)
    requires tx in After(EMPTY, es, cfg).txs
    ensures tx.segs != [] && |tx.segs[|tx.segs| - 1].frame| > HEADER_SIZE
    ensures Finished(tx) ==>
              && |tx.buffer| >= AppHeaderSize(tx.Dir())
              && Dnp3Application.Message(tx.complete, tx.objects) ==
                 Dnp3Application.DecodeObjects(Octets(tx.buffer[AppHeaderSize(tx.Dir())..]), 0, 0, cfg.limits)
    ensures !Finished(tx) ==> !tx.complete && tx.objects == []
  {
    hide Enabled, After, Accepted, Assembled, Finished, Dnp3Application.DecodeObjects;
    RunGood(EMPTY, es, cfg);
  }

  // ----- a response that loses a segment -----

  /** A first response segment and a last one that continues it. */
  predicate TwoPart(f: seq<Byte>, g: seq<Byte>) {
    && Accepted(f, ToClient) && Accepted(g, ToClient) && |f| > HEADER_SIZE && |g| > HEADER_SIZE
    && IsFirst(Transport(f)) && !IsFirst(Transport(g)) && IsFinal(Transport(g))
    && Source(f) == Source(g) && Destination(f) == Destination(g) && Follows(f, g)
  }

  /** A response segment without memory leaves its mark and nothing else. */
  lemma AbsorbLost(tx: Tx, f: seq<Byte>, limits: Dnp3Application.Limits)
    requires |f| > HEADER_SIZE
    ensures Absorb(tx, f, ToClient, false, limits) == tx.(th := Transport(f), segs := tx.segs + [Segment(f, false)])
  {
    hide Strippable;
  }

  /** The state after the first segment, without memory. */
  lemma FirstLost(f: seq<Byte>, cfg: Config)
    requires Accepted(f, ToClient) && |f| > HEADER_SIZE && IsFirst(Transport(f))
    ensures Next(EMPTY, Receive(f, ToClient, true, false), cfg).txs ==
            [NewTx(1, f, ToClient).(segs := [Segment(f, false)])]
  {
    hide Accepted, IsFirst, Next, Absorb, Creates;
    var e := Receive(f, ToClient, true, false);
    FirstCreates(f);
    StepShape(EMPTY, e, cfg);
    FirstAbsorbed(f, cfg.limits);
    assert [] + Next(EMPTY, e, cfg).txs == Next(EMPTY, e, cfg).txs;
  }

  lemma FirstCreates(f: seq<Byte>)
    requires Accepted(f, ToClient) && |f| > HEADER_SIZE && IsFirst(Transport(f))
    ensures Creates(Receive(f, ToClient, true, false))
  {
    hide IsFirst, StripCrcs;
    AcceptedSizes(f, ToClient);
  }

  lemma FirstAbsorbed(f: seq<Byte>, limits: Dnp3Application.Limits)
    requires |f| > HEADER_SIZE
    ensures Absorb(NewTx(1, f, ToClient), f, ToClient, false, limits) ==
            NewTx(1, f, ToClient).(segs := [Segment(f, false)])
  {
    hide Absorb;
    AbsorbLost(NewTx(1, f, ToClient), f, limits);
    assert [] + [Segment(f, false)] == [Segment(f, false)];
  }

  lemma AbsorbLast(tx: Tx, g: seq<Byte>, limits: Dnp3Application.Limits)
    requires Accepted(g, ToClient) && |g| > HEADER_SIZE && IsFinal(Transport(g)) && tx.buffer == []
    ensures var t := Absorb(tx, g, ToClient, true, limits); var m := Decoded(Payload(g), ToClient, limits);
            t.done && t.buffer == Payload(g) && t.complete == m.complete && t.objects == m.objects
  {
    AcceptedSizes(g, ToClient);
    PayloadSize(g, ToClient);
    hide Accepted, Payload, Decoded, Strippable, IsFinal;
    assert [] + Payload(g) == Payload(g);
  }

  lemma OnlyPending(txs: seq<Tx>, g: seq<Byte>)
    requires |txs| == 1 && |g| > HEADER_SIZE && Continues(txs[0], g, ToClient)
    ensures Pending(txs, g, ToClient) == Some(0)
  {
    hide Continues;
  }

  lemma LastTaken(s: State, tx: Tx, g: seq<Byte>, cfg: Config)
    requires s.txs == [tx] && Accepted(g, ToClient) && |g| > HEADER_SIZE
    requires !IsFirst(Transport(g)) && Continues(tx, g, ToClient)
    ensures Next(s, Receive(g, ToClient, true, true), cfg).txs == [Absorb(tx, g, ToClient, true, cfg.limits)]
  {
    hide Accepted, IsFirst, IsConfirm, Next, Absorb, Continues, Pending;
    StepShape(s, Receive(g, ToClient, true, true), cfg);
    OnlyPending(s.txs, g);
  }

  /** A response, unlike a request, goes on after a segment it had no memory for: when the
      first segment is lost and the last one kept, the transaction ends as done, its buffer
      is the last payload alone, and that is what is decoded. */
  lemma ResponseLosesSegment(f: seq<Byte>, g: seq<Byte>, cfg: Config)
    requires TwoPart(f, g)
    ensures var es := [Receive(f, ToClient, true, false), Receive(g, ToClient, true, true)];
            && (forall e :: e in es ==> Enabled(e))
            && var txs := After(EMPTY, es, cfg).txs;
            && |txs| == 1 && txs[0].done
            && txs[0].buffer == Payload(g) != Payload(f) + Payload(g)
            && Dnp3Application.Message(txs[0].complete, txs[0].objects) == Decoded(Payload(g), ToClient, cfg.limits)
  {
    hide Next, Accepted, Payload, Decoded, IsFirst, IsFinal, SeqNo, After, Absorb;
    var a, b := Receive(f, ToClient, true, false), Receive(g, ToClient, true, true);
    FirstLost(f, cfg);
    PayloadSize(f, ToClient);
    assert [a, b] == [a] + [b] && [a] == [] + [a];
    AfterNone(EMPTY, cfg);
    AfterLast(EMPTY, [], a, cfg);
    AfterLast(EMPTY, [a], b, cfg);
    var tx := NewTx(1, f, ToClient).(segs := [Segment(f, false)]);
    LastTaken(Next(EMPTY, a, cfg), tx, g, cfg);
    AbsorbLast(tx, g, cfg.limits);
  }

  lemma AfterNone(s: State, cfg: Config)
    ensures After(s, [], cfg) == s
  {
  }

  // ----- such a response exists -----

  /** The header of an unconfirmed response with five user octets from station 1 to 0. */
  const RESPONSE_HEADER: seq<Byte> := [0x05, 0x64, 0x0a, 0x44, 0, 0, 1, 0]

  /** The frame a sender makes around these user octets. */
  function ResponseFrame(p: seq<Byte>): seq<Byte> {
    RESPONSE_HEADER + CrcBytes(RESPONSE_HEADER) + AddCrcs(p)
  }

  lemma ResponseHeader(p: seq<Byte>)
    ensures var f := ResponseFrame(p);
            && |f| == HEADER_SIZE + |AddCrcs(p)|
            && f[..HEADER_SIZE] == RESPONSE_HEADER + CrcBytes(RESPONSE_HEADER) && f[HEADER_SIZE..] == AddCrcs(p)
            && f[..8] == RESPONSE_HEADER
  {
    hide CrcBytes, AddCrcs;
  }

  /** What the header announces. */
  lemma HeaderFields(f: seq<Byte>)
    requires |f| >= HEADER_SIZE && f[..8] == RESPONSE_HEADER
    ensures StartBytes(f) && IsUserData(f) && Num(f[2]) == 10
    ensures Source(f) == (1, 0) && Destination(f) == (0, 0)
  {
    assert f[0] == f[..8][0] && f[1] == f[..8][1] && f[2] == f[..8][2] && f[3] == f[..8][3];
    assert f[4] == f[..8][4] && f[5] == f[..8][5] && f[6] == f[..8][6] && f[7] == f[..8][7];
  }

  /** The link layer passes the frame on as it is. */
  lemma ResponseAccepted(p: seq<Byte>)
    requires |p| == 5
    ensures var f := ResponseFrame(p);
            && Examine(f, ToClient) == Take(Handle(f)) && Accepted(f, ToClient)
            && |f| > HEADER_SIZE && Transport(f) == p[0]
            && Source(f) == (1, 0) && Destination(f) == (0, 0)
  {
    hide CheckCRC, CrcBytes, BlocksOk, AddCrcs, StripCrcs, StartBytes, IsUserData, Num, Examine;
    var f := ResponseFrame(p);
    ResponseHeader(p);
    AddCrcsLength(p);
    assert LinkLength(10) == HEADER_SIZE + 7;
    HeaderFields(f);
    CheckedBlock(RESPONSE_HEADER, CrcBytes(RESPONSE_HEADER));
    StripAdd(p);
    ChecksExactly(AddCrcs(p));
    FirstOctet(p);
    assert f[HEADER_SIZE] == f[HEADER_SIZE..][0];
    AcceptedIff(f, ToClient);
  }

  lemma FirstOctet(p: seq<Byte>)
    requires p != []
    ensures AddCrcs(p) != [] && AddCrcs(p)[0] == p[0]
  {
    hide CrcBytes;
  }

  /** Two frames the link layer passes on, the first with FIR alone, the last with FIN. */
  lemma TwoPartExists()
    ensures var f, g := ResponseFrame([0x40, 0xc0, 0x81, 0, 0]), ResponseFrame([0x81, 0xc0, 0x81, 0, 0]);
            && Examine(f, ToClient) == Take(Handle(f)) && Examine(g, ToClient) == Take(Handle(g))
            && TwoPart(f, g)
  {
    hide Accepted, ResponseFrame, Examine;
    ResponseAccepted([0x40, 0xc0, 0x81, 0, 0]);
    ResponseAccepted([0x81, 0xc0, 0x81, 0, 0]);
  }

  // ----- a finished transaction never changes -----

  /** Whatever carries this number is this very transaction. */
  ghost predicate Settled(s: State, tx: Tx) {
    tx.done && tx.num <= s.txMax && forall t :: t in s.txs && t.num == tx.num ==> t == tx
  }

  lemma StepSettled(s: State, e: Event, cfg: Config, tx: Tx)
    requires Settled(s, tx) && Enabled(e)
    ensures Settled(Next(s, e, cfg), tx)
  {
    hide Accepted, BlocksOk, IsFirst, IsConfirm, Absorb;
    match e
    case Receive(f, dir, txOk, memOk) =>
      AcceptedSizes(f, dir);
      AbsorbKeepsIdentity(NewTx(s.txMax + 1, f, dir), f, dir, memOk, cfg.limits);
      var r := Pending(s.txs, f, dir);
      if r.Some? {
        AbsorbKeepsIdentity(s.txs[r.value], f, dir, memOk, cfg.limits);
      }
    case Free(id) =>
  }

  lemma {:induction false} RunSettled(s: State, es: seq<Event>, cfg: Config, tx: Tx)
    requires Settled(s, tx) && forall e :: e in es ==> Enabled(e)
    ensures Settled(After(s, es, cfg), tx)
    decreases |es|
  {
    hide Enabled, Settled, Next;
    if es != [] {
      StepSettled(s, es[0], cfg, tx);
      RunSettled(Next(s, es[0], cfg), es[1..], cfg, tx);
    }
  }

  /** Once done, a transaction keeps its buffer, header and verdict for the rest of the run. */
  lemma DoneNeverChanges(before: seq<Event>, after: seq<Event>, cfg: Config, tx: Tx)
    requires (forall e :: e in before ==> Enabled(e)) && (forall e :: e in after ==> Enabled(e))
    requires tx in After(EMPTY, before, cfg).txs && tx.done
    ensures forall t :: t in After(After(EMPTY, before, cfg), after, cfg).txs && t.num == tx.num ==> t == tx
  {
    hide Enabled, After, TxGood;
    RunGood(EMPTY, before, cfg);
    var s := After(EMPTY, before, cfg);
    forall t | t in s.txs && t.num == tx.num ensures t == tx {
      var i :| 0 <= i < |s.txs| && s.txs[i] == t;
      var j :| 0 <= j < |s.txs| && s.txs[j] == tx;
      assert i == j;
    }
    assert Settled(s, tx);
    RunSettled(s, after, cfg, tx);
  }

  // ----- lookups -----

  /** Reference lookup: the linear search. */
  function Find(txs: seq<Tx>, id: nat): Option<nat> {
    FirstIndex(txs, Numbers(id))
  }

  lemma FindByNumber(txs: seq<Tx>, txMax: nat, id: nat, i: nat)
    requires Numbered(txs, txMax) && i < |txs| && txs[i].num == id + 1
    ensures Find(txs, id) == Some(i)
  {
    var r := Find(txs, id);
    assert r.Some? && txs[r.value].num == id + 1;
  }

  /** In every run: the counter is the list length, the flood flag tells on which side of
      the limit it is, and the cached transaction is one the linear search finds. */
  lemma Bookkeeping(es: seq<Event>, cfg: Config)
    requires forall e :: e in es ==> Enabled(e)
    ensures var s := After(EMPTY, es, cfg);
            && s.unreplied == |s.txs|
            && (s.flooded ==> s.unreplied >= cfg.maxTx)
            && (!s.flooded ==> s.unreplied <= cfg.maxTx)
            && (s.curr.Some? ==> s.curr.value > 0 && Find(s.txs, s.curr.value - 1).Some?)
  {
    hide Enabled, After, TxGood;
    RunGood(EMPTY, es, cfg);
    var s := After(EMPTY, es, cfg);
    if s.curr.Some? {
      var i :| 0 <= i < |s.txs| && s.txs[i].num == s.curr.value;
      FindByNumber(s.txs, s.txMax, s.curr.value - 1, i);
    }
  }

  // ----- iteration -----

  /** One call of the iterator: a transaction and where the next call starts. */
  datatype IterStep = NoTx | Found(index: nat, next: Option<nat>)

  /** First position from p on whose transaction id is at least `min`. */
  function SkipBelow(txs: seq<Tx>, p: nat, min: nat): (q: nat)
    requires p <= |txs|
    ensures p <= q <= |txs|
    ensures forall i :: p <= i < q ==> txs[i].num < min + 1
    ensures q < |txs| ==> txs[q].num >= min + 1
    decreases |txs| - p
  {
    if p == |txs| || txs[p].num >= min + 1 then p else SkipBelow(txs, p + 1, min)
  }

  /** DNP3GetTxIterator; a missing position means the head of the list. */
  function Iterate(txs: seq<Tx>, at: Option<nat>, min: nat, max: nat): (r: IterStep)
    requires at.Some? ==> at.value < |txs|
    ensures r.Found? ==> r.index < |txs| && (r.next.Some? ==> r.next.value == r.index + 1 < |txs|)
    ensures r.Found? && at.Some? ==> at.value <= r.index
  {
    var q := SkipBelow(txs, if at.None? then 0 else at.value, min);
    if q == |txs| || txs[q].num >= max + 1 then NoTx
    else Found(q, if q + 1 < |txs| then Some(q + 1) else None)
  }

  /** Calling the iterator for as long as it promises more. */
  function Enumerate(txs: seq<Tx>, at: Option<nat>, min: nat, max: nat): seq<Tx>
    requires at.Some? ==> at.value < |txs|
    decreases |txs| - (if at.None? then 0 else at.value), at.None?
  {
    match Iterate(txs, at, min, max)
    case NoTx => []
    case Found(i, next) => [txs[i]] + if next.Some? then Enumerate(txs, next, min, max) else []
  }

  /** Reference: the transactions with id in [min, max), in list order. */
  function InRange(txs: seq<Tx>, min: nat, max: nat): seq<Tx> {
    if txs == [] then []
    else (if min + 1 <= txs[0].num < max + 1 then [txs[0]] else []) + InRange(txs[1..], min, max)
  }

  lemma {:induction false} NoneInRange(txs: seq<Tx>, min: nat, max: nat)
    requires forall i :: 0 <= i < |txs| ==> !(min + 1 <= txs[i].num < max + 1)
    ensures InRange(txs, min, max) == []
  {
    if txs != [] {
      NoneInRange(txs[1..], min, max);
    }
  }

  lemma {:induction false} SkipKeeps(txs: seq<Tx>, p: nat, q: nat, min: nat, max: nat)
    requires p <= q <= |txs| && forall i :: p <= i < q ==> txs[i].num < min + 1
    ensures InRange(txs[p..], min, max) == InRange(txs[q..], min, max)
    decreases q - p
  {
    if p < q {
      SkipKeeps(txs, p + 1, q, min, max);
      assert txs[p..][0] == txs[p] && txs[p..][1..] == txs[p + 1..];
    }
  }

  /** Beyond the first transaction out of range nothing is in range. */
  lemma StopsAtMax(txs: seq<Tx>, txMax: nat, q: nat, min: nat, max: nat)
    requires Numbered(txs, txMax) && q <= |txs| && (q < |txs| ==> txs[q].num >= max + 1)
    ensures InRange(txs[q..], min, max) == []
  {
    forall i | 0 <= i < |txs[q..]| ensures txs[q..][i].num >= max + 1 {
      assert txs[q..][i] == txs[q + i];
      assert i == 0 || txs[q].num < txs[q + i].num;
    }
    NoneInRange(txs[q..], min, max);
  }

  lemma InRangeStep(txs: seq<Tx>, q: nat, min: nat, max: nat)
    requires q < |txs| && min + 1 <= txs[q].num < max + 1
    ensures InRange(txs[q..], min, max) == [txs[q]] + InRange(txs[q + 1..], min, max)
  {
    assert txs[q..][0] == txs[q] && txs[q..][1..] == txs[q + 1..];
  }

  lemma EnumerateStep(txs: seq<Tx>, at: Option<nat>, min: nat, max: nat)
    requires at.Some? ==> at.value < |txs|
    ensures var q := SkipBelow(txs, if at.None? then 0 else at.value, min);
            Enumerate(txs, at, min, max) ==
            if q == |txs| || txs[q].num >= max + 1 then []
            else [txs[q]] + if q + 1 < |txs| then Enumerate(txs, Some(q + 1), min, max) else []
  {
    hide SkipBelow;
  }

  lemma {:induction false} EnumerateFrom(txs: seq<Tx>, txMax: nat, at: Option<nat>, min: nat, max: nat)
    requires Numbered(txs, txMax) && (at.Some? ==> at.value < |txs|)
    ensures var p := if at.None? then 0 else at.value; Enumerate(txs, at, min, max) == InRange(txs[p..], min, max)
    decreases |txs| - (if at.None? then 0 else at.value), at.None?
  {
    hide Numbered, InRange, SkipBelow, Enumerate, Iterate;
    EnumerateStep(txs, at, min, max);
    var p := if at.None? then 0 else at.value;
    var q := SkipBelow(txs, p, min);
    SkipKeeps(txs, p, q, min, max);
    if q == |txs| || txs[q].num >= max + 1 {
      StopsAtMax(txs, txMax, q, min, max);
    } else {
      InRangeStep(txs, q, min, max);
      if q + 1 < |txs| {
        EnumerateFrom(txs, txMax, Some(q + 1), min, max);
      } else {
        StopsAtMax(txs, txMax, q + 1, min, max);
      }
    }
  }

  /** In every run, following the iterator from the start yields each transaction with id
      in [min, max) once, in order. */
  lemma IterationTheorem(es: seq<Event>, cfg: Config, min: nat, max: nat)
    requires forall e :: e in es ==> Enabled(e)
    ensures var s := After(EMPTY, es, cfg); Enumerate(s.txs, None, min, max) == InRange(s.txs, min, max)
  {
    hide Enabled, After, TxGood;
    RunGood(EMPTY, es, cfg);
    var s := After(EMPTY, es, cfg);
    EnumerateFrom(s.txs, s.txMax, None, min, max);
    assert s.txs[0..] == s.txs;
  }

  // ----- the state as the source keeps it -----

  lemma {:induction false} FirstIs(txs: seq<Tx>, p: Tx -> bool, i: nat)
    requires i <= |txs| && forall j :: 0 <= j < i ==> !p(txs[j])
    requires i < |txs| ==> p(txs[i])
    ensures FirstIndex(txs, p) == if i < |txs| then Some(i) else None
  {
  }

  /** The part the two handlers share once the transaction is known. */
  method AbsorbSegment(tx: Tx, f: seq<Byte>, dir: Direction, memOk: bool,
                       limits: Dnp3Application.Limits) returns (t: Tx)
    requires Accepted(f, dir) && |f| > HEADER_SIZE
    ensures t == Absorb(tx, f, dir, memOk, limits)
  {
    hide Accepted, StripCrcs, Strippable, IsFinal, Dnp3Application.DecodeObjects, Dnp3Application.TotalPoints;
    AcceptedSizes(f, dir);
    PayloadSize(f, dir);
    var ok, out := Reassemble(f[HEADER_SIZE..], tx.buffer, memOk);
    t := tx.(th := Transport(f), segs := tx.segs + [Segment(f, ok)]);
    if !ok {
      if dir.ToServer? {
        t := t.(done := true);
      }
      return;
    }
    t := t.(buffer := out);
    if |out| > 63 * 0xff {
      t := t.(done := true);
      return;
    }
    if !IsFinal(Transport(f)) {
      return;
    }
    var complete, objects := Dnp3Decoder.DecodeApplicationObjects(Octets(out[AppHeaderSize(dir)..]), limits);
    t := t.(done := true, complete := complete, objects := objects);
  }

  class FlowState {
    const cfg: Config
    var txs: seq<Tx>
    var curr: Option<nat>
    var txMax: nat
    var unreplied: int
    var flooded: bool

    function View(): State
      reads this
    {
      State(txs, curr, txMax, unreplied, flooded)
    }

    constructor (cfg: Config)
      ensures View() == EMPTY && this.cfg == cfg
    {
      this.cfg := cfg;
      txs, curr, txMax, unreplied, flooded := [], None, 0, 0, false;
    }

    /** DNP3TxAlloc. */
    method AllocTx(tx: Tx)
      requires tx.num == txMax + 1
      modifies this
      ensures View() == Dnp3Transport.AllocTx(old(View()), tx, cfg.maxTx)
    {
      txMax := txMax + 1;
      unreplied := unreplied + 1;
      curr := Some(tx.num);
      txs := txs + [tx];
      if unreplied > cfg.maxTx && !flooded {
        flooded := true;
      }
    }

    /** DNP3StateTxFree. */
    method FreeTx(id: nat)
      modifies this
      ensures View() == Dnp3Transport.FreeTx(old(View()), id, cfg.maxTx)
    {
      var i := 0;
      while i < |txs|
        invariant 0 <= i <= |txs| && View() == old(View())
        invariant forall j :: 0 <= j < i ==> txs[j].num != id + 1
      {
        if txs[i].num == id + 1 {
          FirstIs(txs, Numbers(id), i);
          if curr == Some(id + 1) {
            curr := None;
          }
          unreplied := unreplied - 1;
          if flooded && unreplied < cfg.maxTx {
            flooded := false;
          }
          txs := txs[..i] + txs[i + 1..];
          return;
        }
        i := i + 1;
      }
      FirstIs(txs, Numbers(id), i);
    }

    /** DNP3GetTx: the cached transaction first, then the search. */
    method GetTx(id: nat) returns (r: Option<Tx>)
      requires Numbered(txs, txMax) && Known(txs, curr)
      ensures r == match Find(txs, id) case None => None case Some(i) => Some(txs[i])
    {
      if curr == Some(id + 1) {
        ghost var k :| 0 <= k < |txs| && txs[k].num == id + 1;
        FindByNumber(txs, txMax, id, k);
        var tx :| tx in txs && tx.num == id + 1;
        return Some(tx);
      }
      var i := 0;
      while i < |txs|
        invariant 0 <= i <= |txs|
        invariant forall j :: 0 <= j < i ==> txs[j].num != id + 1
      {
        if txs[i].num == id + 1 {
          FirstIs(txs, Numbers(id), i);
          return Some(txs[i]);
        }
        i := i + 1;
      }
      FirstIs(txs, Numbers(id), i);
      return None;
    }

    /** DNP3GetTxIterator. */
    method NextTx(at: Option<nat>, min: nat, max: nat) returns (r: IterStep)
      requires at.Some? ==> at.value < |txs|
      ensures r == Iterate(txs, at, min, max)
    {
      var p := if at.None? then 0 else at.value;
      if p == |txs| {
        return NoTx;
      }
      while txs[p].num < min + 1
        invariant p < |txs| && Iterate(txs, at, min, max) == Iterate(txs, Some(p), min, max)
        decreases |txs| - p
      {
        p := p + 1;
        if p == |txs| {
          return NoTx;
        }
      }
      if txs[p].num >= max + 1 {
        return NoTx;
      }
      return Found(p, if p + 1 < |txs| then Some(p + 1) else None);
    }

    /** DNP3HandleUserDataRequest and DNP3HandleUserDataResponse. */
    method HandleUserData(f: seq<Byte>, dir: Direction, txOk: bool, memOk: bool)
      requires Accepted(f, dir) && |f| > HEADER_SIZE + 2
      modifies this
      ensures View() == Dnp3Transport.HandleUserData(old(View()), f, dir, cfg, txOk, memOk)
    {
      hide Accepted, BlocksOk, IsFirst, IsConfirm, Absorb;
      var checked := CheckUserDataCRCs(f[HEADER_SIZE..]);
      if !checked {
        return;
      }
      var th := Transport(f);
      if !IsFirst(th) {
        var i := 0;
        while i < |txs| && !Continues(txs[i], f, dir)
          invariant 0 <= i <= |txs|
          invariant forall j :: 0 <= j < i ==> !Continues(txs[j], f, dir)
        {
          i := i + 1;
        }
        FirstIs(txs, ContinuedBy(f, dir), i);
        if i == |txs| {
          return;
        }
        var tx := AbsorbSegment(txs[i], f, dir, memOk, cfg.limits);
        txs := txs[i := tx];
      } else {
        if dir.ToServer? && IsConfirm(f) {
          return;
        }
        if !txOk {
          return;
        }
        var tx := AbsorbSegment(NewTx(txMax + 1, f, dir), f, dir, memOk, cfg.limits);
        AbsorbKeepsIdentity(NewTx(txMax + 1, f, dir), f, dir, memOk, cfg.limits);
        AllocTx(tx);
      }
    }
  }
}
