/**
 Where the segments of DNP3 transactions come from: every transaction of a run is traced
 back to the events that received its segments, and no segment it waits for goes past it.
 */
module Dnp3Trace {
  import opened Common
  import opened Dnp3Framing
  import opened Dnp3Link
  import opened Dnp3Transport

  /** The state before event k. */
  function StateAt(es: seq<Event>, k: nat, cfg: Config): State
    requires k <= |es| && forall e :: e in es ==> Enabled(e)
  {
    After(EMPTY, es[..k], cfg)
  }

  // ----- which transactions there are -----

  /** The event starts a transaction. */
  predicate Creates(e: Event) {
    && e.Receive? && e.txOk && |e.frame| > HEADER_SIZE + 2
    && IsFirst(Transport(e.frame)) && !(e.dir.ToServer? && IsConfirm(e.frame))
  }

  function Created(es: seq<Event>): nat {
    if es == [] then 0 else Created(es[..|es| - 1]) + if Creates(es[|es| - 1]) then 1 else 0
  }

  /** What becomes of the transactions in one step. */
  lemma StepShape(s: State, e: Event, cfg: Config)
    requires Enabled(e)
    ensures var s' := Next(s, e, cfg);
            && s'.txMax == s.txMax + (if Creates(e) then 1 else 0)
            && (Creates(e) ==>
                  && |e.frame| > HEADER_SIZE
                  && var tx := NewTx(s.txMax + 1, e.frame, e.dir);
                  s'.txs == s.txs + [Absorb(tx, e.frame, e.dir, e.memOk, cfg.limits)])
            && (e.Receive? && !Creates(e) ==>
                  && |e.frame| > HEADER_SIZE
                  && var r := Pending(s.txs, e.frame, e.dir);
                  s'.txs == if IsFirst(Transport(e.frame)) || r.None? then s.txs
                            else s.txs[r.value := Absorb(s.txs[r.value], e.frame, e.dir, e.memOk, cfg.limits)])
            && (e.Free? ==>
                  var r := FirstIndex(s.txs, Numbers(e.id));
                  s'.txs == if r.None? then s.txs else s.txs[..r.value] + s.txs[r.value + 1..])
  {
    hide BlocksOk, IsFirst, IsConfirm, Absorb, StripCrcs;
    if e.Receive? {
      AcceptedSizes(e.frame, e.dir);
    }
  }

  lemma LastEvent(es: seq<Event>, cfg: Config)
    requires es != [] && forall e :: e in es ==> Enabled(e)
    ensures var n := |es| - 1; After(EMPTY, es, cfg) == Next(StateAt(es, n, cfg), es[n], cfg)
  {
    hide Enabled, After, Next;
    var n := |es| - 1;
    assert es == es[..n] + [es[n]];
    AfterLast(EMPTY, es[..n], es[n], cfg);
  }

  lemma {:induction false} CreatedCount(es: seq<Event>, cfg: Config)
    requires forall e :: e in es ==> Enabled(e)
    ensures After(EMPTY, es, cfg).txMax == Created(es)
  {
    if es != [] {
      hide Enabled, After, Next, Creates;
      CreatedCount(es[..|es| - 1], cfg);
      LastEvent(es, cfg);
      StepShape(StateAt(es, |es| - 1, cfg), es[|es| - 1], cfg);
    }
  }

  ghost predicate HasNumber(s: State, num: nat) { Known(s.txs, Some(num)) }

  lemma FreeKeepsNumber(s: State, e: Event, cfg: Config, num: nat)
    requires e.Free? && num > 0 && e != Free(num - 1) && HasNumber(s, num)
    ensures HasNumber(Next(s, e, cfg), num)
  {
    hide Next, Known;
    StepShape(s, e, cfg);
    var r := FirstIndex(s.txs, Numbers(e.id));
    if r.Some? {
      RemoveKnown(s.txs, r.value, Some(num));
    }
  }

  lemma ReceiveKeepsNumber(s: State, e: Event, cfg: Config, num: nat)
    requires Enabled(e) && e.Receive? && HasNumber(s, num)
    ensures HasNumber(Next(s, e, cfg), num)
  {
    hide Enabled, Next, Creates, Absorb, IsFirst, Continues;
    StepShape(s, e, cfg);
    var i :| 0 <= i < |s.txs| && s.txs[i].num == num;
    AbsorbKeepsIdentity(s.txs[i], e.frame, e.dir, e.memOk, cfg.limits);
    assert Next(s, e, cfg).txs[i].num == num;
  }

  lemma StepKeepsNumber(s: State, e: Event, cfg: Config, num: nat)
    requires Enabled(e) && num > 0 && e != Free(num - 1)
    requires HasNumber(s, num)
    ensures HasNumber(Next(s, e, cfg), num)
  {
    hide Enabled, Next, HasNumber;
    if e.Free? {
      FreeKeepsNumber(s, e, cfg, num);
    } else {
      ReceiveKeepsNumber(s, e, cfg, num);
    }
  }

  /** A transaction an event started is there until it is freed. */
  lemma {:induction false} CreatedStays(es: seq<Event>, cfg: Config, k: nat)
    requires k < |es| && forall e :: e in es ==> Enabled(e)
    requires Creates(es[k]) && forall j :: k < j < |es| ==> es[j] != Free(Created(es[..k]))
    ensures HasNumber(After(EMPTY, es, cfg), Created(es[..k]) + 1)
  {
    hide Enabled, After, Next, Creates, HasNumber, Created, Absorb;
    var n := |es| - 1;
    LastEvent(es, cfg);
    var init := es[..n];
    if k == n {
      CreatedCount(init, cfg);
      StepShape(StateAt(es, n, cfg), es[n], cfg);
      NewNumber(StateAt(es, n, cfg), es[n], cfg);
    } else {
      assert init[..k] == es[..k];
      CreatedStays(init, cfg, k);
      StepKeepsNumber(After(EMPTY, init, cfg), es[n], cfg, Created(es[..k]) + 1);
    }
  }

  lemma NewNumber(s: State, e: Event, cfg: Config)
    requires Enabled(e) && Creates(e)
    ensures HasNumber(Next(s, e, cfg), s.txMax + 1)
  {
    hide Enabled, Next, Creates, Absorb;
    StepShape(s, e, cfg);
    AbsorbKeepsIdentity(NewTx(s.txMax + 1, e.frame, e.dir), e.frame, e.dir, e.memOk, cfg.limits);
    assert Next(s, e, cfg).txs[|s.txs|].num == s.txMax + 1;
  }

  // ----- where their segments come from -----

  /** The event received the segment, and memory was as the segment says. */
  predicate SeenAs(e: Event, x: Segment, dir: Direction) {
    e.Receive? && e.dir == dir && e.frame == x.frame && e.memOk == x.kept
  }

  /** The segments of the transaction were received at these positions, in this order. */
  ghost predicate Traced(es: seq<Event>, tx: Tx, at: seq<nat>) {
    && |at| == |tx.segs|
    && (forall i, j :: 0 <= i < j < |at| ==> at[i] < at[j])
    && (forall i :: 0 <= i < |at| ==> at[i] < |es| && SeenAs(es[at[i]], tx.segs[i], tx.Dir()))
  }

  /** After its i-th segment the transaction is open and the event brings the next one. */
  predicate Wants(tx: Tx, i: nat, e: Event)
    requires i < |tx.segs|
  {
    && (i + 1 < |tx.segs| || !tx.done)
    && e.Receive? && e.dir == tx.Dir()
    && |e.frame| > HEADER_SIZE && !IsFirst(Transport(e.frame))
    && Source(e.frame) == tx.src && Destination(e.frame) == tx.dst
    && Follows(tx.segs[i].frame, e.frame)
  }

  /** The segment of event k continued an older transaction. */
  ghost predicate TakenEarlier(es: seq<Event>, cfg: Config, k: nat, num: nat)
    requires k < |es| && forall e :: e in es ==> Enabled(e)
  {
    && es[k].Receive? && |es[k].frame| > HEADER_SIZE
    && exists t :: t in StateAt(es, k, cfg).txs && t.num < num && Continues(t, es[k].frame, es[k].dir)
  }

  function Until(at: seq<nat>, i: nat, end: nat): nat { if i + 1 < |at| then at[i + 1] else end }

  /** Between its segments nothing it waits for went past it, unless to an older one. */
  ghost predicate NothingMissed(es: seq<Event>, cfg: Config, tx: Tx, at: seq<nat>)
    requires |at| == |tx.segs| && forall e :: e in es ==> Enabled(e)
  {
    forall i, k :: 0 <= i < |at| && at[i] < k < Until(at, i, |es|) && k < |es| && Wants(tx, i, es[k]) ==>
      TakenEarlier(es, cfg, k, tx.num)
  }

  /** The transaction is the one its first segment started. */
  ghost predicate Origin(es: seq<Event>, tx: Tx, at: seq<nat>) {
    at != [] && at[0] < |es| && Creates(es[at[0]]) && tx.num == Created(es[..at[0]]) + 1
  }

  /** How a transaction came into the state: it was there, was extended, or is new. */
  datatype Arrival = Kept(index: nat) | Extended(index: nat) | New

  ghost predicate CameBy(s: State, e: Event, cfg: Config, tx: Tx, how: Arrival) {
    match how
    case Kept(j) =>
      && j < |s.txs| && s.txs[j] == tx
      && (e.Receive? && |e.frame| > HEADER_SIZE && !IsFirst(Transport(e.frame)) && !Creates(e) ==>
            Pending(s.txs, e.frame, e.dir) != Some(j))
    case Extended(j) =>
      && e.Receive? && |e.frame| > HEADER_SIZE && !IsFirst(Transport(e.frame))
      && Pending(s.txs, e.frame, e.dir) == Some(j) && j < |s.txs|
      && tx == Absorb(s.txs[j], e.frame, e.dir, e.memOk, cfg.limits)
    case New =>
      && Creates(e) && tx == Absorb(NewTx(s.txMax + 1, e.frame, e.dir), e.frame, e.dir, e.memOk, cfg.limits)
  }

  lemma Whence(s: State, e: Event, cfg: Config, tx: Tx) returns (how: Arrival)
    requires Enabled(e) && tx in Next(s, e, cfg).txs
    ensures CameBy(s, e, cfg, tx, how)
  {
    hide Enabled, Next, Absorb, IsFirst, IsConfirm;
    StepShape(s, e, cfg);
    var s' := Next(s, e, cfg);
    var j :| 0 <= j < |s'.txs| && s'.txs[j] == tx;
    if e.Free? {
      var r := FirstIndex(s.txs, Numbers(e.id));
      return Kept(if r.Some? && j >= r.value then j + 1 else j);
    } else if Creates(e) {
      return if j < |s.txs| then Kept(j) else New;
    } else if !IsFirst(Transport(e.frame)) && Pending(s.txs, e.frame, e.dir) == Some(j) {
      return Extended(j);
    } else {
      return Kept(j);
    }
  }

  lemma EarlierStays(es: seq<Event>, cfg: Config, k: nat, num: nat)
    requires k + 1 < |es| && forall e :: e in es ==> Enabled(e)
    requires TakenEarlier(es[..|es| - 1], cfg, k, num)
    ensures TakenEarlier(es, cfg, k, num)
  {
    hide Enabled, After, Continues;
    assert es[..|es| - 1][..k] == es[..k];
  }

  lemma OriginStays(es: seq<Event>, tx: Tx, at: seq<nat>)
    requires es != [] && Origin(es[..|es| - 1], tx, at)
    ensures Origin(es, tx, at)
  {
    hide Creates;
    assert es[..|es| - 1][..at[0]] == es[..at[0]];
  }

  /** An open transaction that an event continues but that stays as it is has lost it to an
      older one. */
  lemma LostToOlder(s: State, e: Event, cfg: Config, tx: Tx, j: nat)
    requires StateGood(s, cfg) && Enabled(e) && CameBy(s, e, cfg, tx, Kept(j)) && tx.segs != []
    requires Wants(tx, |tx.segs| - 1, e)
    ensures |e.frame| > HEADER_SIZE
    ensures exists t :: t in s.txs && t.num < tx.num && Continues(t, e.frame, e.dir)
  {
    hide Enabled, IsFirst, IsConfirm, SeqNo, Accepted, Consecutive, Assembled, Ended, DecodedOk;
    assert TxGood(tx, cfg.limits);
    assert Continues(tx, e.frame, e.dir);
    var r := Pending(s.txs, e.frame, e.dir);
    assert ContinuedBy(e.frame, e.dir)(s.txs[j]);
    assert r.Some? && r.value < j;
    assert s.txs[r.value] in s.txs;
  }

  lemma KeptTraced(es: seq<Event>, cfg: Config, tx: Tx, at: seq<nat>, j: nat)
    requires es != [] && forall e :: e in es ==> Enabled(e)
    requires StateGood(StateAt(es, |es| - 1, cfg), cfg)
    requires CameBy(StateAt(es, |es| - 1, cfg), es[|es| - 1], cfg, tx, Kept(j))
    requires Traced(es[..|es| - 1], tx, at) && NothingMissed(es[..|es| - 1], cfg, tx, at)
    ensures Traced(es, tx, at) && NothingMissed(es, cfg, tx, at)
  {
    hide Enabled, After, StateGood, Wants, SeenAs, CameBy, TakenEarlier;
    var n := |es| - 1;
    var init := es[..n];
    forall i, k | 0 <= i < |at| && at[i] < k < Until(at, i, |es|) && k < |es| && Wants(tx, i, es[k])
      ensures TakenEarlier(es, cfg, k, tx.num)
    {
      if k < n {
        assert init[k] == es[k];
        assert TakenEarlier(init, cfg, k, tx.num);
        EarlierStays(es, cfg, k, tx.num);
      } else {
        assert i == |tx.segs| - 1;
        LostNow(es, cfg, tx, j);
      }
    }
  }

  lemma LostNow(es: seq<Event>, cfg: Config, tx: Tx, j: nat)
    requires es != [] && forall e :: e in es ==> Enabled(e)
    requires StateGood(StateAt(es, |es| - 1, cfg), cfg)
    requires CameBy(StateAt(es, |es| - 1, cfg), es[|es| - 1], cfg, tx, Kept(j))
    requires tx.segs != [] && Wants(tx, |tx.segs| - 1, es[|es| - 1])
    ensures TakenEarlier(es, cfg, |es| - 1, tx.num)
  {
    hide Enabled, After, StateGood, CameBy, Continues;
    LostToOlder(StateAt(es, |es| - 1, cfg), es[|es| - 1], cfg, tx, j);
  }

  lemma AbsorbTraces(tx: Tx, e: Event, cfg: Config)
    requires Enabled(e) && e.Receive? && |e.frame| > HEADER_SIZE
    ensures var t := Absorb(tx, e.frame, e.dir, e.memOk, cfg.limits);
            && t.segs == tx.segs + [Segment(e.frame, e.memOk)]
            && t.num == tx.num && t.isRequest == tx.isRequest && t.src == tx.src && t.dst == tx.dst
  {
    hide Accepted, Decoded, Payload, Strippable, IsFinal;
    AcceptedSizes(e.frame, e.dir);
  }

  lemma WantedBefore(tx: Tx, t: Tx, i: nat, e: Event)
    requires |t.segs| == |tx.segs| + 1 && t.segs[..|tx.segs|] == tx.segs
    requires t.isRequest == tx.isRequest && t.src == tx.src && t.dst == tx.dst && !tx.done
    requires i < |tx.segs| && Wants(t, i, e)
    ensures Wants(tx, i, e)
  {
    hide IsFirst, Follows;
    assert t.segs[i] == t.segs[..|tx.segs|][i];
  }

  lemma ExtendedTraced(es: seq<Event>, cfg: Config, tx: Tx, t: Tx, at: seq<nat>)
    requires es != [] && (forall e :: e in es ==> Enabled(e)) && |at| > 0
    requires es[|es| - 1].Receive? && |es[|es| - 1].frame| > HEADER_SIZE && es[|es| - 1].dir == tx.Dir() && !tx.done
    requires t == Absorb(tx, es[|es| - 1].frame, es[|es| - 1].dir, es[|es| - 1].memOk, cfg.limits)
    requires Traced(es[..|es| - 1], tx, at) && NothingMissed(es[..|es| - 1], cfg, tx, at)
    ensures Traced(es, t, at + [|es| - 1]) && NothingMissed(es, cfg, t, at + [|es| - 1])
  {
    hide Enabled, After, Wants, Absorb, TakenEarlier;
    var n := |es| - 1;
    var init, all := es[..n], at + [n];
    AbsorbTraces(tx, es[n], cfg);
    assert t.segs[..|tx.segs|] == tx.segs;
    forall i, k | 0 <= i < |all| && all[i] < k < Until(all, i, |es|) && k < |es| && Wants(t, i, es[k])
      ensures TakenEarlier(es, cfg, k, t.num)
    {
      assert i < |at| && all[i] == at[i] && k < n && k < Until(at, i, n);
      WantedBefore(tx, t, i, es[k]);
      assert init[k] == es[k];
      assert TakenEarlier(init, cfg, k, tx.num);
      EarlierStays(es, cfg, k, tx.num);
    }
  }

  lemma NewTraced(es: seq<Event>, cfg: Config, tx: Tx)
    requires es != [] && forall e :: e in es ==> Enabled(e)
    requires CameBy(StateAt(es, |es| - 1, cfg), es[|es| - 1], cfg, tx, New)
    ensures Traced(es, tx, [|es| - 1]) && NothingMissed(es, cfg, tx, [|es| - 1]) && Origin(es, tx, [|es| - 1])
  {
    hide Enabled, After, Wants, Absorb, TakenEarlier, IsFirst, IsConfirm;
    var n, e := |es| - 1, es[|es| - 1];
    AbsorbTraces(NewTx(StateAt(es, n, cfg).txMax + 1, e.frame, e.dir), e, cfg);
    CreatedCount(es[..n], cfg);
  }

  /** Every transaction of every run is traced to the events that received its segments:
      the first of them started it, and between them nothing it waited for went past it
      unless an older transaction took it. */
  lemma {:induction false} Trace(es: seq<Event>, cfg: Config, tx: Tx) returns (at: seq<nat>)
    requires forall e :: e in es ==> Enabled(e)
    requires tx in After(EMPTY, es, cfg).txs
    ensures Traced(es, tx, at) && NothingMissed(es, cfg, tx, at) && Origin(es, tx, at)
    decreases |es|
  {
    hide Enabled, Next, StateGood, Traced, NothingMissed, Origin, Absorb;
    var n := |es| - 1;
    LastEvent(es, cfg);
    var s, init := StateAt(es, n, cfg), es[..n];
    EmptyGood(cfg);
    RunGood(EMPTY, init, cfg);
    hide After;
    var how := Whence(s, es[n], cfg, tx);
    match how {
      case Kept(j) =>
        at := Trace(init, cfg, tx);
        KeptTraced(es, cfg, tx, at, j);
        OriginStays(es, tx, at);
      case Extended(j) =>
        var was := s.txs[j];
        at := Trace(init, cfg, was);
        TracedSize(init, was, at);
        ExtendedTraced(es, cfg, was, tx, at);
        OriginStays(es, was, at);
        AbsorbTraces(was, es[n], cfg);
        OriginExtended(es, was, tx, at, n);
        at := at + [n];
      case New =>
        at := [n];
        NewTraced(es, cfg, tx);
    }
  }

  lemma EmptyGood(cfg: Config)
    ensures StateGood(EMPTY, cfg)
  {
  }

  lemma TracedSize(es: seq<Event>, tx: Tx, at: seq<nat>)
    requires Origin(es, tx, at)
    ensures |at| > 0
  {
  }

  lemma OriginExtended(es: seq<Event>, tx: Tx, t: Tx, at: seq<nat>, n: nat)
    requires Origin(es, tx, at) && t.num == tx.num
    ensures Origin(es, t, at + [n])
  {
  }
}
