/**
 Protocol detection by probing parsers in one direction of a flow: which parsers a packet
 is shown to, which give up, and when probing is done.  Midstream pickup is off.
 */
module Probing {
  import opened Common
  import opened ProbeRegistry
  import opened ProbeMask

  const ALPROTO_FAILED: nat := 1

  /** A packet's data: its length, and what each parser would say about it, by position in
      the masked list and in the unmasked one. */
  datatype Packet = Packet(len: nat, answer: nat -> nat, answerUnmasked: nat -> nat)

  /** The parsers for this direction: by destination port, then by source port. */
  datatype Setup = Setup(toServer: bool, dp: seq<Element>, sp: seq<Element>, protoMax: nat) {
    function All(): seq<Element> { dp + sp }
  }

  /** AppProtoIsValid. */
  predicate IsValid(alproto: nat, protoMax: nat) { ALPROTO_FAILED < alproto < protoMax }

  /** What calling the element yields; without a parser for the direction it is unknown. */
  function Reply(e: Element, toServer: bool, answer: nat): nat {
    if (if toServer then e.toServer else e.toClient).Some? then answer else ALPROTO_UNKNOWN
  }

  /** The parser is of no more use for this flow. */
  predicate GivesUp(e: Element, toServer: bool, answer: nat, len: nat) {
    Reply(e, toServer, answer) == ALPROTO_FAILED || (e.maxDepth != 0 && len > e.maxDepth)
  }

  /** What happens at one parser: it is passed over, it names a protocol, or it does not,
      and the mask may grow. */
  datatype Turn = Skip | Match(alproto: nat) | Miss(mask: nat)

  function Show(e: Element, n: nat, c: Setup, p: Packet, mask: nat): Turn {
    if p.len < e.minDepth || Masked(mask, n) then Skip
    else
      var reply := Reply(e, c.toServer, p.answer(n));
      if IsValid(reply, c.protoMax) then Match(reply)
      else Miss(if GivesUp(e, c.toServer, p.answer(n), p.len) then WithBit(mask, n) else mask)
  }

  /** Result of a walk: protocol, mask, and the positions of the parsers called. */
  datatype Walked = Walked(alproto: nat, mask: nat, calls: seq<nat>)

  /** PPGetProto with a mask; `n` parsers were walked before. */
  function Walk(pes: seq<Element>, n: nat, c: Setup, p: Packet, mask: nat): Walked
    decreases |pes|
  {
    if pes == [] then Walked(ALPROTO_UNKNOWN, mask, [])
    else
      match Show(pes[0], n, c, p, mask)
      case Skip => Walk(pes[1..], n + 1, c, p, mask)
      case Match(alproto) => Walked(alproto, mask, [n])
      case Miss(next) => var w := Walk(pes[1..], n + 1, c, p, next); w.(calls := [n] + w.calls)
  }

  /** PPGetProto without a mask. */
  function WalkUnmasked(pes: seq<Element>, n: nat, c: Setup, p: Packet): nat
    decreases |pes|
  {
    if pes == [] then ALPROTO_UNKNOWN
    else if p.len < pes[0].minDepth then WalkUnmasked(pes[1..], n + 1, c, p)
    else
      var reply := Reply(pes[0], c.toServer, p.answerUnmasked(n));
      if IsValid(reply, c.protoMax) then reply else WalkUnmasked(pes[1..], n + 1, c, p)
  }

  /** The flow's fields for the direction. */
  datatype Flow = Flow(mask: nat, done: bool)

  datatype Detected = Detected(alproto: nat, flow: Flow, calls: seq<nat>)

  /** AppLayerProtoDetectPPGetProto for one packet; `pe0` are the parsers known from the
      other direction or from a protocol change. */
  function Detect(c: Setup, pe0: seq<Element>, f: Flow, p: Packet): Detected {
    if c.dp == [] && c.sp == [] && pe0 == [] then Detected(ALPROTO_UNKNOWN, f.(done := true), [])
    else
      var known := WalkUnmasked(pe0, 0, c, p);
      if IsValid(known, c.protoMax) then Detected(known, f, [])
      else
        var w := Walk(c.dp, 0, c, p, f.mask);
        if IsValid(w.alproto, c.protoMax) then Detected(w.alproto, f.(mask := w.mask), w.calls)
        else
          var v := Walk(c.sp, |c.dp|, c, p, w.mask);
          var calls := w.calls + v.calls;
          if IsValid(v.alproto, c.protoMax) then Detected(v.alproto, f.(mask := v.mask), calls)
          else Detected(v.alproto, Flow(v.mask, f.done || v.mask == Pow2(|c.dp| + |c.sp|) - 1), calls)
  }

  // ----- the two lists are walked as one -----

  lemma {:induction false} WalkJoined(a: seq<Element>, b: seq<Element>, n: nat, c: Setup, p: Packet, mask: nat)
    ensures var w := Walk(a, n, c, p, mask);
            var v := Walk(b, n + |a|, c, p, w.mask);
            Walk(a + b, n, c, p, mask) ==
            if IsValid(w.alproto, c.protoMax) then w else v.(calls := w.calls + v.calls)
    decreases |a|
  {
    if a == [] {
      assert a + b == b;
      var v := Walk(b, n, c, p, mask);
      assert [] + v.calls == v.calls;
    } else {
      assert (a + b)[0] == a[0] && (a + b)[1..] == a[1..] + b;
      MatchValid(a[0], n, c, p, mask);
      hide Show, IsValid;
      match Show(a[0], n, c, p, mask)
      case Skip => WalkJoined(a[1..], b, n + 1, c, p, mask);
      case Match(_) =>
      case Miss(next) =>
        WalkJoined(a[1..], b, n + 1, c, p, next);
        var w := Walk(a[1..], n + 1, c, p, next);
        var v := Walk(b, n + |a|, c, p, w.mask);
        assert ([n] + w.calls) + v.calls == [n] + (w.calls + v.calls);
    }
  }

  lemma MatchValid(e: Element, n: nat, c: Setup, p: Packet, mask: nat)
    ensures var t := Show(e, n, c, p, mask); t.Match? ==> IsValid(t.alproto, c.protoMax)
  {
  }

  lemma {:induction false} WalkUnknown(pes: seq<Element>, n: nat, c: Setup, p: Packet, mask: nat)
    ensures var a := Walk(pes, n, c, p, mask).alproto; a == ALPROTO_UNKNOWN || IsValid(a, c.protoMax)
    decreases |pes|
  {
    if pes != [] {
      MatchValid(pes[0], n, c, p, mask);
      hide Show, IsValid;
      match Show(pes[0], n, c, p, mask)
      case Skip => WalkUnknown(pes[1..], n + 1, c, p, mask);
      case Match(_) =>
      case Miss(next) => WalkUnknown(pes[1..], n + 1, c, p, next);
    }
  }

  // ----- one packet without a match -----

  /** The packet makes the k-th parser give up: it is shown to it, and that is the end. */
  predicate Ends(pes: seq<Element>, c: Setup, p: Packet, k: nat)
    requires k < |pes|
  {
    p.len >= pes[k].minDepth && GivesUp(pes[k], c.toServer, p.answer(k), p.len)
  }

  /** After a walk without a match from position n on, the i-th parser is masked if it was
      or if this packet ends it, and exactly the unmasked parsers with enough data were
      called. */
  lemma {:induction false} WalkMasks(all: seq<Element>, n: nat, c: Setup, p: Packet, mask: nat, i: nat)
    requires n <= |all| && Walk(all[n..], n, c, p, mask).alproto == ALPROTO_UNKNOWN
    ensures var w := Walk(all[n..], n, c, p, mask);
            && (Masked(w.mask, i) <==> Masked(mask, i) || (n <= i < |all| && Ends(all, c, p, i)))
            && (i in w.calls <==> n <= i < |all| && p.len >= all[i].minDepth && !Masked(mask, i))
    decreases |all| - n
  {
    if n < |all| {
      assert all[n..][0] == all[n] && all[n..][1..] == all[n + 1..];
      ShowMasks(all, n, c, p, mask, i);
      MatchValid(all[n], n, c, p, mask);
      hide Show, Masked, Ends;
      match Show(all[n], n, c, p, mask)
      case Skip => WalkMasks(all, n + 1, c, p, mask, i);
      case Match(_) =>
      case Miss(next) => WalkMasks(all, n + 1, c, p, next, i);
    } else {
      assert all[n..] == [];
    }
  }

  lemma ShowMasks(all: seq<Element>, n: nat, c: Setup, p: Packet, mask: nat, i: nat)
    requires n < |all|
    ensures var t := Show(all[n], n, c, p, mask);
            && (t.Skip? <==> Masked(mask, n) || p.len < all[n].minDepth)
            && (t.Miss? ==> (Masked(t.mask, i) <==> Masked(mask, i) || (i == n && Ends(all, c, p, n))))
  {
    hide Masked, WithBit, GivesUp, Reply, IsValid;
    MaskedOr(mask, n, i);
  }

  lemma WalkEmpty(n: nat, c: Setup, p: Packet, mask: nat)
    ensures Walk([], n, c, p, mask) == Walked(ALPROTO_UNKNOWN, mask, [])
  {
  }

  lemma {:induction false} WalkBounded(all: seq<Element>, n: nat, c: Setup, p: Packet, mask: nat)
    requires n <= |all| && mask < Pow2(|all|)
    ensures Walk(all[n..], n, c, p, mask).mask < Pow2(|all|)
    decreases |all| - n
  {
    if n < |all| {
      assert all[n..][0] == all[n] && all[n..][1..] == all[n + 1..];
      hide Masked, WithBit, GivesUp, Reply, IsValid, Pow2;
      match Show(all[n], n, c, p, mask)
      case Skip => WalkBounded(all, n + 1, c, p, mask);
      case Match(_) =>
      case Miss(next) =>
        WithBitBelow(mask, n, |all|);
        WalkBounded(all, n + 1, c, p, next);
    } else {
      assert all[n..] == [];
    }
  }

  // ----- runs -----

  /** A packet of the flow, with the parsers known for it from elsewhere. */
  datatype Arrival = Arrival(packet: Packet, pe0: seq<Element>)

  /** Probing is tried for a packet unless it is done. */
  function Step(c: Setup, f: Flow, a: Arrival): Detected {
    if f.done then Detected(ALPROTO_UNKNOWN, f, []) else Detect(c, a.pe0, f, a.packet)
  }

  function After(c: Setup, es: seq<Arrival>): Flow {
    if es == [] then Flow(0, false) else Step(c, After(c, es[..|es| - 1]), es[|es| - 1]).flow
  }

  /** No packet of the run yields a protocol. */
  ghost predicate Quiet(c: Setup, es: seq<Arrival>) {
    es == [] ||
    (Quiet(c, es[..|es| - 1]) && Step(c, After(c, es[..|es| - 1]), es[|es| - 1]).alproto == ALPROTO_UNKNOWN)
  }

  /** Some packet of the run was shown to the k-th parser and made it give up. */
  ghost predicate Ended(c: Setup, es: seq<Arrival>, k: nat)
    requires k < |c.All()|
  {
    exists i :: 0 <= i < |es| && Ends(c.All(), c, es[i].packet, k)
  }

  /** What holds after every run without a match. */
  ghost predicate MaskOk(c: Setup, es: seq<Arrival>, f: Flow) {
    && f.mask < Pow2(|c.All()|)
    && (forall k :: 0 <= k < |c.All()| ==> (Masked(f.mask, k) <==> Ended(c, es, k)))
    && (f.done <==> es != [] && forall k :: 0 <= k < |c.All()| ==> Ended(c, es, k))
  }

  lemma EndedStep(c: Setup, es: seq<Arrival>, k: nat)
    requires es != [] && k < |c.All()|
    ensures Ended(c, es, k) <==> Ended(c, es[..|es| - 1], k) || Ends(c.All(), c, es[|es| - 1].packet, k)
  {
    hide Ends;
    var init := es[..|es| - 1];
    if Ended(c, init, k) {
      var i :| 0 <= i < |init| && Ends(c.All(), c, init[i].packet, k);
      assert es[i] == init[i];
    }
    if Ended(c, es, k) {
      var i :| 0 <= i < |es| && Ends(c.All(), c, es[i].packet, k);
      assert i < |init| ==> init[i] == es[i];
    }
  }

  /** A packet without a match is one walk over all parsers. */
  lemma DetectQuiet(c: Setup, pe0: seq<Element>, f: Flow, p: Packet)
    requires Detect(c, pe0, f, p).alproto == ALPROTO_UNKNOWN
    requires c.All() == [] ==> f.mask == 0
    ensures var w := Walk(c.All(), 0, c, p, f.mask);
            && w.alproto == ALPROTO_UNKNOWN
            && Detect(c, pe0, f, p) ==
                 Detected(ALPROTO_UNKNOWN, Flow(w.mask, f.done || w.mask == Pow2(|c.All()|) - 1), w.calls)
  {
    hide Walk, WalkUnmasked;
    WalkJoined(c.dp, c.sp, 0, c, p, f.mask);
    WalkUnknown(c.dp, 0, c, p, f.mask);
    WalkUnknown(c.sp, |c.dp|, c, p, Walk(c.dp, 0, c, p, f.mask).mask);
    if c.dp == [] && c.sp == [] {
      WalkEmpty(0, c, p, f.mask);
      assert c.All() == [];
    }
  }

  lemma StepOk(c: Setup, es: seq<Arrival>, f: Flow, a: Arrival)
    requires MaskOk(c, es, f) && Step(c, f, a).alproto == ALPROTO_UNKNOWN
    ensures MaskOk(c, es + [a], Step(c, f, a).flow)
    ensures forall k :: k in Step(c, f, a).calls ==> k < |c.All()| && !Masked(f.mask, k)
  {
    hide Masked, Pow2, Detect, Ended, Walk, Ends;
    var more := es + [a];
    assert more[..|es|] == es;
    forall k | 0 <= k < |c.All()| ensures Ended(c, more, k) <==> Ended(c, es, k) || Ends(c.All(), c, a.packet, k) {
      EndedStep(c, more, k);
    }
    if !f.done {
      StepMask(c, es, f, a);
      DetectQuiet(c, a.pe0, f, a.packet);
      var w := Walk(c.All(), 0, c, a.packet, f.mask);
      assert c.All()[0..] == c.All();
      forall k ensures k in w.calls ==> k < |c.All()| && !Masked(f.mask, k) {
        if k in w.calls { WalkMasks(c.All(), 0, c, a.packet, f.mask, k); }
      }
      WalkBounded(c.All(), 0, c, a.packet, f.mask);
      forall k | 0 <= k < |c.All()| ensures Masked(w.mask, k) <==> Ended(c, more, k) {
        WalkMasks(c.All(), 0, c, a.packet, f.mask, k);
      }
      FullIff(w.mask, |c.All()|);
    }
  }

  lemma StepMask(c: Setup, es: seq<Arrival>, f: Flow, a: Arrival)
    requires MaskOk(c, es, f)
    ensures c.All() == [] ==> f.mask == 0
  {
  }

  lemma {:induction false} RunOk(c: Setup, es: seq<Arrival>)
    requires Quiet(c, es)
    ensures MaskOk(c, es, After(c, es))
  {
    if es == [] {
      forall k: nat ensures !Masked(0, k) {
        NotMaskedBeyond(0, 0, k);
      }
    } else {
      hide MaskOk, Step;
      var init, a := es[..|es| - 1], es[|es| - 1];
      RunOk(c, init);
      StepOk(c, init, After(c, init), a);
      assert es == init + [a];
    }
  }

  lemma {:induction false} QuietPrefix(c: Setup, es: seq<Arrival>, j: nat)
    requires Quiet(c, es) && j <= |es|
    ensures Quiet(c, es[..j])
    ensures j < |es| ==> Step(c, After(c, es[..j]), es[j]).alproto == ALPROTO_UNKNOWN
  {
    hide Step;
    if j == |es| {
      assert es[..j] == es;
    } else {
      var init := es[..|es| - 1];
      if j < |init| {
        QuietPrefix(c, init, j);
        assert init[..j] == es[..j] && init[j] == es[j];
      }
    }
  }

  lemma LargestBit()
    ensures Pow2(31) == 0x8000_0000
  {
    assert Pow2(4) == 0x10;
    assert Pow2(8) == 0x100;
    assert Pow2(12) == 0x1000;
    assert Pow2(16) == 0x1_0000;
    assert Pow2(20) == 0x10_0000;
    assert Pow2(24) == 0x100_0000;
    assert Pow2(28) == 0x1000_0000;
  }

  lemma {:induction false} BitMonotone(m: nat, n: nat)
    requires m <= n
    ensures Pow2(m) <= Pow2(n)
  {
    if m < n {
      BitMonotone(m, n - 1);
    }
  }

  /** Over every run of packets without a match, with fewer than 32 parsers: a parser is
      masked exactly when some packet made it give up, and probing is done exactly when
      there was a packet and every parser has given up. */
  lemma CompletionTheorem(c: Setup, es: seq<Arrival>)
    requires Quiet(c, es) && |c.All()| < 32
    ensures var f := After(c, es);
            && f.mask < 0x1_0000_0000
            && (forall k :: 0 <= k < |c.All()| ==> (Masked(f.mask, k) <==> Ended(c, es, k)))
            && (f.done <==> es != [] && forall k :: 0 <= k < |c.All()| ==> Ended(c, es, k))
  {
    hide Ended, Masked, After, Quiet;
    RunOk(c, es);
    BitMonotone(|c.All()|, 31);
    LargestBit();
  }

  /** A parser that has given up stays masked and is never called again. */
  lemma NeverCalledAgain(c: Setup, es: seq<Arrival>, i: nat, j: nat, k: nat)
    requires Quiet(c, es) && i <= j < |es| && k < |c.All()|
    requires Ended(c, es[..i], k)
    ensures Masked(After(c, es[..j]).mask, k)
    ensures k !in Step(c, After(c, es[..j]), es[j]).calls
  {
    hide Masked, Step, Ends;
    QuietPrefix(c, es, j);
    RunOk(c, es[..j]);
    var n :| 0 <= n < i && Ends(c.All(), c, es[..i][n].packet, k);
    assert es[..j][n] == es[..i][n];
    StepOk(c, es[..j], After(c, es[..j]), es[j]);
  }

  /** And until then every packet long enough for it reaches it. */
  lemma CalledUntilThen(c: Setup, es: seq<Arrival>, j: nat, k: nat)
    requires Quiet(c, es) && j < |es| && k < |c.All()| && !Ended(c, es[..j], k)
    ensures k in Step(c, After(c, es[..j]), es[j]).calls <==> es[j].packet.len >= c.All()[k].minDepth
  {
    hide Masked, Detect, Ends, Ended, Walk, After, Quiet;
    QuietPrefix(c, es, j);
    RunOk(c, es[..j]);
    var f := After(c, es[..j]);
    StepMask(c, es[..j], f, es[j]);
    DetectQuiet(c, es[j].pe0, f, es[j].packet);
    assert c.All()[0..] == c.All();
    WalkMasks(c.All(), 0, c, es[j].packet, f.mask, k);
  }

  // ----- a match -----

  /** The k-th parser is shown the packet. */
  predicate Shown(all: seq<Element>, k: nat, p: Packet, mask: nat)
    requires k < |all|
  {
    p.len >= all[k].minDepth && !Masked(mask, k)
  }

  /** The protocol of a walk is the answer of the first parser that is shown the packet and
      names one; there is none exactly when no such parser does. */
  lemma {:induction false} MatchIsFirst(all: seq<Element>, n: nat, c: Setup, p: Packet, mask: nat) returns (k: nat)
    requires n <= |all|
    ensures n <= k <= |all|
    ensures forall j :: n <= j < k && Shown(all, j, p, mask) ==>
              !IsValid(Reply(all[j], c.toServer, p.answer(j)), c.protoMax)
    ensures k == |all| ==> Walk(all[n..], n, c, p, mask).alproto == ALPROTO_UNKNOWN
    ensures k < |all| ==>
              var a := Walk(all[n..], n, c, p, mask).alproto;
              Shown(all, k, p, mask) && a == Reply(all[k], c.toServer, p.answer(k)) && IsValid(a, c.protoMax)
    decreases |all| - n
  {
    k := n;
    if n < |all| {
      assert all[n..][0] == all[n] && all[n..][1..] == all[n + 1..];
      hide Masked, WithBit, GivesUp, Reply, IsValid;
      match Show(all[n], n, c, p, mask) {
        case Skip =>
          k := MatchIsFirst(all, n + 1, c, p, mask);
        case Match(_) =>
        case Miss(next) =>
          forall j: nat | n < j ensures Masked(next, j) <==> Masked(mask, j) {
            MaskedOr(mask, n, j);
          }
          k := MatchIsFirst(all, n + 1, c, p, next);
      }
    } else {
      assert all[n..] == [];
    }
  }

  // ----- the loops -----

  ghost predicate WalkedTo(all: Walked, pes: seq<Element>, i: nat, n: nat, c: Setup, p: Packet, mask: nat,
                           calls: seq<nat>) {
    i <= |pes| && var w := Walk(pes[i..], n, c, p, mask); all == w.(calls := calls + w.calls)
  }

  lemma WalkTurn(all: Walked, pes: seq<Element>, i: nat, n: nat, c: Setup, p: Packet, mask: nat, calls: seq<nat>)
    requires WalkedTo(all, pes, i, n, c, p, mask, calls)
    ensures i == |pes| ==> all == Walked(ALPROTO_UNKNOWN, mask, calls)
    ensures i < |pes| ==>
              var t := Show(pes[i], n, c, p, mask);
              && (t.Skip? ==> WalkedTo(all, pes, i + 1, n + 1, c, p, mask, calls))
              && (t.Match? ==> all == Walked(t.alproto, mask, calls + [n]))
              && (t.Miss? ==> WalkedTo(all, pes, i + 1, n + 1, c, p, t.mask, calls + [n]))
  {
    hide Show;
    if i < |pes| {
      assert pes[i..][0] == pes[i] && pes[i..][1..] == pes[i + 1..];
      var t := Show(pes[i], n, c, p, mask);
      if t.Miss? {
        var w := Walk(pes[i + 1..], n + 1, c, p, t.mask);
        assert calls + ([n] + w.calls) == (calls + [n]) + w.calls;
      }
    } else {
      assert calls + [] == calls;
    }
  }

  lemma WalkStart(pes: seq<Element>, n: nat, c: Setup, p: Packet, mask: nat)
    ensures WalkedTo(Walk(pes, n, c, p, mask), pes, 0, n, c, p, mask, [])
  {
    var w := Walk(pes, n, c, p, mask);
    assert pes[0..] == pes && [] + w.calls == w.calls;
  }

  /** PPGetProto with a mask: `tried` counts the parsers walked. */
  method GetProto(pes: seq<Element>, before: nat, c: Setup, p: Packet, masks: nat)
    returns (alproto: nat, mask: nat, tried: nat, calls: seq<nat>)
    ensures Walked(alproto, mask, calls) == Walk(pes, before, c, p, masks)
    ensures !IsValid(alproto, c.protoMax) ==> tried == before + |pes|
  {
    hide Walk, WalkedTo, Masked, WithBit, Reply;
    mask, tried, calls := masks, before, [];
    ghost var all := Walk(pes, before, c, p, masks);
    WalkStart(pes, before, c, p, masks);
    var i := 0;
    while i < |pes|
      invariant 0 <= i <= |pes| && tried == before + i
      invariant WalkedTo(all, pes, i, tried, c, p, mask, calls)
    {
      WalkTurn(all, pes, i, tried, c, p, mask, calls);
      if p.len < pes[i].minDepth || Masked(mask, tried) {
        i, tried := i + 1, tried + 1;
        continue;
      }
      alproto := Reply(pes[i], c.toServer, p.answer(tried));
      calls := calls + [tried];
      if IsValid(alproto, c.protoMax) {
        return;
      }
      if alproto == ALPROTO_FAILED || (pes[i].maxDepth != 0 && p.len > pes[i].maxDepth) {
        mask := WithBit(mask, tried);
      }
      i, tried := i + 1, tried + 1;
    }
    WalkTurn(all, pes, i, tried, c, p, mask, calls);
    alproto := ALPROTO_UNKNOWN;
  }

  method GetProtoUnmasked(pes: seq<Element>, c: Setup, p: Packet) returns (alproto: nat)
    ensures alproto == WalkUnmasked(pes, 0, c, p)
  {
    hide Reply, IsValid;
    var i := 0;
    assert pes[0..] == pes;
    while i < |pes|
      invariant 0 <= i <= |pes|
      invariant WalkUnmasked(pes, 0, c, p) == WalkUnmasked(pes[i..], i, c, p)
    {
      assert pes[i..][0] == pes[i] && pes[i..][1..] == pes[i + 1..];
      if p.len >= pes[i].minDepth {
        alproto := Reply(pes[i], c.toServer, p.answerUnmasked(i));
        if IsValid(alproto, c.protoMax) {
          return;
        }
      }
      i := i + 1;
    }
    alproto := ALPROTO_UNKNOWN;
  }

  class FlowProbing {
    var mask: nat
    var done: bool

    function View(): Flow
      reads this
    {
      Flow(mask, done)
    }

    constructor ()
      ensures View() == Flow(0, false)
    {
      mask, done := 0, false;
    }

    /** AppLayerProtoDetectPPGetProto. */
    method PPGetProto(c: Setup, pe0: seq<Element>, p: Packet) returns (alproto: nat, calls: seq<nat>)
      modifies this
      ensures Detected(alproto, View(), calls) == Detect(c, pe0, old(View()), p)
    {
      hide Walk, WalkUnmasked, IsValid;
      calls := [];
      if c.dp == [] && c.sp == [] && pe0 == [] {
        done := true;
        return ALPROTO_UNKNOWN, calls;
      }
      alproto := GetProtoUnmasked(pe0, c, p);
      if IsValid(alproto, c.protoMax) {
        return;
      }
      var tried: nat;
      alproto, mask, tried, calls := GetProto(c.dp, 0, c, p, mask);
      if IsValid(alproto, c.protoMax) {
        return;
      }
      var more: seq<nat>;
      alproto, mask, tried, more := GetProto(c.sp, tried, c, p, mask);
      calls := calls + more;
      if IsValid(alproto, c.protoMax) {
        return;
      }
      if mask == Pow2(tried) - 1 {
        done := true;
      }
    }
  }
}
