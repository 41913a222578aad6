/**
 The DNP3 link layer of src/app-layer-dnp3.c: finding frames in a TCP byte stream, and the
 buffering that carries an incomplete frame from one segment to the next.
 */
module Dnp3Link {
  import opened Common
  import opened Dnp3Crc
  import opened Dnp3Framing

  /** The value of an octet. */
  function Num(b: Byte): (n: nat)
    ensures n < 256
  {
    b as int
  }

  // ----- one frame -----

  datatype Direction = ToServer | ToClient

  /** Why the stream stops looking like DNP3. */
  datatype LinkError = BadStart | BadHeaderCrc | BadLength | ShortUserData

  /** What the link layer does with a complete frame. */
  datatype Action =
    | Ignore(frame: seq<Byte>)    // not a user-data function code
    | TooShort(frame: seq<Byte>)  // announced length too small for the headers
    | BadCrc(frame: seq<Byte>)    // a data block fails its CRC
    | Handle(frame: seq<Byte>)    // passed to the transport layer

  predicate StartBytes(h: seq<Byte>)
    requires |h| >= HEADER_SIZE
  {
    h[0] == 0x05 && h[1] == 0x64
  }

  function FrameLength(h: seq<Byte>): nat
    requires |h| >= HEADER_SIZE
  {
    LinkLength(Num(h[2]))
  }

  /** DNP3IsUserData: confirmed or unconfirmed user data. */
  predicate IsUserData(h: seq<Byte>)
    requires |h| >= HEADER_SIZE
  {
    var fc := h[3] & 0x0f;
    fc == 3 || fc == 4
  }

  /** Application header octets a frame must have room for. */
  function AppHeaderSize(dir: Direction): nat {
    match dir
    case ToServer => 2
    case ToClient => 4
  }

  /** DNP3HasUserData: room for the transport octet and the application header. */
  predicate HasUserData(h: seq<Byte>, dir: Direction)
    requires |h| >= HEADER_SIZE
  {
    Num(h[2]) >= LINK_HDR_LEN + 1 + AppHeaderSize(dir)
  }

  datatype Verdict = Wait | Fail(error: LinkError) | Take(action: Action)

  /** One turn of the link-layer loop. */
  function Examine(s: seq<Byte>, dir: Direction): Verdict {
    if |s| < HEADER_SIZE then Wait
    else if !StartBytes(s) then Fail(BadStart)
    else if !CheckCRC(s[..HEADER_SIZE]) then Fail(BadHeaderCrc)
    else if FrameLength(s) == 0 then Fail(BadLength)
    else if |s| < FrameLength(s) then Wait
    else
      var frame := s[..FrameLength(s)];
      if !IsUserData(s) then Take(Ignore(frame))
      else if !HasUserData(s, dir) then
        (match dir case ToServer => Take(TooShort(frame)) case ToClient => Fail(ShortUserData))
      else if !BlocksOk(s[HEADER_SIZE..FrameLength(s)]) then Take(BadCrc(frame))
      else Take(Handle(frame))
  }

  // ----- the whole stream -----

  /** What is done with a stream: actions, the error that stopped it, the octets left. */
  datatype Scan = Scan(actions: seq<Action>, error: Option<LinkError>, rest: seq<Byte>)

  lemma TakesProgress(s: seq<Byte>, dir: Direction)
    ensures Examine(s, dir).Take? ==>
      var f := Examine(s, dir).action.frame; HEADER_SIZE <= |f| <= |s| && f == s[..|f|]
  {
    hide CheckCRC, BlocksOk;
  }

  /** Reference: cut frames off the front until one is incomplete or wrong. */
  function ScanStream(s: seq<Byte>, dir: Direction): Scan
    decreases |s|
  {
    match Examine(s, dir)
    case Wait => Scan([], None, s)
    case Fail(e) => Scan([], Some(e), s)
    case Take(a) =>
      TakesProgress(s, dir);
      var r := ScanStream(s[|a.frame|..], dir);
      r.(actions := [a] + r.actions)
  }

  /** One turn of the loop, with the checks as the source makes them. */
  method ExamineFrame(s: seq<Byte>, dir: Direction) returns (v: Verdict)
    ensures v == Examine(s, dir)
  {
    hide CheckCRC, BlocksOk;
    if |s| < HEADER_SIZE {
      return Wait;
    }
    if !StartBytes(s) {
      return Fail(BadStart);
    }
    var headerOk := CheckBlock(s[..HEADER_SIZE]);
    if !headerOk {
      return Fail(BadHeaderCrc);
    }
    var frameLen := FrameLength(s);
    if frameLen == 0 {
      return Fail(BadLength);
    }
    if |s| < frameLen {
      return Wait;
    }
    if !IsUserData(s) {
      return Take(Ignore(s[..frameLen]));
    }
    if !HasUserData(s, dir) {
      return if dir.ToServer? then Take(TooShort(s[..frameLen])) else Fail(ShortUserData);
    }
    var dataOk := CheckUserDataCRCs(s[HEADER_SIZE..frameLen]);
    return Take(if dataOk then Handle(s[..frameLen]) else BadCrc(s[..frameLen]));
  }

  /** DNP3HandleRequestLinkLayer and DNP3HandleResponseLinkLayer: the loop over one input. */
  method HandleLinkLayer(input: seq<Byte>, dir: Direction) returns (processed: int, actions: seq<Action>)
    ensures var r := ScanStream(input, dir);
            && actions == r.actions
            && processed == (if r.error.Some? then -1 else |input| - |r.rest|)
            && (r.error.None? ==> 0 <= processed <= |input| && input[processed..] == r.rest)
  {
    hide Examine, ScanStream;
    processed, actions := 0, [];
    assert input[0..] == input;
    while processed < |input|
      invariant 0 <= processed <= |input|
      invariant ScannedTo(input, processed, actions, dir)
    {
      var v := ExamineFrame(input[processed..], dir);
      ScanTurn(input, processed, actions, dir);
      match v {
        case Wait => return;
        case Fail(_) => return -1, actions;
        case Take(a) =>
          actions := actions + [a];
          processed := processed + |a.frame|;
      }
    }
    ShortWaits([], dir);
    ScanTurn(input, processed, actions, dir);
  }

  /** The first p octets have been scanned, with these actions. */
  ghost predicate ScannedTo(input: seq<Byte>, p: nat, actions: seq<Action>, dir: Direction) {
    p <= |input| && var r := ScanStream(input[p..], dir); ScanStream(input, dir) == r.(actions := actions + r.actions)
  }

  lemma ScanTurn(input: seq<Byte>, p: nat, actions: seq<Action>, dir: Direction)
    requires ScannedTo(input, p, actions, dir)
    ensures match Examine(input[p..], dir)
            case Wait => ScanStream(input, dir) == Scan(actions, None, input[p..])
            case Fail(e) => ScanStream(input, dir) == Scan(actions, Some(e), input[p..])
            case Take(a) => 0 < |a.frame| <= |input| - p && ScannedTo(input, p + |a.frame|, actions + [a], dir)
  {
    hide Examine;
    TakesProgress(input[p..], dir);
    match Examine(input[p..], dir)
    case Wait =>
    case Fail(_) =>
    case Take(a) =>
      var r := ScanStream(input[p + |a.frame|..], dir);
      assert input[p..][|a.frame|..] == input[p + |a.frame|..];
      assert actions + ([a] + r.actions) == (actions + [a]) + r.actions;
  }

  lemma ShortWaits(s: seq<Byte>, dir: Direction)
    requires |s| < HEADER_SIZE
    ensures Examine(s, dir) == Wait
  {
  }

  lemma NotStarted(s: seq<Byte>, dir: Direction)
    requires |s| >= HEADER_SIZE && (s[0] != 0x05 || s[1] != 0x64)
    ensures Examine(s, dir) == Fail(BadStart)
  {
  }

  // ----- segmentation invariance -----

  /** More input never changes a verdict already reached. */
  lemma VerdictStable(s: seq<Byte>, more: seq<Byte>, dir: Direction)
    requires !Examine(s, dir).Wait?
    ensures Examine(s + more, dir) == Examine(s, dir)
  {
    hide CheckCRC, BlocksOk;
    var t := s + more;
    assert t[..HEADER_SIZE] == s[..HEADER_SIZE];
    assert t[0] == s[0] && t[1] == s[1] && t[2] == s[2] && t[3] == s[3];
    var n := FrameLength(s);
    if HEADER_SIZE <= n <= |s| {
      assert t[..n] == s[..n] && t[HEADER_SIZE..n] == s[HEADER_SIZE..n];
    }
  }

  /** Scanning in two parts: finish the first, keep its residue, go on with the second. */
  lemma {:induction false} ScanAppend(s: seq<Byte>, more: seq<Byte>, dir: Direction)
    ensures var a := ScanStream(s, dir); var w := ScanStream(s + more, dir);
            if a.error.Some? then w.actions == a.actions && w.error == a.error
            else var b := ScanStream(a.rest + more, dir);
                 w.actions == a.actions + b.actions && w.error == b.error && w.rest == b.rest
    decreases |s|
  {
    hide Examine;
    if Examine(s, dir).Take? {
      var a := Examine(s, dir).action;
      TakesProgress(s, dir);
      VerdictStable(s, more, dir);
      TakesProgress(s + more, dir);
      assert (s + more)[|a.frame|..] == s[|a.frame|..] + more;
      ScanAppend(s[|a.frame|..], more, dir);
    } else if Examine(s, dir).Fail? {
      VerdictStable(s, more, dir);
    }
  }

  /** What is left waiting is always less than one maximal frame. */
  lemma {:induction false} RestBound(s: seq<Byte>, dir: Direction)
    ensures ScanStream(s, dir).error.None? ==> |ScanStream(s, dir).rest| < 292
    decreases |s|
  {
    hide CheckCRC, BlocksOk;
    TakesProgress(s, dir);
    match Examine(s, dir)
    case Wait =>
      if |s| >= HEADER_SIZE { FrameBound(Num(s[2])); }
    case Fail(_) =>
    case Take(a) => RestBound(s[|a.frame|..], dir);
  }

  lemma FrameBound(length: nat)
    requires length < 256
    ensures LinkLength(length) <= 292
  {
    if length >= 5 {
      var n := length - 5;
      assert n == 16 * (n / 16) + n % 16;
    }
  }
}
