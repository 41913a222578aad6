/**
 A DNP3 flow from its TCP segments to its transactions: the segments of both directions and
 the cleanup of transactions in the order in which they happen, and the theorem that the way
 requests are cut into segments does not show in the transactions.
 */
module Dnp3Session {
  import opened Dnp3Crc
  import opened Dnp3Link
  import opened Dnp3Stream
  import opened Dnp3Transport

  // ----- the session -----

  datatype Input = Bytes(dir: Direction, data: seq<Byte>) | Cleanup(id: nat)

  /** The two residues, how many user-data frames have been handled, whether a link error
      has stopped the flow, and the transactions. */
  datatype Session = Session(toServer: seq<Byte>, toClient: seq<Byte>, count: nat, failed: bool, state: State) {
    function Waiting(dir: Direction): seq<Byte> {
      if dir.ToServer? then toServer else toClient
    }

    function Left(dir: Direction, rest: seq<Byte>): Session {
      if dir.ToServer? then this.(toServer := rest) else this.(toClient := rest)
    }
  }

  const FRESH := Session([], [], 0, false, EMPTY)

  /** Whether there is memory for a transaction and for the data of the n-th frame. */
  type Memory = nat -> (bool, bool)

  /** The frames handled, as events of the transaction list. */
  function EventsOf(actions: seq<Action>, n: nat, dir: Direction, memory: Memory): seq<Event> {
    if actions == [] then []
    else if !actions[0].Handle? then EventsOf(actions[1..], n, dir, memory)
    else
      [Receive(actions[0].frame, dir, memory(n).0, memory(n).1)] + EventsOf(actions[1..], n + 1, dir, memory)
  }

  /** Only accepted frames are handled. */
  ghost predicate HandlesAccepted(actions: seq<Action>, dir: Direction) {
    forall a :: a in actions && a.Handle? ==> Accepted(a.frame, dir)
  }

  lemma {:induction false} ScanAccepted(s: seq<Byte>, dir: Direction)
    ensures HandlesAccepted(ScanStream(s, dir).actions, dir)
    decreases |s|
  {
    hide Examine, Accepted;
    if Examine(s, dir).Take? {
      var a := Examine(s, dir).action;
      TakesProgress(s, dir);
      ScanAccepted(s[|a.frame|..], dir);
      if a.Handle? {
        HandledIsAccepted(s, dir);
      }
    }
  }

  lemma {:induction false} EventsEnabled(actions: seq<Action>, n: nat, dir: Direction, memory: Memory)
    requires HandlesAccepted(actions, dir)
    ensures forall e :: e in EventsOf(actions, n, dir, memory) ==> Enabled(e)
    decreases |actions|
  {
    hide Accepted;
    if actions != [] {
      assert actions[0] in actions;
      EventsEnabled(actions[1..], if actions[0].Handle? then n + 1 else n, dir, memory);
    }
  }

  /** What a segment does to the transactions. */
  function Handled(state: State, actions: seq<Action>, n: nat, dir: Direction, memory: Memory, cfg: Config): State
    requires HandlesAccepted(actions, dir)
  {
    EventsEnabled(actions, n, dir, memory);
    After(state, EventsOf(actions, n, dir, memory), cfg)
  }

  lemma ParseAccepted(residue: seq<Byte>, chunk: seq<Byte>, dir: Direction)
    ensures HandlesAccepted(ParseChunk(residue, chunk, dir).actions, dir)
  {
    hide ScanStream, Accepted, ContainsBanner;
    ScanAccepted(residue + chunk, dir);
  }

  /** One input.  A link error empties the buffer and stops both directions. */
  function Turn(w: Session, x: Input, memory: Memory, cfg: Config): Session {
    match x
    case Cleanup(id) => w.(state := FreeTx(w.state, id, cfg.maxTx))
    case Bytes(dir, data) =>
      if w.failed then w
      else
        var r := ParseChunk(w.Waiting(dir), data, dir);
        ParseAccepted(w.Waiting(dir), data, dir);
        w.(count := w.count + |EventsOf(r.actions, w.count, dir, memory)|, failed := r.error.Some?,
          state := Handled(w.state, r.actions, w.count, dir, memory, cfg))
        .Left(dir, if r.error.Some? then [] else r.rest)
  }

  function Replay(w: Session, xs: seq<Input>, memory: Memory, cfg: Config): Session
    decreases |xs|
  {
    if xs == [] then w else Replay(Turn(w, xs[0], memory, cfg), xs[1..], memory, cfg)
  }

  // ----- what every session keeps -----

  ghost predicate SessionGood(w: Session, cfg: Config) {
    && StateGood(w.state, cfg)
    && Quiet(w.toServer, ToServer) && Quiet(w.toClient, ToClient)
    && |w.toServer| < 292 && |w.toClient| < 292
  }

  lemma ParseQuiet(residue: seq<Byte>, chunk: seq<Byte>, dir: Direction)
    requires Quiet(residue, dir) && |residue| < 292
    ensures var r := ParseChunk(residue, chunk, dir); r.error.None? ==> Quiet(r.rest, dir) && |r.rest| < 292
  {
    hide ScanStream, ContainsBanner, Quiet;
    RestQuiet(residue + chunk, dir);
    RestBound(residue + chunk, dir);
  }

  lemma TurnGood(w: Session, x: Input, memory: Memory, cfg: Config)
    requires SessionGood(w, cfg)
    ensures SessionGood(Turn(w, x, memory, cfg), cfg)
  {
    hide ParseChunk, StateGood, Quiet, EventsOf, After, FreeTx, HandlesAccepted, Enabled;
    match x
    case Cleanup(id) => FreeGood(w.state, id, cfg);
    case Bytes(dir, data) =>
      if !w.failed {
        var r := ParseChunk(w.Waiting(dir), data, dir);
        ParseAccepted(w.Waiting(dir), data, dir);
        ParseQuiet(w.Waiting(dir), data, dir);
        EventsEnabled(r.actions, w.count, dir, memory);
        RunGood(w.state, EventsOf(r.actions, w.count, dir, memory), cfg);
        NothingWaits(dir);
      }
  }

  lemma NothingWaits(dir: Direction)
    ensures Quiet([], dir)
  {
    hide Examine;
    ShortWaits([], dir);
  }

  /** Whatever the two sides send, in whatever segments: the transaction list is good, and
      less than a frame waits on either side. */
  lemma {:induction false} EverySession(w: Session, xs: seq<Input>, memory: Memory, cfg: Config)
    requires SessionGood(w, cfg)
    ensures SessionGood(Replay(w, xs, memory, cfg), cfg)
    decreases |xs|
  {
    hide Turn, SessionGood;
    if xs != [] {
      TurnGood(w, xs[0], memory, cfg);
      EverySession(Turn(w, xs[0], memory, cfg), xs[1..], memory, cfg);
    }
  }

  // ----- cutting a segment in two -----

  lemma {:induction false} EventsAppend(a: seq<Action>, b: seq<Action>, n: nat, dir: Direction, memory: Memory)
    ensures var es := EventsOf(a, n, dir, memory);
            EventsOf(a + b, n, dir, memory) == es + EventsOf(b, n + |es|, dir, memory)
    decreases |a|
  {
    if a == [] {
      assert a + b == b;
    } else {
      assert (a + b)[1..] == a[1..] + b;
      EventsAppend(a[1..], b, if a[0].Handle? then n + 1 else n, dir, memory);
    }
  }

  lemma {:induction false} AfterAppend(s: State, a: seq<Event>, b: seq<Event>, cfg: Config)
    requires forall e :: e in a + b ==> Enabled(e)
    ensures (forall e :: e in a ==> Enabled(e)) && (forall e :: e in b ==> Enabled(e))
    ensures After(s, a + b, cfg) == After(After(s, a, cfg), b, cfg)
    decreases |a|
  {
    hide Enabled, Next;
    assert forall e :: e in a ==> e in a + b;
    assert forall e :: e in b ==> e in a + b;
    if a == [] {
      assert a + b == b;
    } else {
      assert (a + b)[1..] == a[1..] + b;
      AfterAppend(Next(s, a[0], cfg), a[1..], b, cfg);
    }
  }

  lemma HandledAppend(state: State, a: seq<Action>, b: seq<Action>, n: nat, dir: Direction, memory: Memory, cfg: Config)
    requires HandlesAccepted(a, dir) && HandlesAccepted(b, dir)
    ensures HandlesAccepted(a + b, dir)
    ensures var m := n + |EventsOf(a, n, dir, memory)|;
            Handled(state, a + b, n, dir, memory, cfg) ==
            Handled(Handled(state, a, n, dir, memory, cfg), b, m, dir, memory, cfg)
  {
    hide Accepted, EventsOf, After, Enabled;
    EventsAppend(a, b, n, dir, memory);
    var es := EventsOf(a, n, dir, memory);
    EventsEnabled(a + b, n, dir, memory);
    AfterAppend(state, es, EventsOf(b, n + |es|, dir, memory), cfg);
  }

  /** None of the three segments is taken for a banner; always so for requests. */
  predicate Heeded(residue: seq<Byte>, a: seq<Byte>, b: seq<Byte>, dir: Direction) {
    && !Ignored(residue, a, dir) && !Ignored(residue, a + b, dir)
    && !Ignored(ParseChunk(residue, a, dir).rest, b, dir)
  }

  lemma ParseIsScan(residue: seq<Byte>, chunk: seq<Byte>, dir: Direction)
    requires Quiet(residue, dir) && !Ignored(residue, chunk, dir)
    ensures ParseChunk(residue, chunk, dir) == ScanStream(residue + chunk, dir)
  {
    hide ScanStream, ContainsBanner;
    if chunk == [] {
      assert residue + chunk == residue;
    }
  }

  lemma ParseCut(residue: seq<Byte>, a: seq<Byte>, b: seq<Byte>, dir: Direction)
    requires Quiet(residue, dir) && Heeded(residue, a, b, dir)
    ensures var p := ParseChunk(residue, a, dir); var w := ParseChunk(residue, a + b, dir);
            if p.error.Some? then w.actions == p.actions && w.error == p.error
            else var q := ParseChunk(p.rest, b, dir);
                 w == Scan(p.actions + q.actions, q.error, q.rest)
  {
    hide ScanStream, ParseChunk, Ignored, Quiet;
    ParseIsScan(residue, a, dir);
    ParseIsScan(residue, a + b, dir);
    RestQuiet(residue + a, dir);
    var p := ParseChunk(residue, a, dir);
    assert residue + (a + b) == (residue + a) + b;
    ScanAppend(residue + a, b, dir);
    if p.error.None? {
      ParseIsScan(p.rest, b, dir);
    }
  }

  /** A segment may arrive in two parts. */
  lemma CutTurn(w: Session, dir: Direction, a: seq<Byte>, b: seq<Byte>, memory: Memory, cfg: Config)
    requires Quiet(w.Waiting(dir), dir) && Heeded(w.Waiting(dir), a, b, dir)
    ensures Turn(Turn(w, Bytes(dir, a), memory, cfg), Bytes(dir, b), memory, cfg) ==
            Turn(w, Bytes(dir, a + b), memory, cfg)
  {
    hide ParseChunk, Quiet, EventsOf, Handled, HandlesAccepted, Heeded;
    if !w.failed {
      var r := w.Waiting(dir);
      var p := ParseChunk(r, a, dir);
      ParseCut(r, a, b, dir);
      ParseAccepted(r, a, dir);
      if p.error.None? {
        var q := ParseChunk(p.rest, b, dir);
        ParseAccepted(p.rest, b, dir);
        ParseAccepted(r, a + b, dir);
        HandledAppend(w.state, p.actions, q.actions, w.count, dir, memory, cfg);
        EventsAppend(p.actions, q.actions, w.count, dir, memory);
      }
    }
  }

  // ----- cutting a whole history -----

  /** Requests that follow one another, joined. */
  function Joined(xs: seq<Input>): seq<Input>
    decreases |xs|
  {
    if |xs| < 2 then xs
    else if xs[0].Bytes? && xs[1].Bytes? && xs[0].dir.ToServer? && xs[1].dir.ToServer? then
      Joined([Bytes(ToServer, xs[0].data + xs[1].data)] + xs[2..])
    else [xs[0]] + Joined(xs[1..])
  }

  lemma {:induction false} JoinedSame(w: Session, xs: seq<Input>, memory: Memory, cfg: Config)
    requires SessionGood(w, cfg)
    ensures Replay(w, Joined(xs), memory, cfg) == Replay(w, xs, memory, cfg)
    decreases |xs|
  {
    hide Turn, Quiet, StateGood;
    if |xs| >= 2 {
      if xs[0].Bytes? && xs[1].Bytes? && xs[0].dir.ToServer? && xs[1].dir.ToServer? {
        var join := Bytes(ToServer, xs[0].data + xs[1].data);
        CutTurn(w, ToServer, xs[0].data, xs[1].data, memory, cfg);
        JoinedSame(w, [join] + xs[2..], memory, cfg);
        assert ([join] + xs[2..])[1..] == xs[2..] == xs[1..][1..];
      } else {
        TurnGood(w, xs[0], memory, cfg);
        JoinedSame(Turn(w, xs[0], memory, cfg), xs[1..], memory, cfg);
        assert ([xs[0]] + Joined(xs[1..]))[1..] == Joined(xs[1..]);
      }
    }
  }

  lemma FreshGood(cfg: Config)
    ensures SessionGood(FRESH, cfg)
  {
    hide Quiet;
    NothingWaits(ToServer);
    NothingWaits(ToClient);
    KnownNone([]);
  }

  /** Two histories that send the same requests between the same responses and cleanups, cut
      into segments in whatever way, end with the same transactions, the same octets
      waiting, and fail together. */
  lemma CutsDoNotShow(xs: seq<Input>, ys: seq<Input>, memory: Memory, cfg: Config)
    requires Joined(xs) == Joined(ys)
    ensures Replay(FRESH, xs, memory, cfg) == Replay(FRESH, ys, memory, cfg)
  {
    hide Joined, Replay, SessionGood;
    FreshGood(cfg);
    JoinedSame(FRESH, xs, memory, cfg);
    JoinedSame(FRESH, ys, memory, cfg);
  }

  /** The segments of a request stream. */
  function Requests(chunks: seq<seq<Byte>>): seq<Input> {
    if chunks == [] then [] else [Bytes(ToServer, chunks[0])] + Requests(chunks[1..])
  }

  lemma {:induction false} RequestsJoined(c: seq<Byte>, chunks: seq<seq<Byte>>)
    ensures Joined([Bytes(ToServer, c)] + Requests(chunks)) == [Bytes(ToServer, c + Flatten(chunks))]
    decreases |chunks|
  {
    var xs := [Bytes(ToServer, c)] + Requests(chunks);
    if chunks == [] {
      assert c + Flatten(chunks) == c;
    } else {
      assert xs[2..] == Requests(chunks[1..]);
      RequestsJoined(c + chunks[0], chunks[1..]);
      assert (c + chunks[0]) + Flatten(chunks[1..]) == c + Flatten(chunks);
    }
  }

  /** In particular the transactions of a request stream are those of the frames found in it
      as a whole, however it is cut. */
  lemma RequestTransactions(chunks: seq<seq<Byte>>, memory: Memory, cfg: Config)
    ensures var all := ScanStream(Flatten(chunks), ToServer).actions;
            && HandlesAccepted(all, ToServer)
            && Replay(FRESH, Requests(chunks), memory, cfg).state == Handled(EMPTY, all, 0, ToServer, memory, cfg)
  {
    hide ScanStream, Handled, Joined, Quiet;
    var whole, none := Flatten(chunks), Bytes(ToServer, []);
    ScanAccepted(whole, ToServer);
    RequestsJoined([], chunks);
    assert [] + whole == whole;
    FreshGood(cfg);
    JoinedSame(FRESH, [none] + Requests(chunks), memory, cfg);
    assert ([none] + Requests(chunks))[1..] == Requests(chunks);
    FirstRequest(whole, memory, cfg);
    Idle(memory, cfg);
    assert [Bytes(ToServer, whole)][1..] == [];
  }

  lemma FirstRequest(s: seq<Byte>, memory: Memory, cfg: Config)
    ensures var all := ScanStream(s, ToServer).actions;
            && HandlesAccepted(all, ToServer)
            && Turn(FRESH, Bytes(ToServer, s), memory, cfg).state == Handled(EMPTY, all, 0, ToServer, memory, cfg)
  {
    hide ScanStream, Handled;
    ScanAccepted(s, ToServer);
    NothingWaits(ToServer);
    ParseIsScan([], s, ToServer);
    assert [] + s == s;
  }

  /** An empty request changes nothing. */
  lemma Idle(memory: Memory, cfg: Config)
    ensures Turn(FRESH, Bytes(ToServer, []), memory, cfg) == FRESH
  {
  }
}
