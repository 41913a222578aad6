/**
 TCP buffering in front of the DNP3 link layer: DNP3Buffer, DNP3ParseRequest and
 DNP3ParseResponse, and the theorem that the way TCP cuts the stream into segments does not matter.
 */
module Dnp3Stream {
  import opened Common
  import opened Dnp3Crc
  import opened Dnp3Link

  // ----- reference -----

  /** The octets of "DNP3". */
  const BANNER: seq<Byte> := [0x44, 0x4e, 0x50, 0x33]

  /** DNP3ContainsBanner. */
  predicate ContainsBanner(s: seq<Byte>) {
    exists i :: 0 <= i < |s| && BANNER <= s[i..]
  }

  /** A response segment that arrives while nothing waits is ignored if it has a banner. */
  predicate Ignored(residue: seq<Byte>, chunk: seq<Byte>, dir: Direction) {
    dir.ToClient? && residue == [] && ContainsBanner(chunk)
  }

  /** What one call makes of the residue kept so far and a new segment. */
  function ParseChunk(residue: seq<Byte>, chunk: seq<Byte>, dir: Direction): Scan {
    if (dir.ToServer? && chunk == []) || Ignored(residue, chunk, dir) then Scan([], None, residue)
    else ScanStream(residue + chunk, dir)
  }

  /** Feeding segments one after the other, up to the first link error. */
  function Feed(residue: seq<Byte>, chunks: seq<seq<Byte>>, dir: Direction): Scan
    decreases |chunks|
  {
    if chunks == [] then Scan([], None, residue)
    else
      var r := ParseChunk(residue, chunks[0], dir);
      if r.error.Some? then r
      else var n := Feed(r.rest, chunks[1..], dir); n.(actions := r.actions + n.actions)
  }

  function Flatten(chunks: seq<seq<Byte>>): seq<Byte> {
    if chunks == [] then [] else chunks[0] + Flatten(chunks[1..])
  }

  /** The segments that are not ignored. */
  function Heard(residue: seq<Byte>, chunks: seq<seq<Byte>>, dir: Direction): seq<seq<Byte>>
    decreases |chunks|
  {
    if chunks == [] then []
    else
      var more := Heard(ParseChunk(residue, chunks[0], dir).rest, chunks[1..], dir);
      if Ignored(residue, chunks[0], dir) then more else [chunks[0]] + more
  }

  /** A residue yields nothing until more arrives. */
  ghost predicate Quiet(s: seq<Byte>, dir: Direction) {
    ScanStream(s, dir) == Scan([], None, s)
  }

  lemma {:induction false} RestQuiet(s: seq<Byte>, dir: Direction)
    ensures ScanStream(s, dir).error.None? ==> Quiet(ScanStream(s, dir).rest, dir)
    decreases |s|
  {
    hide Examine;
    TakesProgress(s, dir);
    if Examine(s, dir).Take? {
      RestQuiet(s[|Examine(s, dir).action.frame|..], dir);
    }
  }

  lemma FlattenCons(c: seq<Byte>, chunks: seq<seq<Byte>>)
    ensures Flatten([c] + chunks) == c + Flatten(chunks)
  {
    assert ([c] + chunks)[1..] == chunks;
  }

  lemma {:induction false} FeedIsScan(residue: seq<Byte>, chunks: seq<seq<Byte>>, dir: Direction)
    requires Quiet(residue, dir)
    ensures var f := Feed(residue, chunks, dir);
            var w := ScanStream(residue + Flatten(Heard(residue, chunks, dir)), dir);
            f.actions == w.actions && f.error == w.error && (f.error.None? ==> f.rest == w.rest)
    decreases |chunks|
  {
    hide Examine, ScanStream, ContainsBanner;
    if chunks == [] {
      assert residue + Flatten(Heard(residue, chunks, dir)) == residue;
    } else {
      var c := chunks[0];
      var r := ParseChunk(residue, c, dir);
      var heard := Heard(r.rest, chunks[1..], dir);
      if Ignored(residue, c, dir) {
        FeedIsScan(residue, chunks[1..], dir);
      } else {
        FlattenCons(c, heard);
        var more := Flatten(heard);
        assert residue + (c + more) == (residue + c) + more;
        ScanAppend(residue + c, more, dir);
        if c == [] { assert residue + c == residue; }
        RestQuiet(residue + c, dir);
        if r.error.None? {
          FeedIsScan(r.rest, chunks[1..], dir);
        }
      }
    }
  }

  lemma {:induction false} AllHeard(residue: seq<Byte>, chunks: seq<seq<Byte>>)
    ensures Heard(residue, chunks, ToServer) == chunks
    decreases |chunks|
  {
    hide ScanStream;
    if chunks != [] {
      AllHeard(ParseChunk(residue, chunks[0], ToServer).rest, chunks[1..]);
    }
  }

  /** Segmentation invariance: however a request stream is cut into segments, the same
      actions are taken in the same order up to the same link error as for the whole
      stream at once, and without an error the same residue is left, shorter than one
      maximal frame. */
  lemma SegmentationInvariance(chunks: seq<seq<Byte>>)
    ensures var f := Feed([], chunks, ToServer); var w := ScanStream(Flatten(chunks), ToServer);
            && f.actions == w.actions
            && f.error == w.error
            && (f.error.None? ==> f.rest == w.rest && |f.rest| < 292)
  {
    AllHeard([], chunks);
    HeardStream(chunks, ToServer);
  }

  /** In both directions the same holds of the stream that is left when the segments taken
      for a banner are removed. */
  lemma HeardStream(chunks: seq<seq<Byte>>, dir: Direction)
    ensures var f := Feed([], chunks, dir); var w := ScanStream(Flatten(Heard([], chunks, dir)), dir);
            && f.actions == w.actions
            && f.error == w.error
            && (f.error.None? ==> f.rest == w.rest && |f.rest| < 292)
  {
    hide Examine;
    ShortWaits([], dir);
    FeedIsScan([], chunks, dir);
    var heard := Flatten(Heard([], chunks, dir));
    assert [] + heard == heard;
    RestBound(heard, dir);
  }

  /** Some segment is ignored. */
  predicate Ignores(residue: seq<Byte>, chunks: seq<seq<Byte>>, dir: Direction)
    decreases |chunks|
  {
    chunks != [] &&
    (Ignored(residue, chunks[0], dir) || Ignores(ParseChunk(residue, chunks[0], dir).rest, chunks[1..], dir))
  }

  lemma {:induction false} HeardIff(residue: seq<Byte>, chunks: seq<seq<Byte>>, dir: Direction)
    ensures |Heard(residue, chunks, dir)| <= |chunks|
    ensures Heard(residue, chunks, dir) == chunks <==> !Ignores(residue, chunks, dir)
    decreases |chunks|
  {
    hide ScanStream, Ignored;
    if chunks != [] {
      var rest := ParseChunk(residue, chunks[0], dir).rest;
      HeardIff(rest, chunks[1..], dir);
      assert ([chunks[0]] + Heard(rest, chunks[1..], dir))[1..] == Heard(rest, chunks[1..], dir);
    }
  }

  lemma BannerLength(s: seq<Byte>)
    requires ContainsBanner(s)
    ensures |s| >= 4
  {
    var i :| 0 <= i < |s| && BANNER <= s[i..];
    assert |s[i..]| >= |BANNER|;
  }

  /** The octets of the frames acted on. */
  function FrameOctets(actions: seq<Action>): nat {
    if actions == [] then 0 else |actions[0].frame| + FrameOctets(actions[1..])
  }

  /** Without an error every octet is in a frame or left. */
  lemma {:induction false} ScanLength(s: seq<Byte>, dir: Direction)
    ensures var r := ScanStream(s, dir); r.error.None? ==> FrameOctets(r.actions) + |r.rest| == |s|
    decreases |s|
  {
    hide Examine;
    TakesProgress(s, dir);
    if Examine(s, dir).Take? {
      var a := Examine(s, dir).action;
      ScanLength(s[|a.frame|..], dir);
      var more := ScanStream(s[|a.frame|..], dir).actions;
      assert ([a] + more)[1..] == more;
    }
  }

  /** An ignored segment is missing from the stream. */
  lemma {:induction false} HeardShorter(residue: seq<Byte>, chunks: seq<seq<Byte>>, dir: Direction)
    ensures |Flatten(Heard(residue, chunks, dir))| <= |Flatten(chunks)|
    ensures Ignores(residue, chunks, dir) ==> |Flatten(Heard(residue, chunks, dir))| < |Flatten(chunks)|
    decreases |chunks|
  {
    hide ScanStream, ContainsBanner;
    if chunks != [] {
      var heard := Heard(ParseChunk(residue, chunks[0], dir).rest, chunks[1..], dir);
      HeardShorter(ParseChunk(residue, chunks[0], dir).rest, chunks[1..], dir);
      FlattenCons(chunks[0], heard);
      if Ignored(residue, chunks[0], dir) {
        BannerLength(chunks[0]);
      }
    }
  }

  /** Responses are scanned like requests if no segment with a banner arrives while nothing
      waits; and unless both ways meet a link error, only then. */
  lemma ResponseSegmentation(chunks: seq<seq<Byte>>)
    ensures var f := Feed([], chunks, ToClient); var w := ScanStream(Flatten(chunks), ToClient);
            && (!Ignores([], chunks, ToClient) ==>
                  && f.actions == w.actions
                  && f.error == w.error
                  && (f.error.None? ==> f.rest == w.rest && |f.rest| < 292))
            && (f.error.None? || w.error.None? ==> (f == w <==> !Ignores([], chunks, ToClient)))
  {
    hide ScanStream, Heard, Ignores, Feed, Flatten;
    HeardIff([], chunks, ToClient);
    HeardStream(chunks, ToClient);
    HeardShorter([], chunks, ToClient);
    ScanLength(Flatten(chunks), ToClient);
    ScanLength(Flatten(Heard([], chunks, ToClient)), ToClient);
  }

  lemma StartFails(s: seq<Byte>)
    requires |s| >= 10 && (s[0] != 0x05 || s[1] != 0x64)
    ensures ScanStream(s, ToClient).actions == [] && ScanStream(s, ToClient).error == Some(BadStart)
  {
    NotStarted(s, ToClient);
    hide Examine;
  }

  /** A link error can hide what was ignored: of two segments without a DNP3 start, the
      first with a banner, the outcome is that of the whole. */
  lemma ErrorHidesBanner(a: seq<Byte>, b: seq<Byte>)
    requires |a| >= 10 && (a[0] != 0x05 || a[1] != 0x64) && ContainsBanner(a)
    requires |b| >= 10 && (b[0] != 0x05 || b[1] != 0x64) && !ContainsBanner(b)
    ensures var f := Feed([], [a, b], ToClient); var w := ScanStream(Flatten([a, b]), ToClient);
            Ignores([], [a, b], ToClient) && f.actions == w.actions && f.error == w.error == Some(BadStart)
  {
    hide ScanStream, ContainsBanner;
    var cut: seq<seq<Byte>> := [a, b];
    assert cut[1..] == [b] && cut[1..][1..] == [] && [] + b == b;
    assert Flatten(cut[1..]) == b + [];
    assert Flatten(cut) == a + b;
    StartFails(a + b);
    StartFails(b);
    var f := Feed([], cut[1..], ToClient);
    assert f.actions == [] && f.error == Some(BadStart);
  }

  lemma OctetScan(s: seq<Byte>, dir: Direction)
    requires |s| == 1
    ensures ScanStream(s, dir) == Scan([], None, s)
  {
    hide Examine;
    ShortWaits(s, dir);
  }

  lemma TwoSegments(a: seq<Byte>, b: seq<Byte>)
    requires |a| == 1
    ensures !Ignores([], [a, b], ToClient) && Flatten([a, b]) == a + b
  {
    hide ScanStream, ContainsBanner;
    OctetScan(a, ToClient);
    if ContainsBanner(a) { BannerLength(a); }
    var cut: seq<seq<Byte>> := [a, b];
    assert [] + a == a;
    assert cut[1..] == [b] && cut[1..][1..] == [];
    assert Flatten(cut[1..]) == b + [];
    assert !Ignores(ParseChunk(a, b, ToClient).rest, cut[1..][1..], ToClient);
    assert !Ignores(a, cut[1..], ToClient);
  }

  lemma IgnoredWhole(s: seq<Byte>)
    requires ContainsBanner(s)
    ensures Feed([], [s], ToClient) == Scan([], None, [])
  {
    hide ScanStream, ContainsBanner;
    var whole: seq<seq<Byte>> := [s];
    assert whole[1..] == [];
  }

  /** Otherwise the cut matters: every response with a banner is ignored when it arrives at
      once and scanned when it is cut after its first octet. */
  lemma CutMatters(s: seq<Byte>)
    requires ContainsBanner(s)
    ensures |s| >= 4 && Feed([], [s], ToClient) == Scan([], None, [])
    ensures var f := Feed([], [s[..1], s[1..]], ToClient); var w := ScanStream(s, ToClient);
            && f.actions == w.actions && f.error == w.error && (f.error.None? ==> f.rest == w.rest)
            && f != Feed([], [s], ToClient)
  {
    hide ScanStream, ContainsBanner, Feed, Ignores, Flatten;
    ScanLength(s, ToClient);
    BannerLength(s);
    IgnoredWhole(s);
    TwoSegments(s[..1], s[1..]);
    ResponseSegmentation([s[..1], s[1..]]);
    assert s[..1] + s[1..] == s;
  }

  // ----- the buffer -----

  class Buffer {
    var buffer: array<Byte>
    var size: nat
    var len: nat
    var offset: nat

    ghost predicate Valid()
      reads this, buffer
    {
      offset <= len <= size == buffer.Length
    }

    ghost function Contents(): seq<Byte>
      requires Valid()
      reads this, buffer
    {
      buffer[offset..len]
    }

    constructor ()
      ensures Valid() && Contents() == [] && offset == 0 && fresh(buffer)
    {
      buffer := new Byte[0];
      size, len, offset := 0, 0, 0;
    }

    /** DNP3BufferReset. */
    method Reset()
      requires Valid()
      modifies this
      ensures Valid() && Contents() == [] && offset == 0 && buffer == old(buffer)
    {
      offset, len := 0, 0;
    }

    /** An allocation of at least `n` octets that keeps what is there. */
    method Enlarge(n: nat)
      requires Valid() && n >= len
      modifies this
      ensures Valid() && fresh(buffer) && size == n && len == old(len) && offset == old(offset)
      ensures Contents() == old(Contents())
    {
      var tmp := new Byte[n];
      CopyInto(tmp, 0, buffer[..len]);
      assert tmp[..len] == buffer[..len];
      assert tmp[offset..len] == tmp[..len][offset..];
      buffer, size := tmp, n;
    }

    /** Copy the data behind what is there. */
    method Store(data: seq<Byte>)
      requires Valid() && len + |data| <= size
      modifies `len, buffer
      ensures Valid() && Contents() == old(Contents()) + data
    {
      ghost var n := len;
      CopyInto(buffer, len, data);
      len := len + |data|;
      assert buffer[offset..n] == buffer[..n][offset..];
      assert buffer[offset..len] == buffer[offset..n] + buffer[n..len];
    }

    /** DNP3BufferAdd: append, enlarging the allocation when needed. */
    method Add(data: seq<Byte>, allocOk: bool) returns (ok: bool)
      requires Valid()
      modifies this, buffer
      ensures Valid() && offset == old(offset) && (buffer == old(buffer) || fresh(buffer))
      ensures ok == (allocOk || (old(size) > 0 && old(len) + |data| <= old(size)))
      ensures Contents() == if ok then old(Contents()) + data else old(Contents())
    {
      if size == 0 || len + |data| > size {
        if !allocOk {
          return false;
        }
        Enlarge(len + |data|);
      }
      Store(data);
      return true;
    }

    /** DNP3BufferTrim: move what is left to the front. */
    method Trim()
      requires Valid()
      modifies this, buffer
      ensures Valid() && Contents() == old(Contents()) && offset == 0 && buffer == old(buffer)
    {
      if offset == len {
        Reset();
      } else if offset > 0 {
        ghost var was := buffer[..];
        var n := len - offset;
        var i := 0;
        while i < n
          invariant 0 <= i <= n
          invariant offset == old(offset) && len == old(len) && size == old(size) && buffer == old(buffer)
          invariant buffer[..i] == was[offset..offset + i]
          invariant forall j :: offset + i <= j < len ==> buffer[j] == was[j]
        {
          buffer[i] := buffer[offset + i];
          i := i + 1;
          assert buffer[..i] == was[offset..offset + i];
        }
        len := n;
        offset := 0;
      }
    }
  }

  /** The input can be looked at: nothing waits, or there is room behind what waits. */
  predicate Looks(len: nat, size: nat, n: nat, allocOk: bool) { len == 0 || allocOk || len + n <= size }

  /** The residue can be kept: it is in the buffer already, is empty, or there is room. */
  predicate Keeps(len: nat, size: nat, n: nat, allocOk: bool) {
    len > 0 || n == 0 || allocOk || (size > 0 && n <= size)
  }

  /** One side of a flow: the buffer and the actions taken so far. */
  class StreamParser {
    const dir: Direction
    var buf: Buffer
    var actions: seq<Action>

    ghost predicate Valid()
      reads this, buf, buf.buffer
    {
      buf.Valid() && buf.offset == 0
    }

    constructor (dir: Direction)
      ensures Valid() && buf.Contents() == [] && actions == [] && this.dir == dir
    {
      this.dir := dir;
      buf := new Buffer();
      actions := [];
    }

    /** The part both sides share: handle what waits together with the input, or the input
        alone, and buffer what is left. */
    method Consume(input: seq<Byte>, allocOk: bool) returns (ok: bool)
      requires Valid()
      modifies this`actions, buf, buf.buffer
      ensures Valid()
      ensures var r := ScanStream(old(buf.Contents()) + input, dir);
              var looks := Looks(old(buf.len), old(buf.size), |input|, allocOk);
              && actions == (if looks then old(actions) + r.actions else old(actions))
              && ok == (looks && r.error.None? && Keeps(old(buf.len), old(buf.size), |r.rest|, allocOk))
              && buf.Contents() == if ok then r.rest else []
    {
      hide Examine, ScanStream;
      ghost var residue := buf.Contents();
      if buf.len > 0 {
        var added := buf.Add(input, allocOk);
        if !added {
          buf.Reset();
          return false;
        }
        assert buf.Contents() == residue + input;
        var processed, taken := HandleLinkLayer(buf.buffer[buf.offset..buf.len], dir);
        actions := actions + taken;
        if processed < 0 {
          buf.Reset();
          return false;
        }
        ghost var all := buf.Contents();
        buf.offset := buf.offset + processed;
        assert buf.Contents() == all[processed..];
        buf.Trim();
      } else {
        assert residue + input == input;
        var processed, taken := HandleLinkLayer(input, dir);
        actions := actions + taken;
        if processed < 0 {
          buf.Reset();
          return false;
        }
        if processed < |input| {
          var added := buf.Add(input[processed..], allocOk);
          if !added {
            buf.Reset();
            return false;
          }
          assert residue + input[processed..] == input[processed..];
        } else {
          assert input[processed..] == residue;
        }
      }
      return true;
    }

    /** DNP3ParseRequest. */
    method ParseRequest(input: seq<Byte>, allocOk: bool) returns (ok: bool)
      requires Valid() && dir.ToServer?
      modifies this`actions, buf, buf.buffer
      ensures Valid()
      ensures var r := ParseChunk(old(buf.Contents()), input, dir);
              var looks := Looks(old(buf.len), old(buf.size), |input|, allocOk);
              && actions == (if looks then old(actions) + r.actions else old(actions))
              && ok == (looks && r.error.None? && Keeps(old(buf.len), old(buf.size), |r.rest|, allocOk))
              && buf.Contents() == if ok then r.rest else []
    {
      hide ScanStream;
      if input == [] {
        return true;
      }
      ok := Consume(input, allocOk);
    }

    /** DNP3ParseResponse: a banner is looked for only while nothing waits. */
    method ParseResponse(input: seq<Byte>, allocOk: bool) returns (ok: bool)
      requires Valid() && dir.ToClient?
      modifies this`actions, buf, buf.buffer
      ensures Valid()
      ensures var r := ParseChunk(old(buf.Contents()), input, dir);
              var looks := Looks(old(buf.len), old(buf.size), |input|, allocOk);
              && actions == (if looks then old(actions) + r.actions else old(actions))
              && ok == (looks && r.error.None? && Keeps(old(buf.len), old(buf.size), |r.rest|, allocOk))
              && buf.Contents() == if ok then r.rest else []
    {
      hide ScanStream, ContainsBanner;
      if buf.len == 0 && ContainsBanner(input) {
        return true;
      }
      ok := Consume(input, allocOk);
    }
  }
}
