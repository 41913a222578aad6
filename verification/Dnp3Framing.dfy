/**
 DNP3 data-link framing (IEEE 1815-2012, clause 9): block CRCs after every sixteen octets,
 the length calculations, and the stripping of CRCs and transport octet.
 */
module Dnp3Framing {
  import opened Dnp3Crc

  const BLOCK_SIZE: nat := 16

  const LINK_HDR_LEN: nat := 5

  /** Octets of the link header on the wire, CRC included. */
  const HEADER_SIZE: nat := 10

  function Min(a: nat, b: nat): nat { if a < b then a else b }

  // ----- lengths -----

  /** DNP3CalculateLinkLength: octets of a frame whose header announces `length`. */
  function LinkLength(length: nat): nat {
    if length < LINK_HDR_LEN then 0
    else
      var n := length - LINK_HDR_LEN;
      var rem := n % BLOCK_SIZE;
      (n / BLOCK_SIZE) * (BLOCK_SIZE + CRC_LEN) + (if rem != 0 then rem + CRC_LEN else 0) + HEADER_SIZE
  }

  /** DNP3CalculateTransportLengthWithoutCRCs. */
  function TransportLength(n: nat): int {
    if n < CRC_LEN then -1
    else
      var blocks := n / (BLOCK_SIZE + CRC_LEN);
      var rem := n - blocks * (BLOCK_SIZE + CRC_LEN);
      if rem != 0 then (if rem < CRC_LEN then -1 else blocks * BLOCK_SIZE + (rem - CRC_LEN))
      else blocks * BLOCK_SIZE
  }

  // ----- adding and stripping CRCs -----

  /** Reference: the sender inserts a CRC after each sixteen octets and after the rest. */
  function AddCrcs(p: seq<Byte>): seq<Byte> {
    if p == [] then []
    else var k := Min(|p|, BLOCK_SIZE); p[..k] + CrcBytes(p[..k]) + AddCrcs(p[k..])
  }

  /** Reference: drop the last two octets of each block of up to eighteen. */
  function StripCrcs(s: seq<Byte>): seq<Byte> {
    if |s| <= CRC_LEN then []
    else var k := Min(|s|, BLOCK_SIZE + CRC_LEN); s[..k - CRC_LEN] + StripCrcs(s[k..])
  }

  /** Every block of up to eighteen octets passes its CRC check. */
  predicate BlocksOk(s: seq<Byte>) {
    s == [] || (var k := Min(|s|, BLOCK_SIZE + CRC_LEN); CheckCRC(s[..k]) && BlocksOk(s[k..]))
  }

  /** DNP3CheckUserDataCRCs. */
  method CheckUserDataCRCs(data: seq<Byte>) returns (ok: bool)
    ensures ok <==> BlocksOk(data)
  {
    hide CheckCRC;
    var offset := 0;
    assert data[0..] == data;
    while offset < |data|
      invariant 0 <= offset <= |data|
      invariant BlocksOk(data) <==> BlocksOk(data[offset..])
    {
      var blockSize;
      if |data| - offset >= BLOCK_SIZE + CRC_LEN {
        blockSize := BLOCK_SIZE + CRC_LEN;
      } else {
        blockSize := |data| - offset;
      }
      assert data[offset..][..blockSize] == data[offset..offset + blockSize];
      assert data[offset..][blockSize..] == data[offset + blockSize..];
      var blockOk := CheckBlock(data[offset..offset + blockSize]);
      if !blockOk {
        return false;
      }
      offset := offset + blockSize;
    }
    return true;
  }

  lemma {:induction false} AddCrcsLength(p: seq<Byte>)
    ensures |AddCrcs(p)| + HEADER_SIZE == LinkLength(|p| + LINK_HDR_LEN)
  {
    hide CrcBytes;
    if |p| > BLOCK_SIZE {
      AddCrcsLength(p[BLOCK_SIZE..]);
      assert (|p| - BLOCK_SIZE) % BLOCK_SIZE == |p| % BLOCK_SIZE;
      assert (|p| - BLOCK_SIZE) / BLOCK_SIZE == |p| / BLOCK_SIZE - 1;
    } else if p != [] {
      assert p[|p|..] == [];
    }
  }

  /** Stripping undoes adding. */
  lemma {:induction false} StripAdd(p: seq<Byte>)
    ensures StripCrcs(AddCrcs(p)) == p
  {
    hide CrcBytes;
    if p != [] {
      var k := Min(|p|, BLOCK_SIZE);
      var s := AddCrcs(p);
      var head := p[..k] + CrcBytes(p[..k]);
      assert s == head + AddCrcs(p[k..]);
      StripAdd(p[k..]);
      if |p| <= BLOCK_SIZE {
        assert p[k..] == [] && s == head;
        assert s[|s|..] == [];
        assert s[..|s|] == s;
      } else {
        AddCrcsNonEmpty(p[k..]);
        assert s[..18] == head && s[18..] == AddCrcs(p[k..]);
      }
    }
  }

  lemma AddCrcsNonEmpty(p: seq<Byte>)
    requires p != []
    ensures |AddCrcs(p)| > CRC_LEN
  {
    hide CrcBytes;
  }

  lemma AddStep(data: seq<Byte>, more: seq<Byte>)
    requires 0 < |data| <= BLOCK_SIZE && (|data| == BLOCK_SIZE || more == [])
    ensures AddCrcs(data + more) == data + CrcBytes(data) + AddCrcs(more)
  {
    hide CrcBytes;
    var k := |data|;
    assert Min(|data + more|, BLOCK_SIZE) == k;
    assert (data + more)[..k] == data && (data + more)[k..] == more;
  }

  lemma BlocksStep(block: seq<Byte>, more: seq<Byte>)
    requires CRC_LEN < |block| <= 18 && (|block| == 18 || more == [])
    ensures BlocksOk(block + more) <==> CheckCRC(block) && BlocksOk(more)
    ensures StripCrcs(block + more) == block[..|block| - CRC_LEN] + StripCrcs(more)
  {
    hide CheckCRC;
    var k := |block|;
    assert Min(|block + more|, 18) == k;
    assert (block + more)[..k] == block && (block + more)[k..] == more;
    assert (block + more)[..k - CRC_LEN] == block[..k - CRC_LEN];
  }

  lemma SameParts(data: seq<Byte>, t: seq<Byte>, u: seq<Byte>, r: seq<Byte>, q: seq<Byte>)
    requires |t| == |u|
    ensures data + t + r == data + u + q <==> t == u && r == q
  {
    if data + t + r == data + u + q {
      var n := |data| + |t|;
      assert (data + t + r)[|data|..n] == t && (data + u + q)[|data|..n] == u;
      assert (data + t + r)[n..] == r && (data + u + q)[n..] == q;
    }
  }

  /** The user-data check accepts exactly the octets a sender produces. */
  lemma {:induction false} ChecksExactly(s: seq<Byte>)
    ensures BlocksOk(s) <==> s == AddCrcs(StripCrcs(s))
  {
    hide CheckCRC, CrcBytes;
    if s == [] {
    } else if |s| <= CRC_LEN {
      assert s[..|s|] == s;
      ShortFails(s);
    } else {
      hide AddCrcs, StripCrcs, BlocksOk;
      var k := Min(|s|, 18);
      var data, tail, rest := s[..k - CRC_LEN], s[k - CRC_LEN..k], s[k..];
      assert s[..k] == data + tail && s == (data + tail) + rest && (data + tail)[..k - CRC_LEN] == data;
      ChecksExactly(rest);
      BlocksStep(data + tail, rest);
      CheckedBlock(data, tail);
      RestStrips(rest);
      AddStep(data, StripCrcs(rest));
      SameParts(data, tail, CrcBytes(data), rest, AddCrcs(StripCrcs(rest)));
    }
  }

  lemma RestStrips(s: seq<Byte>)
    ensures s == [] ==> StripCrcs(s) == []
  {
  }

  lemma ShortFails(s: seq<Byte>)
    requires |s| <= CRC_LEN
    ensures !CheckCRC(s)
  {
  }

  // ----- reassembly -----

  lemma {:induction false} StripLength(s: seq<Byte>)
    requires |s| >= CRC_LEN && |s| % 18 != 1
    ensures |StripCrcs(s)| == TransportLength(|s|)
  {
    if |s| > 18 {
      assert |s[18..]| % 18 == |s| % 18 && |s[18..]| / 18 == |s| / 18 - 1;
      if |s| != 18 + 1 {
        StripLength(s[18..]);
      }
    } else if |s| > CRC_LEN {
      assert s[|s|..] == [];
    }
  }

  /** The input lengths that end on a whole block of at least three octets. */
  predicate Strippable(n: nat) {
    n >= 4 && n % (BLOCK_SIZE + CRC_LEN) != 1 && n % (BLOCK_SIZE + CRC_LEN) != 2
  }

  /** DNP3ReassembleApplicationLayer: `out` is the caller's buffer, which already holds
      `output`; reassembly fails exactly on a length that cannot be stripped or without
      memory, and otherwise appends the input minus CRCs and transport octet, filling the
      allocation exactly. */
  method Reassemble(input: seq<Byte>, output: seq<Byte>, allocOk: bool) returns (ok: bool, out: seq<Byte>)
    ensures ok <==> Strippable(|input|) && allocOk
    ensures ok ==> StripCrcs(input) != [] && out == output + StripCrcs(input)[1..]
    ensures ok ==> |out| == |output| + TransportLength(|input|) - 1
    ensures output <= out
  {
    hide StripCrcs, TransportLength;
    out := output;
    var len := TransportLength(|input|);
    LengthPositive(|input|);
    if len <= 0 {
      return false, out;
    }
    len := len - 1;
    if len < 1 {
      return false, out;
    }
    if !allocOk {
      return false, out;
    }
    StripLength(input);
    assert input[0..] == input;
    var offset := 0;
    ghost var done: seq<Byte> := [];
    ghost var blocks := 0;
    while offset < |input|
      invariant 0 <= offset <= |input|
      invariant offset < |input| ==> offset == 18 * blocks
      invariant offset == |input| ==> |input| % 18 != 2
      invariant StripCrcs(input) == done + StripCrcs(input[offset..])
      invariant Filled(offset, out, output, done, len, |StripCrcs(input)| - |done|)
    {
      ghost var start := offset;
      var blockSize;
      if |input| - offset > BLOCK_SIZE + CRC_LEN {
        blockSize := BLOCK_SIZE + CRC_LEN;
      } else {
        blockSize := |input| - offset;
      }
      ghost var k := blockSize;
      if offset == 0 {
        offset := offset + 1;
        blockSize := blockSize - 1;
      }
      if blockSize < CRC_LEN + 1 {
        DivMod18(|input|, blocks, k);
        return false, out;
      }
      BlockStep(input, start, k);
      if blockSize - CRC_LEN > len {
        assert false;
      }
      out := out + input[offset..offset + blockSize - CRC_LEN];
      done := done + input[start..start + k - CRC_LEN];
      offset := offset + blockSize;
      len := len - (blockSize - CRC_LEN);
      blocks := blocks + 1;
      if offset == |input| {
        if k == 18 { DivMod18(|input|, blocks, 0); } else { DivMod18(|input|, blocks - 1, k); }
      }
    }
    assert input[offset..] == [];
    RestStrips(input[offset..]);
    return true, out;
  }

  lemma LengthPositive(n: nat)
    ensures TransportLength(n) >= 2 <==> n >= 4 && n % 18 != 1
  {
    var q, r := n / 18, n % 18;
    assert n == 18 * q + r;
  }

  /** The loop's progress: before the first block nothing is written; afterwards the output
      holds what is done but for the transport octet, and `len` counts what is left. */
  ghost predicate Filled(offset: nat, out: seq<Byte>, output: seq<Byte>, done: seq<Byte>, len: int, left: int) {
    if offset == 0 then out == output && done == [] && len == left - 1
    else done != [] && out == output + done[1..] && len == left
  }

  lemma BlockStep(s: seq<Byte>, i: nat, k: nat)
    requires i < |s| && k == Min(|s| - i, 18) && k > CRC_LEN
    ensures StripCrcs(s[i..]) == s[i..i + k - CRC_LEN] + StripCrcs(s[i + k..])
  {
    assert s[i..][..k - CRC_LEN] == s[i..i + k - CRC_LEN] && s[i..][k..] == s[i + k..];
  }

  /** Framing round trip: what a sender frames, reassembly returns without the transport
      octet; it refuses exactly the payloads with nothing behind that octet. */
  lemma RoundTrip(p: seq<Byte>)
    ensures Strippable(|AddCrcs(p)|) <==> |p| >= 2
    ensures |p| >= 1 ==> StripCrcs(AddCrcs(p)) != [] && StripCrcs(AddCrcs(p))[1..] == p[1..]
    ensures |p| >= 2 ==> TransportLength(|AddCrcs(p)|) == |p|
  {
    StripAdd(p);
    AddCrcsLength(p);
    if |p| >= 2 {
      hide AddCrcs, StripCrcs, TransportLength, LinkLength, Strippable;
      FrameStrippable(|p| + LINK_HDR_LEN);
    } else {
      hide AddCrcs, StripCrcs;
      assert |p| == 0 ==> LinkLength(|p| + LINK_HDR_LEN) == HEADER_SIZE;
      assert |p| == 1 ==> LinkLength(|p| + LINK_HDR_LEN) == HEADER_SIZE + 3;
    }
  }

  /** The data part of a frame announced with at least two user octets can be stripped. */
  lemma FrameStrippable(length: nat)
    requires length >= LINK_HDR_LEN + 2
    ensures LinkLength(length) >= HEADER_SIZE + 4
    ensures Strippable(LinkLength(length) - HEADER_SIZE)
    ensures TransportLength(LinkLength(length) - HEADER_SIZE) == length - LINK_HDR_LEN
  {
    var n := length - LINK_HDR_LEN;
    var q, r := n / 16, n % 16;
    assert n == 16 * q + r;
    var m := LinkLength(length) - HEADER_SIZE;
    assert m == 18 * q + (if r != 0 then r + 2 else 0);
    if r != 0 {
      DivMod18(m, q, r + 2);
    } else {
      DivMod18(m, q, 0);
    }
  }

  lemma DivMod18(m: nat, q: nat, r: nat)
    requires m == 18 * q + r && r < 18
    ensures m / 18 == q && m % 18 == r
  {
  }
}
