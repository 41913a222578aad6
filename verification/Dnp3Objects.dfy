/**
 The DNP3 object decoders of src/app-layer-dnp3-objects.c as one interpreter over a field
 schema: a cursor that is read from the front, points in the order they are decoded, and
 the encoding they are decoded from.
 */
module Dnp3Objects {
  import opened Common

  type Octet = n: int | 0 <= n < 256

  const U32: nat := 0x1_0000_0000

  const U16: nat := 0x1_0000

  /** A 32-bit counter. */
  function Wrap(n: nat): (r: nat)
    ensures r < U32
  {
    n % U32
  }

  lemma {:induction false} ModPlus(x: nat, q: nat)
    ensures (x + q * U32) % U32 == x % U32
  {
    if q > 0 {
      ModPlus(x, q - 1);
      assert x + q * U32 == x + (q - 1) * U32 + U32;
    }
  }

  lemma WrapAdd(n: nat, k: nat)
    ensures Wrap(Wrap(n) + k) == Wrap(n + k)
  {
    var q := n / U32;
    assert n + k == (n % U32 + k) + q * U32;
    ModPlus(n % U32 + k, q);
  }

  lemma WrapSmall(n: nat)
    requires n < U32
    ensures Wrap(n) == n
  {
  }

  // ----- schemas -----

  /** One field of a generated decoder. */
  datatype Field =
    | Fixed(width: nat)            // integers, floats, times, bit strings: a fixed number of octets
    | Counted(from: nat)           // octets counted by an earlier field
    | ToPrefix(limit: Option<nat>) // what the size prefix leaves, below `limit` if there is one

  /** What a decoder demands of the qualifier's prefix code. */
  datatype Constraint = AnyPrefix | SizePrefix | ExactPrefix(code: nat)

  /** Bits per point of a packed object. */
  datatype Width = OneBit | TwoBits {
    /** Points an octet holds. */
    function Per(): nat { match this case OneBit => 8 case TwoBits => 4 }
    /** Bit position of the k-th point of an octet. */
    function Pos(k: nat): nat { match this case OneBit => k case TwoBits => 2 * k }
    /** Octet and place of the i-th point. */
    function OctetOf(i: nat): nat { match this case OneBit => i / 8 case TwoBits => i / 4 }
    function PlaceOf(i: nat): nat { match this case OneBit => i % 8 case TwoBits => i % 4 }
    function Mask(): nat { match this case OneBit => 2 case TwoBits => 4 }
  }

  datatype Schema =
    | Packed(width: Width)
    | Plain(constraint: Constraint, fields: seq<Field>)

  // ----- reading -----

  /** Little-endian value of octets. */
  function Value(s: seq<Octet>): nat {
    if s == [] then 0 else s[0] + 256 * Value(s[1..])
  }

  /** Octets of the per-point prefix. */
  function PrefixLen(code: nat): nat {
    match code
    case 1 => 1
    case 4 => 1
    case 2 => 2
    case 5 => 2
    case 3 => 4
    case 6 => 4
    case _ => 0
  }

  /** DNP3PrefixIsSize. */
  predicate IsSizeCode(code: nat) { 4 <= code <= 6 }

  predicate IsIndexCode(code: nat) { 1 <= code <= 3 }

  predicate Allows(c: Constraint, code: nat) {
    match c
    case AnyPrefix => true
    case SizePrefix => IsSizeCode(code)
    case ExactPrefix(n) => code == n
  }

  /** What reading a field takes: a number of octets, or nothing if it is rejected; `used`
      counts the octets of the point read since its prefix. */
  function FieldLen(x: Field, vals: seq<seq<Octet>>, prefix: nat, used: nat): Option<nat> {
    match x
    case Fixed(w) => Some(w)
    case Counted(k) => if k < |vals| then Some(Value(vals[k])) else None
    case ToPrefix(limit) =>
      if prefix < used || (limit.Some? && prefix - used >= limit.value) then None
      else Some((prefix - used) % U16)
  }

  /** Field values read, or failure, and what the cursor still holds. */
  datatype FieldsRead = FieldsRead(ok: bool, vals: seq<seq<Octet>>, rest: seq<Octet>)

  /** Read the fields in turn; `before` are the values of the fields already read. */
  function ReadFields(fields: seq<Field>, before: seq<seq<Octet>>, buf: seq<Octet>, prefix: nat, used: nat): FieldsRead
    decreases |fields|
  {
    if fields == [] then FieldsRead(true, [], buf)
    else
      var n := FieldLen(fields[0], before, prefix, used);
      if n.None? || |buf| < n.value then FieldsRead(false, [], buf)
      else
        var v := buf[..n.value];
        var r := ReadFields(fields[1..], before + [v], buf[n.value..], prefix, used + n.value);
        r.(vals := [v] + r.vals)
  }

  /** A decoded point. */
  datatype Point = Point(index: nat, prefix: nat, size: nat, vals: seq<seq<Octet>>)

  /** DNP3AddPoint. */
  function MakePoint(vals: seq<seq<Octet>>, index: nat, code: nat, prefix: nat): Point {
    Point(if IsIndexCode(code) then prefix else index, prefix, if IsSizeCode(code) then prefix else 0, vals)
  }

  /** Points appended, whether decoding went through, and what the cursor still holds. */
  datatype Decoded = Decoded(ok: bool, points: seq<Point>, rest: seq<Octet>)

  /** The point loop of a non-packed decoder: prefix, fields, point, `count` times; the
      point index is a 32-bit counter. */
  function DecodePoints(fields: seq<Field>, buf: seq<Octet>, code: nat, index: nat, count: nat): Decoded
    decreases count
  {
    if count == 0 then Decoded(true, [], buf)
    else if |buf| < PrefixLen(code) then Decoded(false, [], buf)
    else
      var prefix := Value(buf[..PrefixLen(code)]);
      var r := ReadFields(fields, [], buf[PrefixLen(code)..], prefix, 0);
      if !r.ok then Decoded(false, [], r.rest)
      else
        var d := DecodePoints(fields, r.rest, code, Wrap(index + 1), count - 1);
        d.(points := [MakePoint(r.vals, index, code, prefix)] + d.points)
  }

  /** A non-packed decoder, with its early rejection. */
  function DecodePlain(c: Constraint, fields: seq<Field>, buf: seq<Octet>, code: nat, start: nat, count: nat): Decoded {
    if !Allows(c, code) || |buf| < count / 8 then Decoded(false, [], buf)
    else DecodePoints(fields, buf, code, start, count)
  }

  // ----- packed bits -----

  /** The bits of the k-th point of an octet: shift right, then mask. */
  function Extract(b: Octet, k: nat, w: Width): Octet
    requires k < w.Per()
  {
    (b / Pow2(w.Pos(k))) % w.Mask()
  }

  function PackedPoint(b: Octet, k: nat, w: Width, index: nat, code: nat, prefix: nat): Point
    requires k < w.Per()
  {
    MakePoint([[Extract(b, k, w)]], index, code, prefix)
  }

  /** The points of one octet from the k-th on, while points are wanted. */
  function UnpackOctet(b: Octet, k: nat, w: Width, index: nat, count: nat, code: nat, prefix: nat): seq<Point>
    decreases w.Per() - k
  {
    if k >= w.Per() || count == 0 then []
    else [PackedPoint(b, k, w, index, code, prefix)] + UnpackOctet(b, k + 1, w, Wrap(index + 1), count - 1, code,
      prefix)
  }

  function Least(a: nat, b: nat): nat { if a < b then a else b }

  /** The octet loop of a packed decoder. */
  function UnpackOctets(buf: seq<Octet>, octets: nat, w: Width, index: nat, count: nat, code: nat, prefix: nat): Decoded
    decreases octets
  {
    if octets == 0 then Decoded(true, [], buf)
    else if buf == [] then Decoded(false, [], buf)
    else
      var n := Least(count, w.Per());
      var d := UnpackOctets(buf[1..], octets - 1, w, Wrap(index + n), count - n, code, prefix);
      d.(points := UnpackOctet(buf[0], 0, w, index, count, code, prefix) + d.points)
  }

  /** A packed decoder: one prefix, then count / 8 + 1 octets. */
  function DecodePacked(w: Width, buf: seq<Octet>, code: nat, start: nat, count: nat): Decoded {
    if |buf| < PrefixLen(code) then Decoded(false, [], buf)
    else
      UnpackOctets(buf[PrefixLen(code)..], count / 8 + 1, w, start, count, code, Value(buf[..PrefixLen(code)]))
  }

  function Decode(s: Schema, buf: seq<Octet>, code: nat, start: nat, count: nat): Decoded {
    match s
    case Packed(w) => DecodePacked(w, buf, code, start, count)
    case Plain(c, fields) => DecodePlain(c, fields, buf, code, start, count)
  }

  // ----- the encoding -----

  function Join(vals: seq<seq<Octet>>): seq<Octet> {
    if vals == [] then [] else vals[0] + Join(vals[1..])
  }

  /** These values fit these fields of a point with this prefix. */
  ghost predicate Fits(fields: seq<Field>, before: seq<seq<Octet>>, vals: seq<seq<Octet>>, prefix: nat, used: nat)
    decreases |fields|
  {
    if fields == [] then vals == []
    else
      && vals != []
      && FieldLen(fields[0], before, prefix, used) == Some(|vals[0]|)
      && Fits(fields[1..], before + [vals[0]], vals[1..], prefix, used + |vals[0]|)
  }

  lemma FitsCons(fields: seq<Field>, before: seq<seq<Octet>>, v: seq<Octet>, vals: seq<seq<Octet>>, prefix: nat,
                 used: nat)
    requires fields != [] && FieldLen(fields[0], before, prefix, used) == Some(|v|)
    requires Fits(fields[1..], before + [v], vals, prefix, used + |v|)
    ensures Fits(fields, before, [v] + vals, prefix, used)
  {
    hide FieldLen;
    assert ([v] + vals)[1..] == vals;
  }

  lemma JoinCons(v: seq<Octet>, vals: seq<seq<Octet>>)
    ensures Join([v] + vals) == v + Join(vals)
  {
    assert ([v] + vals)[1..] == vals;
  }

  lemma Reassociate(buf: seq<Octet>, n: nat, a: seq<Octet>, b: seq<Octet>)
    requires n <= |buf| && buf[n..] == a + b
    ensures buf == (buf[..n] + a) + b
  {
    assert buf == buf[..n] + buf[n..];
  }

  /** What is read successfully fits the fields and is exactly what was consumed. */
  lemma {:induction false} ReadFieldsSound(fields: seq<Field>, before: seq<seq<Octet>>, buf: seq<Octet>,
                                           prefix: nat, used: nat)
    requires ReadFields(fields, before, buf, prefix, used).ok
    ensures var r := ReadFields(fields, before, buf, prefix, used);
            Fits(fields, before, r.vals, prefix, used) && buf == Join(r.vals) + r.rest
    decreases |fields|
  {
    hide FieldLen;
    if fields == [] {
      assert buf == [] + buf;
    } else {
      hide Fits, Join;
      var n := FieldLen(fields[0], before, prefix, used).value;
      var v := buf[..n];
      var r := ReadFields(fields[1..], before + [v], buf[n..], prefix, used + n);
      ReadFieldsSound(fields[1..], before + [v], buf[n..], prefix, used + n);
      FitsCons(fields, before, v, r.vals, prefix, used);
      JoinCons(v, r.vals);
      Reassociate(buf, n, Join(r.vals), r.rest);
    }
  }

  /** The octets of fitting values are read back as those values, whatever follows them. */
  lemma {:induction false} ReadFieldsBack(fields: seq<Field>, before: seq<seq<Octet>>, vals: seq<seq<Octet>>,
                                          more: seq<Octet>, prefix: nat, used: nat)
    requires Fits(fields, before, vals, prefix, used)
    ensures ReadFields(fields, before, Join(vals) + more, prefix, used) == FieldsRead(true, vals, more)
    decreases |fields|
  {
    hide FieldLen;
    if fields == [] {
      assert Join(vals) + more == more;
    } else {
      var buf := Join(vals) + more;
      var n := |vals[0]|;
      assert buf[..n] == vals[0] && buf[n..] == Join(vals[1..]) + more;
      ReadFieldsBack(fields[1..], before + [vals[0]], vals[1..], more, prefix, used + n);
    }
  }

  /** A point on the wire: its prefix octets, then its values. */
  datatype Wire = Wire(prefix: seq<Octet>, vals: seq<seq<Octet>>) {
    function Octets(): seq<Octet> { prefix + Join(vals) }
  }

  function Encode(ws: seq<Wire>): seq<Octet> {
    if ws == [] then [] else ws[0].Octets() + Encode(ws[1..])
  }

  ghost predicate WireFits(w: Wire, fields: seq<Field>, code: nat) {
    |w.prefix| == PrefixLen(code) && Fits(fields, [], w.vals, Value(w.prefix), 0)
  }

  /** The point the source stores for the i-th wire point. */
  function Stored(w: Wire, code: nat, start: nat, i: nat): Point {
    MakePoint(w.vals, Wrap(start + i), code, Value(w.prefix))
  }

  function AllStored(ws: seq<Wire>, code: nat, start: nat): seq<Point> {
    seq(|ws|, i requires 0 <= i < |ws| => Stored(ws[i], code, start, i))
  }

  lemma StoredShift(ws: seq<Wire>, code: nat, start: nat)
    requires ws != []
    ensures AllStored(ws, code, start) == [Stored(ws[0], code, start, 0)] + AllStored(ws[1..], code, Wrap(start + 1))
  {
    hide Wrap, MakePoint, Value;
    var a, b := AllStored(ws, code, start), AllStored(ws[1..], code, Wrap(start + 1));
    forall i | 1 <= i < |a| ensures a[i] == b[i - 1] {
      assert ws[1..][i - 1] == ws[i];
      WrapAdd(start + 1, i - 1);
    }
  }

  lemma EncodeCons(w: Wire, more: seq<Wire>, rest: seq<Octet>)
    ensures Encode([w] + more) + rest == w.Octets() + (Encode(more) + rest)
  {
    hide Join;
    assert ([w] + more)[1..] == more;
  }

  lemma EncodeNone()
    ensures Encode([]) == []
  {
  }

  lemma SplitPoint(p: seq<Octet>, vals: seq<Octet>, tail: seq<Octet>)
    ensures ((p + vals) + tail)[..|p|] == p && ((p + vals) + tail)[|p|..] == vals + tail
  {
  }

  /** Completeness: every sequence of fitting wire points is decoded into exactly those
      points, in order, and the cursor stops right behind them. */
  lemma {:induction false} DecodeEncode(ws: seq<Wire>, more: seq<Octet>, fields: seq<Field>, code: nat, start: nat)
    requires start < U32
    requires forall i :: 0 <= i < |ws| ==> WireFits(ws[i], fields, code)
    ensures DecodePoints(fields, Encode(ws) + more, code, start, |ws|) ==
              Decoded(true, AllStored(ws, code, start), more)
    decreases |ws|
  {
    WrapSmall(start);
    hide Wrap, MakePoint, Value, PrefixLen, AllStored, Encode, Join, Fits, ReadFields;
    if ws == [] {
      EncodeNone();
      assert [] + more == more;
      StoredNone(ws, code, start);
    } else {
      var w := ws[0];
      assert WireFits(w, fields, code);
      assert ws == [w] + ws[1..];
      EncodeCons(w, ws[1..], more);
      var tail := Encode(ws[1..]) + more;
      SplitPoint(w.prefix, Join(w.vals), tail);
      ReadFieldsBack(fields, [], w.vals, tail, Value(w.prefix), 0);
      DecodeEncode(ws[1..], more, fields, code, Wrap(start + 1));
      StoredShift(ws, code, start);
    }
  }

  lemma StoredNone(ws: seq<Wire>, code: nat, start: nat)
    requires ws == []
    ensures AllStored(ws, code, start) == []
  {
  }

  /** Soundness: a successful non-packed decode consumed the encoding of exactly `count`
      fitting wire points, and stored those points in order. */
  lemma {:induction false} DecodeSound(fields: seq<Field>, buf: seq<Octet>, code: nat, start: nat,
                                       count: nat) returns (ws: seq<Wire>)
    requires start < U32
    requires DecodePoints(fields, buf, code, start, count).ok
    ensures var d := DecodePoints(fields, buf, code, start, count);
            && |ws| == count
            && (forall i :: 0 <= i < count ==> WireFits(ws[i], fields, code))
            && buf == Encode(ws) + d.rest
            && d.points == AllStored(ws, code, start)
    decreases count
  {
    WrapSmall(start);
    hide Wrap, MakePoint, Value, PrefixLen, AllStored, ReadFields, Fits, Join, Encode;
    if count == 0 {
      ws := [];
      EncodeNone();
      assert buf == [] + buf;
      StoredNone(ws, code, start);
    } else {
      var p := PrefixLen(code);
      var prefix := Value(buf[..p]);
      var r := ReadFields(fields, [], buf[p..], prefix, 0);
      ReadFieldsSound(fields, [], buf[p..], prefix, 0);
      assert buf[p..] == Join(r.vals) + r.rest;
      var w := Wire(buf[..p], r.vals);
      var more := DecodeSound(fields, r.rest, code, Wrap(start + 1), count - 1);
      ws := [w] + more;
      var d := DecodePoints(fields, r.rest, code, Wrap(start + 1), count - 1);
      assert ws[1..] == more;
      Reassociate(buf, p, Join(r.vals), r.rest);
      assert r.rest == Encode(more) + d.rest;
      EncodeCons(w, more, d.rest);
      StoredShift(ws, code, start);
    }
  }

  /** On success a non-packed decoder has appended exactly `count` points, indexed by the
      prefix for codes 1 to 3 and otherwise from `start` on, modulo 2^32. */
  lemma PlainPoints(c: Constraint, fields: seq<Field>, buf: seq<Octet>, code: nat, start: nat, count: nat)
    requires start < U32 && DecodePlain(c, fields, buf, code, start, count).ok
    ensures var d := DecodePlain(c, fields, buf, code, start, count);
            && |d.points| == count
            && forall i :: 0 <= i < count ==>
                 && d.points[i].index == (if IsIndexCode(code) then d.points[i].prefix else Wrap(start + i))
                 && d.points[i].size == (if IsSizeCode(code) then d.points[i].prefix else 0)
  {
    hide DecodePoints, PrefixLen, Fits, Encode;
    var ws := DecodeSound(fields, buf, code, start, count);
  }

  // ----- size-prefixed objects -----

  /** With a field that runs to the end of the size prefix at the end of the schema, the
      values are as long as the prefix says, up to the 16-bit length the source keeps. */
  lemma {:induction false} FitsToPrefix(fields: seq<Field>, limit: Option<nat>, before: seq<seq<Octet>>,
                                        vals: seq<seq<Octet>>, prefix: nat, used: nat)
    requires Fits(fields + [ToPrefix(limit)], before, vals, prefix, used)
    ensures |Join(vals)| + used <= prefix
    ensures |Join(vals)| + used == prefix || prefix >= U16
    ensures limit.Some? && limit.value <= U16 ==> |Join(vals)| + used == prefix
    decreases |fields|
  {
    var all := fields + [ToPrefix(limit)];
    if fields == [] {
      assert all == [ToPrefix(limit)] && all[1..] == [];
      assert vals == [vals[0]] && vals[1..] == [];
      assert Join(vals) == vals[0] + [];
    } else {
      assert all[0] == fields[0] && all[1..] == fields[1..] + [ToPrefix(limit)];
      FitsToPrefix(fields[1..], limit, before + [vals[0]], vals[1..], prefix, used + |vals[0]|);
    }
  }

  lemma {:induction false} ValueBound(s: seq<Octet>)
    ensures |s| <= 1 ==> Value(s) < 256
    ensures |s| <= 2 ==> Value(s) < U16
    ensures |s| <= 3 ==> Value(s) < 256 * U16
    ensures |s| <= 4 ==> Value(s) < U32
  {
    if s != [] {
      ValueBound(s[1..]);
    }
  }

  /** Size-prefixed variations: each point of a successful decode takes its prefix octets
      and then exactly as many octets as the prefix says, when the decoder demands a
      two-octet prefix or limits the last field below 2^16. */
  lemma SizePrefixExact(fields: seq<Field>, limit: Option<nat>, w: Wire, code: nat)
    requires WireFits(w, fields + [ToPrefix(limit)], code)
    requires code == 5 || (limit.Some? && limit.value <= U16)
    ensures |w.Octets()| == PrefixLen(code) + Value(w.prefix)
  {
    FitsToPrefix(fields, limit, [], w.vals, Value(w.prefix), 0);
    ValueBound(w.prefix);
  }

  // ----- the early rejection -----

  /** Octets every point of this schema takes, whatever its prefix. */
  function MinOctets(fields: seq<Field>): nat {
    if fields == [] then 0 else (match fields[0] case Fixed(w) => w case _ => 0) + MinOctets(fields[1..])
  }

  lemma {:induction false} FitsMin(fields: seq<Field>, before: seq<seq<Octet>>, vals: seq<seq<Octet>>,
                                   prefix: nat, used: nat)
    requires Fits(fields, before, vals, prefix, used)
    ensures |Join(vals)| >= MinOctets(fields)
    decreases |fields|
  {
    if fields != [] {
      FitsMin(fields[1..], before + [vals[0]], vals[1..], prefix, used + |vals[0]|);
    }
  }

  lemma {:induction false} EncodeMin(ws: seq<Wire>, fields: seq<Field>, code: nat)
    requires forall i :: 0 <= i < |ws| ==> WireFits(ws[i], fields, code)
    requires PrefixLen(code) + MinOctets(fields) >= 1
    ensures |Encode(ws)| >= |ws|
  {
    hide PrefixLen, MinOctets, Fits;
    if ws != [] {
      assert WireFits(ws[0], fields, code);
      FitsMin(fields, [], ws[0].vals, Value(ws[0].prefix), 0);
      EncodeMin(ws[1..], fields, code);
    }
  }

  /** The early rejection of an input shorter than count / 8 never turns a success into a
      failure when every point takes at least one octet. */
  lemma EarlyRejectionHarmless(c: Constraint, fields: seq<Field>, buf: seq<Octet>, code: nat, start: nat, count: nat)
    requires start < U32 && PrefixLen(code) + MinOctets(fields) >= 1
    ensures DecodePlain(c, fields, buf, code, start, count).ok <==>
              Allows(c, code) && DecodePoints(fields, buf, code, start, count).ok
  {
    hide DecodePoints, PrefixLen, MinOctets, Fits, Encode, AllStored;
    if DecodePoints(fields, buf, code, start, count).ok {
      var ws := DecodeSound(fields, buf, code, start, count);
      EncodeMin(ws, fields, code);
    }
  }

  /** The one schema for which it matters: a point that is nothing but what the size prefix
      leaves, without prefix octets, takes no octets at all, so decoding would always
      succeed and the rejection alone decides. */
  lemma {:induction false} EmptyPoints(buf: seq<Octet>, code: nat, start: nat, count: nat)
    requires PrefixLen(code) == 0
    ensures DecodePoints([ToPrefix(None)], buf, code, start, count).ok
    ensures DecodePoints([ToPrefix(None)], buf, code, start, count).rest == buf
    decreases count
  {
    if count > 0 {
      assert buf[..0] == [] && buf[0..] == buf;
      var fields := [ToPrefix(None)];
      assert fields[1..] == [];
      assert ReadFields(fields, [], buf, 0, 0).rest == buf;
      EmptyPoints(buf, code, Wrap(start + 1), count - 1);
    }
  }

  // ----- packed objects -----

  lemma {:induction false} UnpackOctetLen(b: Octet, k: nat, w: Width, index: nat, count: nat, code: nat, prefix: nat)
    requires k <= w.Per()
    ensures |UnpackOctet(b, k, w, index, count, code, prefix)| == Least(count, w.Per() - k)
    decreases w.Per() - k
  {
    hide PackedPoint, Wrap;
    if k < w.Per() && count > 0 {
      UnpackOctetLen(b, k + 1, w, Wrap(index + 1), count - 1, code, prefix);
    }
  }

  lemma UnpackOctetStep(b: Octet, k: nat, w: Width, index: nat, count: nat, code: nat, prefix: nat)
    requires k < w.Per() && count > 0
    ensures UnpackOctet(b, k, w, index, count, code, prefix) ==
            [PackedPoint(b, k, w, index, code, prefix)] + UnpackOctet(b, k + 1, w, Wrap(index + 1), count - 1, code,
              prefix)
  {
    hide PackedPoint, Wrap, Width.Per;
  }

  lemma {:induction false} UnpackOctetAt(b: Octet, k: nat, w: Width, index: nat, count: nat, code: nat,
                                         prefix: nat, i: nat)
    requires k <= w.Per() && index < U32 && i < Least(count, w.Per() - k)
    ensures i < |UnpackOctet(b, k, w, index, count, code, prefix)|
    ensures UnpackOctet(b, k, w, index, count, code, prefix)[i] ==
              PackedPoint(b, k + i, w, Wrap(index + i), code, prefix)
    decreases i
  {
    hide PackedPoint, Wrap, Width.Per, UnpackOctet;
    UnpackOctetStep(b, k, w, index, count, code, prefix);
    if i == 0 {
      WrapSmall(index);
    } else {
      UnpackOctetAt(b, k + 1, w, Wrap(index + 1), count - 1, code, prefix, i - 1);
      WrapAdd(index + 1, i - 1);
      assert k + 1 + (i - 1) == k + i && index + 1 + (i - 1) == index + i;
    }
  }

  /** The i-th point of the octets: bits of octet OctetOf(i) at place PlaceOf(i). */
  function PackedAt(buf: seq<Octet>, i: nat, w: Width, index: nat, code: nat, prefix: nat): Point
    requires w.OctetOf(i) < |buf|
  {
    PackedPoint(buf[w.OctetOf(i)], w.PlaceOf(i), w, Wrap(index + i), code, prefix)
  }

  lemma Places(w: Width, i: nat)
    ensures i < w.Per() ==> w.OctetOf(i) == 0 && w.PlaceOf(i) == i
    ensures i >= w.Per() ==> w.OctetOf(i) == w.OctetOf(i - w.Per()) + 1 && w.PlaceOf(i) == w.PlaceOf(i - w.Per())
  {
    match w
    case OneBit => assert i >= 8 ==> i / 8 == (i - 8) / 8 + 1;
    case TwoBits => assert i >= 4 ==> i / 4 == (i - 4) / 4 + 1;
  }

  lemma PackedAtShift(buf: seq<Octet>, i: nat, w: Width, index: nat, code: nat, prefix: nat)
    requires i >= w.Per() && buf != [] && w.OctetOf(i - w.Per()) < |buf[1..]|
    ensures w.OctetOf(i) < |buf|
    ensures PackedAt(buf, i, w, index, code, prefix) ==
              PackedAt(buf[1..], i - w.Per(), w, Wrap(index + w.Per()), code, prefix)
  {
    hide PackedPoint, Wrap, Width.OctetOf, Width.PlaceOf;
    Places(w, i);
    WrapAdd(index + w.Per(), i - w.Per());
  }

  /** Points the octets can hold. */
  function Capacity(octets: nat, w: Width): nat { if octets == 0 then 0 else w.Per() + Capacity(octets - 1, w) }

  /** A packed decode takes whole octets, never yields more points than asked for, and on
      success yields as many as its octets hold. */
  lemma {:induction false} UnpackCounts(buf: seq<Octet>, octets: nat, w: Width, index: nat, count: nat,
                                        code: nat, prefix: nat)
    requires index < U32
    ensures var d := UnpackOctets(buf, octets, w, index, count, code, prefix);
            && (d.ok <==> |buf| >= octets)
            && |d.points| <= count
            && (d.ok ==> d.rest == buf[octets..] && |d.points| == Least(count, Capacity(octets, w)))
    decreases octets
  {
    hide PackedAt, Wrap, Width.OctetOf, Width.PlaceOf, Width.Per, UnpackOctet;
    if octets > 0 && buf != [] {
      FirstOctet(buf, w, index, count, code, prefix);
      var n := Least(count, w.Per());
      UnpackCounts(buf[1..], octets - 1, w, Wrap(index + n), count - n, code, prefix);
    }
  }

  /** Each point of a packed decode comes from its own bits. */
  lemma {:induction false} UnpackValues(buf: seq<Octet>, octets: nat, w: Width, index: nat, count: nat,
                                        code: nat, prefix: nat, i: nat)
    requires index < U32 && |buf| >= octets
    requires i < |UnpackOctets(buf, octets, w, index, count, code, prefix).points|
    ensures w.OctetOf(i) < |buf|
    ensures UnpackOctets(buf, octets, w, index, count, code, prefix).points[i] ==
              PackedAt(buf, i, w, index, code, prefix)
    decreases octets
  {
    hide PackedAt, Wrap, Width.OctetOf, Width.PlaceOf, Width.Per, UnpackOctet;
    FirstOctet(buf, w, index, count, code, prefix);
    var n := Least(count, w.Per());
    if i >= n {
      UnpackCounts(buf[1..], octets - 1, w, Wrap(index + n), count - n, code, prefix);
      UnpackValues(buf[1..], octets - 1, w, Wrap(index + n), count - n, code, prefix, i - n);
      PackedAtShift(buf, i, w, index, code, prefix);
    }
  }

  lemma FirstOctet(buf: seq<Octet>, w: Width, index: nat, count: nat, code: nat, prefix: nat)
    requires index < U32 && buf != []
    ensures var here := UnpackOctet(buf[0], 0, w, index, count, code, prefix);
            && |here| == Least(count, w.Per())
            && forall i :: 0 <= i < |here| ==>
                 w.OctetOf(i) < |buf| && here[i] == PackedAt(buf, i, w, index, code, prefix)
  {
    hide PackedPoint, Wrap, Width.OctetOf, Width.PlaceOf;
    UnpackOctetLen(buf[0], 0, w, index, count, code, prefix);
    forall i | 0 <= i < Least(count, w.Per())
      ensures w.OctetOf(i) < |buf|
                && UnpackOctet(buf[0], 0, w, index, count, code, prefix)[i] == PackedAt(buf, i, w, index, code, prefix)
    {
      Places(w, i);
      UnpackOctetAt(buf[0], 0, w, index, count, code, prefix, i);
    }
  }

  /** On success a packed decoder has appended as many points as count / 8 + 1 octets hold,
      but no more than `count`; the i-th is made of the bits of its place in its octet. */
  lemma PackedPoints(w: Width, buf: seq<Octet>, code: nat, start: nat, count: nat, i: nat)
    requires start < U32
    ensures var d := DecodePacked(w, buf, code, start, count); var p := PrefixLen(code);
            && (d.ok <==> |buf| >= p + count / 8 + 1)
            && |d.points| <= count
            && (d.ok ==>
                  && d.rest == buf[p + count / 8 + 1..]
                  && |d.points| == Least(count, Capacity(count / 8 + 1, w))
                  && (i < |d.points| ==>
                        && w.OctetOf(i) < |buf[p..]|
                        && d.points[i] == PackedAt(buf[p..], i, w, start, code, Value(buf[..p]))))
  {
    hide PackedAt, Wrap, Width.OctetOf, Value, UnpackOctets, Capacity;
    var p := PrefixLen(code);
    if |buf| >= p {
      var prefix := Value(buf[..p]);
      UnpackCounts(buf[p..], count / 8 + 1, w, start, count, code, prefix);
      var d := UnpackOctets(buf[p..], count / 8 + 1, w, start, count, code, prefix);
      if d.ok {
        assert buf[p..][count / 8 + 1..] == buf[p + count / 8 + 1..];
        if i < |d.points| {
          UnpackValues(buf[p..], count / 8 + 1, w, start, count, code, prefix, i);
        }
      }
    }
  }

  lemma {:induction false} CapacityIs(octets: nat, w: Width)
    ensures Capacity(octets, w) == octets * w.Per()
  {
    if octets > 0 {
      CapacityIs(octets - 1, w);
      assert octets * w.Per() == (octets - 1) * w.Per() + w.Per();
    }
  }

  /** With one bit per point the octets always hold all points: a single-bit decoder yields
      exactly `count` points, the i-th being bit i % 8 of octet i / 8. */
  lemma SingleBitPoints(buf: seq<Octet>, code: nat, start: nat, count: nat, i: nat)
    requires start < U32 && i < count && DecodePacked(OneBit, buf, code, start, count).ok
    ensures var d := DecodePacked(OneBit, buf, code, start, count); var data := buf[PrefixLen(code)..];
            && |d.points| == count
            && i / 8 < |data|
            && d.points[i].vals == [[(data[i / 8] / Pow2(i % 8)) % 2]]
            && d.points[i].index == (if IsIndexCode(code) then Value(buf[..PrefixLen(code)]) else Wrap(start + i))
  {
    hide UnpackOctets, Wrap, Value, PrefixLen;
    PackedPoints(OneBit, buf, code, start, count, i);
    CapacityIs(count / 8 + 1, OneBit);
  }
}
