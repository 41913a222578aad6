/**
 DNP3 application objects: the table of known object variations, the loop over object
 headers (IEEE 1815-2012, Table 4-5 for the range codes), and its budgets.
 */
module Dnp3Application {
  import opened Common
  import opened Dnp3Objects

  // ----- the known objects -----

  /** The schema of a group and variation, as the generated decoders read it. */
  function SchemaOf(group: nat, variation: nat): Option<Schema> {
    match group
    case 1 =>
      (match variation
       case 1 => Some(Packed(OneBit))
       case 2 => Some(Plain(AnyPrefix, [Fixed(1)]))
       case _ => None)
    case 2 =>
      (match variation
       case 1 => Some(Plain(AnyPrefix, [Fixed(1)]))
       case 2 => Some(Plain(AnyPrefix, [Fixed(1), Fixed(6)]))
       case 3 => Some(Plain(AnyPrefix, [Fixed(1), Fixed(2)]))
       case _ => None)
    case 3 =>
      (match variation
       case 1 => Some(Packed(TwoBits))
       case 2 => Some(Plain(AnyPrefix, [Fixed(1)]))
       case _ => None)
    case 4 =>
      (match variation
       case 1 => Some(Plain(AnyPrefix, [Fixed(1)]))
       case 2 => Some(Plain(AnyPrefix, [Fixed(1), Fixed(6)]))
       case 3 => Some(Plain(AnyPrefix, [Fixed(1), Fixed(2)]))
       case _ => None)
    case 10 =>
      (match variation
       case 1 => Some(Packed(OneBit))
       case 2 => Some(Plain(AnyPrefix, [Fixed(1)]))
       case _ => None)
    case 11 =>
      (match variation
       case 1 => Some(Plain(AnyPrefix, [Fixed(1)]))
       case 2 => Some(Plain(AnyPrefix, [Fixed(1), Fixed(6)]))
       case _ => None)
    case 12 =>
      (match variation
       case 1 => Some(Plain(AnyPrefix, [Fixed(1), Fixed(1), Fixed(4), Fixed(4), Fixed(1)]))
       case 2 => Some(Plain(AnyPrefix, [Fixed(1), Fixed(1), Fixed(4), Fixed(4), Fixed(1)]))
       case 3 => Some(Packed(OneBit))
       case _ => None)
    case 13 =>
      (match variation
       case 1 => Some(Plain(AnyPrefix, [Fixed(1)]))
       case 2 => Some(Plain(AnyPrefix, [Fixed(1), Fixed(6)]))
       case _ => None)
    case 20 =>
      (match variation
       case 1 => Some(Plain(AnyPrefix, [Fixed(1), Fixed(4)]))
       case 2 => Some(Plain(AnyPrefix, [Fixed(1), Fixed(2)]))
       case 3 => Some(Plain(AnyPrefix, [Fixed(1), Fixed(4)]))
       case 4 => Some(Plain(AnyPrefix, [Fixed(1), Fixed(2)]))
       case 5 => Some(Plain(AnyPrefix, [Fixed(4)]))
       case 6 => Some(Plain(AnyPrefix, [Fixed(2)]))
       case 7 => Some(Plain(AnyPrefix, [Fixed(4)]))
       case 8 => Some(Plain(AnyPrefix, [Fixed(2)]))
       case _ => None)
    case 21 =>
      (match variation
       case 1 => Some(Plain(AnyPrefix, [Fixed(1), Fixed(4)]))
       case 2 => Some(Plain(AnyPrefix, [Fixed(1), Fixed(2)]))
       case 3 => Some(Plain(AnyPrefix, [Fixed(1), Fixed(4)]))
       case 4 => Some(Plain(AnyPrefix, [Fixed(1), Fixed(2)]))
       case 5 => Some(Plain(AnyPrefix, [Fixed(1), Fixed(4), Fixed(6)]))
       case 6 => Some(Plain(AnyPrefix, [Fixed(1), Fixed(2), Fixed(6)]))
       case 7 => Some(Plain(AnyPrefix, [Fixed(1), Fixed(4), Fixed(6)]))
       case 8 => Some(Plain(AnyPrefix, [Fixed(1), Fixed(2), Fixed(6)]))
       case 9 => Some(Plain(AnyPrefix, [Fixed(4)]))
       case 10 => Some(Plain(AnyPrefix, [Fixed(2)]))
       case 11 => Some(Plain(AnyPrefix, [Fixed(4)]))
       case 12 => Some(Plain(AnyPrefix, [Fixed(2)]))
       case _ => None)
    case 22 =>
      (match variation
       case 1 => Some(Plain(AnyPrefix, [Fixed(1), Fixed(4)]))
       case 2 => Some(Plain(AnyPrefix, [Fixed(1), Fixed(2)]))
       case 3 => Some(Plain(AnyPrefix, [Fixed(1), Fixed(4)]))
       case 4 => Some(Plain(AnyPrefix, [Fixed(1), Fixed(2)]))
       case 5 => Some(Plain(AnyPrefix, [Fixed(1), Fixed(4), Fixed(6)]))
       case 6 => Some(Plain(AnyPrefix, [Fixed(1), Fixed(2), Fixed(6)]))
       case 7 => Some(Plain(AnyPrefix, [Fixed(1), Fixed(4), Fixed(6)]))
       case 8 => Some(Plain(AnyPrefix, [Fixed(1), Fixed(2), Fixed(6)]))
       case _ => None)
    case 23 =>
      (match variation
       case 1 => Some(Plain(AnyPrefix, [Fixed(1), Fixed(4)]))
       case 2 => Some(Plain(AnyPrefix, [Fixed(1), Fixed(2)]))
       case 3 => Some(Plain(AnyPrefix, [Fixed(1), Fixed(4)]))
       case 4 => Some(Plain(AnyPrefix, [Fixed(1), Fixed(2)]))
       case 5 => Some(Plain(AnyPrefix, [Fixed(1), Fixed(4), Fixed(6)]))
       case 6 => Some(Plain(AnyPrefix, [Fixed(1), Fixed(2), Fixed(6)]))
       case 7 => Some(Plain(AnyPrefix, [Fixed(1), Fixed(4), Fixed(6)]))
       case 8 => Some(Plain(AnyPrefix, [Fixed(1), Fixed(2), Fixed(6)]))
       case _ => None)
    case 30 =>
      (match variation
       case 1 => Some(Plain(AnyPrefix, [Fixed(1), Fixed(4)]))
       case 2 => Some(Plain(AnyPrefix, [Fixed(1), Fixed(2)]))
       case 3 => Some(Plain(AnyPrefix, [Fixed(4)]))
       case 4 => Some(Plain(AnyPrefix, [Fixed(2)]))
       case 5 => Some(Plain(AnyPrefix, [Fixed(1), Fixed(4)]))
       case 6 => Some(Plain(AnyPrefix, [Fixed(1), Fixed(8)]))
       case _ => None)
    case 31 =>
      (match variation
       case 1 => Some(Plain(AnyPrefix, [Fixed(1), Fixed(4)]))
       case 2 => Some(Plain(AnyPrefix, [Fixed(1), Fixed(2)]))
       case 3 => Some(Plain(AnyPrefix, [Fixed(1), Fixed(4), Fixed(6)]))
       case 4 => Some(Plain(AnyPrefix, [Fixed(1), Fixed(2), Fixed(6)]))
       case 5 => Some(Plain(AnyPrefix, [Fixed(4)]))
       case 6 => Some(Plain(AnyPrefix, [Fixed(2)]))
       case 7 => Some(Plain(AnyPrefix, [Fixed(1), Fixed(4)]))
       case 8 => Some(Plain(AnyPrefix, [Fixed(1), Fixed(8)]))
       case _ => None)
    case 32 =>
      (match variation
       case 1 => Some(Plain(AnyPrefix, [Fixed(1), Fixed(4)]))
       case 2 => Some(Plain(AnyPrefix, [Fixed(1), Fixed(2)]))
       case 3 => Some(Plain(AnyPrefix, [Fixed(1), Fixed(4), Fixed(6)]))
       case 4 => Some(Plain(AnyPrefix, [Fixed(1), Fixed(2), Fixed(6)]))
       case 5 => Some(Plain(AnyPrefix, [Fixed(1), Fixed(4)]))
       case 6 => Some(Plain(AnyPrefix, [Fixed(1), Fixed(8)]))
       case 7 => Some(Plain(AnyPrefix, [Fixed(1), Fixed(4), Fixed(6)]))
       case 8 => Some(Plain(AnyPrefix, [Fixed(1), Fixed(8), Fixed(6)]))
       case _ => None)
    case 33 =>
      (match variation
       case 1 => Some(Plain(AnyPrefix, [Fixed(1), Fixed(4)]))
       case 2 => Some(Plain(AnyPrefix, [Fixed(1), Fixed(2)]))
       case 3 => Some(Plain(AnyPrefix, [Fixed(1), Fixed(4), Fixed(6)]))
       case 4 => Some(Plain(AnyPrefix, [Fixed(1), Fixed(2), Fixed(6)]))
       case 5 => Some(Plain(AnyPrefix, [Fixed(1), Fixed(4)]))
       case 6 => Some(Plain(AnyPrefix, [Fixed(1), Fixed(8)]))
       case 7 => Some(Plain(AnyPrefix, [Fixed(1), Fixed(4), Fixed(6)]))
       case 8 => Some(Plain(AnyPrefix, [Fixed(1), Fixed(8), Fixed(6)]))
       case _ => None)
    case 34 =>
      (match variation
       case 1 => Some(Plain(AnyPrefix, [Fixed(2)]))
       case 2 => Some(Plain(AnyPrefix, [Fixed(4)]))
       case 3 => Some(Plain(AnyPrefix, [Fixed(4)]))
       case _ => None)
    case 40 =>
      (match variation
       case 1 => Some(Plain(AnyPrefix, [Fixed(1), Fixed(4)]))
       case 2 => Some(Plain(AnyPrefix, [Fixed(1), Fixed(2)]))
       case 3 => Some(Plain(AnyPrefix, [Fixed(1), Fixed(4)]))
       case 4 => Some(Plain(AnyPrefix, [Fixed(1), Fixed(8)]))
       case _ => None)
    case 41 =>
      (match variation
       case 1 => Some(Plain(AnyPrefix, [Fixed(4), Fixed(1)]))
       case 2 => Some(Plain(AnyPrefix, [Fixed(2), Fixed(1)]))
       case 3 => Some(Plain(AnyPrefix, [Fixed(4), Fixed(1)]))
       case 4 => Some(Plain(AnyPrefix, [Fixed(8), Fixed(1)]))
       case _ => None)
    case 42 =>
      (match variation
       case 1 => Some(Plain(AnyPrefix, [Fixed(1), Fixed(4)]))
       case 2 => Some(Plain(AnyPrefix, [Fixed(1), Fixed(2)]))
       case 3 => Some(Plain(AnyPrefix, [Fixed(1), Fixed(4), Fixed(6)]))
       case 4 => Some(Plain(AnyPrefix, [Fixed(1), Fixed(2), Fixed(6)]))
       case 5 => Some(Plain(AnyPrefix, [Fixed(1), Fixed(4)]))
       case 6 => Some(Plain(AnyPrefix, [Fixed(1), Fixed(8)]))
       case 7 => Some(Plain(AnyPrefix, [Fixed(1), Fixed(4), Fixed(6)]))
       case 8 => Some(Plain(AnyPrefix, [Fixed(1), Fixed(8), Fixed(6)]))
       case _ => None)
    case 43 =>
      (match variation
       case 1 => Some(Plain(AnyPrefix, [Fixed(1), Fixed(4)]))
       case 2 => Some(Plain(AnyPrefix, [Fixed(1), Fixed(2)]))
       case 3 => Some(Plain(AnyPrefix, [Fixed(1), Fixed(4), Fixed(6)]))
       case 4 => Some(Plain(AnyPrefix, [Fixed(1), Fixed(2), Fixed(6)]))
       case 5 => Some(Plain(AnyPrefix, [Fixed(1), Fixed(4)]))
       case 6 => Some(Plain(AnyPrefix, [Fixed(1), Fixed(8)]))
       case 7 => Some(Plain(AnyPrefix, [Fixed(1), Fixed(4), Fixed(6)]))
       case 8 => Some(Plain(AnyPrefix, [Fixed(1), Fixed(8), Fixed(6)]))
       case _ => None)
    case 50 =>
      (match variation
       case 1 => Some(Plain(AnyPrefix, [Fixed(6)]))
       case 2 => Some(Plain(AnyPrefix, [Fixed(6), Fixed(4)]))
       case 3 => Some(Plain(AnyPrefix, [Fixed(6)]))
       case 4 => Some(Plain(AnyPrefix, [Fixed(6), Fixed(4), Fixed(1)]))
       case _ => None)
    case 51 =>
      (match variation
       case 1 => Some(Plain(AnyPrefix, [Fixed(6)]))
       case 2 => Some(Plain(AnyPrefix, [Fixed(6)]))
       case _ => None)
    case 52 =>
      (match variation
       case 1 => Some(Plain(AnyPrefix, [Fixed(2)]))
       case 2 => Some(Plain(AnyPrefix, [Fixed(2)]))
       case _ => None)
    case 70 =>
      (match variation
       case 1 =>
         Some(Plain(AnyPrefix, [Fixed(2), Fixed(1), Fixed(1), Fixed(2), Fixed(2), Fixed(4), Fixed(6), Fixed(2),
           Fixed(4), Fixed(4), Fixed(4), Fixed(1), Fixed(1), Counted(0), Fixed(2), Counted(14)]))
       case 2 => Some(Plain(AnyPrefix, [Fixed(2), Fixed(2), Fixed(2), Fixed(2), Fixed(4), Counted(1), Counted(3)]))
       case 3 =>
         Some(Plain(AnyPrefix, [Fixed(2), Fixed(2), Fixed(6), Fixed(2), Fixed(4), Fixed(4), Fixed(2), Fixed(2),
           Fixed(2), Counted(1)]))
       case 4 => Some(Plain(SizePrefix, [Fixed(4), Fixed(4), Fixed(2), Fixed(2), Fixed(1), ToPrefix(Some(256))]))
       case 5 => Some(Plain(SizePrefix, [Fixed(4), Fixed(4), ToPrefix(Some(256))]))
       case 6 => Some(Plain(SizePrefix, [Fixed(4), Fixed(4), Fixed(1), ToPrefix(Some(256))]))
       case 7 =>
         Some(Plain(AnyPrefix, [Fixed(2), Fixed(2), Fixed(2), Fixed(4), Fixed(6), Fixed(2), Fixed(2), Counted(1)]))
       case 8 => Some(Plain(ExactPrefix(5), [ToPrefix(Some(65536))]))
       case _ => None)
    case 80 =>
      (match variation
       case 1 => Some(Packed(OneBit))
       case _ => None)
    case 81 =>
      (match variation
       case 1 => Some(Plain(AnyPrefix, [Fixed(1), Fixed(1), Fixed(1)]))
       case _ => None)
    case 83 =>
      (match variation
       case 1 => Some(Plain(AnyPrefix, [Fixed(4), Fixed(2), Fixed(2), Counted(2)]))
       case _ => None)
    case 86 =>
      (match variation
       case 2 => Some(Plain(AnyPrefix, [Fixed(1)]))
       case _ => None)
    case 102 =>
      (match variation
       case 1 => Some(Plain(AnyPrefix, [Fixed(1)]))
       case _ => None)
    case 120 =>
      (match variation
       case 1 => Some(Plain(ExactPrefix(5), [Fixed(4), Fixed(2), Fixed(1), Fixed(1), ToPrefix(None)]))
       case 2 => Some(Plain(ExactPrefix(5), [Fixed(4), Fixed(2), ToPrefix(None)]))
       case 3 => Some(Plain(AnyPrefix, [Fixed(4), Fixed(2)]))
       case 4 => Some(Plain(AnyPrefix, [Fixed(2)]))
       case 5 =>
         Some(Plain(ExactPrefix(5),
           [Fixed(4), Fixed(2), Fixed(1), Fixed(1), Fixed(1), Fixed(2), Counted(5), ToPrefix(None)]))
       case 6 => Some(Plain(ExactPrefix(5), [Fixed(3), Fixed(2), ToPrefix(None)]))
       case 7 => Some(Plain(ExactPrefix(5), [Fixed(4), Fixed(2), Fixed(2), Fixed(1), Fixed(6), ToPrefix(Some(65536))]))
       case 8 => Some(Plain(ExactPrefix(5), [Fixed(1), Fixed(1), ToPrefix(None)]))
       case 9 => Some(Plain(AnyPrefix, [ToPrefix(None)]))
       case 10 =>
         Some(Plain(ExactPrefix(5),
           [Fixed(1), Fixed(1), Fixed(4), Fixed(2), Fixed(2), Fixed(2), Fixed(2), Fixed(2), Counted(5), Counted(6),
             Counted(7)]))
       case 11 => Some(Plain(ExactPrefix(5), [Fixed(1), Fixed(2), Fixed(2), Counted(1), Counted(2)]))
       case 12 => Some(Plain(ExactPrefix(5), [Fixed(4), Fixed(2), Fixed(2), Counted(2)]))
       case 13 => Some(Plain(ExactPrefix(5), [Fixed(4), Fixed(2), Fixed(2), Counted(2)]))
       case 14 => Some(Plain(ExactPrefix(5), [ToPrefix(None)]))
       case 15 => Some(Plain(ExactPrefix(5), [ToPrefix(None)]))
       case _ => None)
    case 121 =>
      (match variation
       case 1 => Some(Plain(AnyPrefix, [Fixed(1), Fixed(2), Fixed(4)]))
       case _ => None)
    case 122 =>
      (match variation
       case 1 => Some(Plain(AnyPrefix, [Fixed(1), Fixed(2), Fixed(4)]))
       case 2 => Some(Plain(AnyPrefix, [Fixed(1), Fixed(2), Fixed(4), Fixed(6)]))
       case _ => None)
    case _ => None
  }

  /** Every point takes at least one octet: the first field does, or a prefix is demanded. */
  predicate AlwaysConsumes(s: Schema) {
    match s
    case Packed(_) => true
    case Plain(AnyPrefix, fields) => fields != [] && fields[0].Fixed? && fields[0].width >= 1
    case Plain(SizePrefix, _) => true
    case Plain(ExactPrefix(n), _) => n == 5
  }

  /** Only 120:9 can take no octets at all. */
  lemma OnlyOneCanBeEmpty(group: nat, variation: nat)
    requires SchemaOf(group, variation).Some?
    ensures AlwaysConsumes(SchemaOf(group, variation).value) <==> (group, variation) != (120, 9)
  {
  }

  /** For every known object but 120:9 the early rejection changes no verdict. */
  lemma EarlyRejectionVerdict(group: nat, variation: nat, buf: seq<Octet>, code: nat, start: nat, count: nat)
    requires start < U32 && (group, variation) != (120, 9)
    requires SchemaOf(group, variation).Some? && SchemaOf(group, variation).value.Plain?
    ensures var s := SchemaOf(group, variation).value;
            DecodePlain(s.constraint, s.fields, buf, code, start, count).ok <==>
            Allows(s.constraint, code) && DecodePoints(s.fields, buf, code, start, count).ok
  {
    hide SchemaOf, DecodePoints;
    OnlyOneCanBeEmpty(group, variation);
    var s := SchemaOf(group, variation).value;
    if Allows(s.constraint, code) {
      EarlyRejectionHarmless(s.constraint, s.fields, buf, code, start, count);
    }
  }

  lemma CertificateSchema()
    ensures SchemaOf(120, 9) == Some(Plain(AnyPrefix, [ToPrefix(None)]))
  {
  }

  /** The early rejection decides the verdict exactly for 120:9 without a prefix, on an
      input shorter than count / 8. */
  lemma EarlyRejectionExactly(group: nat, variation: nat, buf: seq<Octet>, code: nat, start: nat, count: nat)
    requires start < U32
    requires SchemaOf(group, variation).Some? && SchemaOf(group, variation).value.Plain?
    ensures var s := SchemaOf(group, variation).value;
            var without := Allows(s.constraint, code) && DecodePoints(s.fields, buf, code, start, count).ok;
            DecodePlain(s.constraint, s.fields, buf, code, start, count).ok != without <==>
            (group, variation) == (120, 9) && PrefixLen(code) == 0 && |buf| < count / 8
  {
    hide SchemaOf, DecodePoints, PrefixLen;
    if (group, variation) != (120, 9) {
      EarlyRejectionVerdict(group, variation, buf, code, start, count);
    } else {
      CertificateSchema();
      if PrefixLen(code) == 0 {
        EmptyPoints(buf, code, start, count);
      } else {
        EarlyRejectionHarmless(AnyPrefix, [ToPrefix(None)], buf, code, start, count);
      }
    }
  }

  predicate SizePrefixed(group: nat, variation: nat) {
    (group == 70 && variation in {4, 5, 6, 8}) || (group == 120 && variation in {1, 2, 5, 6, 7, 8, 14, 15})
  }

  /** The size-prefixed variations end in a field that runs to the end of the prefix. */
  lemma SizePrefixedSchema(group: nat, variation: nat) returns (fields: seq<Field>, limit: Option<nat>)
    requires SizePrefixed(group, variation)
    ensures SchemaOf(group, variation).Some? && SchemaOf(group, variation).value.Plain?
    ensures SchemaOf(group, variation).value.fields == fields + [ToPrefix(limit)]
    ensures SchemaOf(group, variation).value.constraint == ExactPrefix(5) || (limit.Some? && limit.value <= U16)
  {
    var all := SchemaOf(group, variation).value.fields;
    fields, limit := all[..|all| - 1], all[|all| - 1].limit;
    assert all == fields + [ToPrefix(limit)];
  }

  /** Each point of a successfully decoded size-prefixed object takes exactly its prefix. */
  lemma SizePrefixConsumption(group: nat, variation: nat, buf: seq<Octet>, code: nat, start: nat,
                              count: nat) returns (ws: seq<Wire>)
    requires SizePrefixed(group, variation) && start < U32
    requires SchemaOf(group, variation).Some?
    requires Decode(SchemaOf(group, variation).value, buf, code, start, count).ok
    ensures |ws| == count
    ensures buf == Encode(ws) + Decode(SchemaOf(group, variation).value, buf, code, start, count).rest
    ensures forall i :: 0 <= i < count ==> |ws[i].Octets()| == PrefixLen(code) + Value(ws[i].prefix)
  {
    hide SchemaOf, DecodePoints, Encode, Fits, Join, PrefixLen, Value, AllStored;
    var fields, limit := SizePrefixedSchema(group, variation);
    ws := DecodeSound(fields + [ToPrefix(limit)], buf, code, start, count);
    forall i | 0 <= i < count ensures |ws[i].Octets()| == PrefixLen(code) + Value(ws[i].prefix) {
      SizePrefixExact(fields, limit, ws[i], code);
    }
  }

  // ----- object headers -----

  /** An object as stored: its header, its range and the points decoded for it. */
  datatype Object = Object(group: nat, variation: nat, prefixCode: nat, rangeCode: nat,
                           start: nat, stop: nat, count: nat, points: seq<Point>)

  /** The range field: its values and length, or why there is none. */
  datatype Range = Range(start: nat, stop: nat, count: nat, len: nat) | Short | Reserved

  /** A start-stop range; the count is computed in 32 bits, so that a stop below the start
      wraps around. */
  function StartStop(buf: seq<Octet>, width: nat): Range
    requires width <= 4
  {
    if |buf| < 2 * width then Short
    else
      var start, stop := Value(buf[..width]), Value(buf[width..2 * width]);
      ValueBound(buf[..width]);
      Range(start, stop, Wrap(U32 + stop - start + 1), 2 * width)
  }

  function CountOnly(buf: seq<Octet>, width: nat): Range {
    if |buf| < width then Short else Range(0, 0, Value(buf[..width]), width)
  }

  /** The switch over the range code. */
  function ReadRange(buf: seq<Octet>, code: nat): Range {
    match code
    case 0 => StartStop(buf, 1)
    case 3 => StartStop(buf, 1)
    case 1 => StartStop(buf, 2)
    case 4 => StartStop(buf, 2)
    case 2 => StartStop(buf, 4)
    case 5 => StartStop(buf, 4)
    case 6 => Range(0, 0, 0, 0)
    case 7 => CountOnly(buf, 1)
    case 8 => CountOnly(buf, 2)
    case 9 => CountOnly(buf, 4)
    case 11 => CountOnly(buf, 1)
    case _ => Reserved
  }

  lemma RangeLength(buf: seq<Octet>, code: nat)
    ensures ReadRange(buf, code).Range? ==> ReadRange(buf, code).len <= |buf| && ReadRange(buf, code).start < U32
  {
    hide Value, Wrap;
    if |buf| >= 1 { ValueBound(buf[..1]); }
    if |buf| >= 2 { ValueBound(buf[..2]); }
    if |buf| >= 4 { ValueBound(buf[..4]); }
  }

  lemma {:induction false} DecodePointsBound(fields: seq<Field>, buf: seq<Octet>, code: nat, index: nat, count: nat)
    ensures |DecodePoints(fields, buf, code, index, count).points| <= count
    ensures |DecodePoints(fields, buf, code, index, count).rest| <= |buf|
    decreases count
  {
    hide ReadFields, Value, MakePoint, PrefixLen, Wrap;
    if count > 0 && |buf| >= PrefixLen(code) {
      var prefix := Value(buf[..PrefixLen(code)]);
      ReadFieldsShrinks(fields, [], buf[PrefixLen(code)..], prefix, 0);
      var r := ReadFields(fields, [], buf[PrefixLen(code)..], prefix, 0);
      if r.ok {
        DecodePointsBound(fields, r.rest, code, Wrap(index + 1), count - 1);
      }
    }
  }

  lemma {:induction false} ReadFieldsShrinks(fields: seq<Field>, before: seq<seq<Octet>>, buf: seq<Octet>,
                                             prefix: nat, used: nat)
    ensures |ReadFields(fields, before, buf, prefix, used).rest| <= |buf|
    decreases |fields|
  {
    hide FieldLen;
    if fields != [] {
      var n := FieldLen(fields[0], before, prefix, used);
      if n.Some? && |buf| >= n.value {
        ReadFieldsShrinks(fields[1..], before + [buf[..n.value]], buf[n.value..], prefix, used + n.value);
      }
    }
  }

  lemma {:induction false} UnpackShrinks(buf: seq<Octet>, octets: nat, w: Width, index: nat, count: nat,
                                         code: nat, prefix: nat)
    ensures |UnpackOctets(buf, octets, w, index, count, code, prefix).rest| <= |buf|
    decreases octets
  {
    hide UnpackOctet, Wrap, Width.Per;
    if octets > 0 && buf != [] {
      var n := Least(count, w.Per());
      UnpackShrinks(buf[1..], octets - 1, w, Wrap(index + n), count - n, code, prefix);
    }
  }

  /** Whatever happens to it, a decoder appends at most `count` points and never moves the
      cursor back. */
  lemma DecodeBound(s: Schema, buf: seq<Octet>, code: nat, start: nat, count: nat)
    requires start < U32
    ensures |Decode(s, buf, code, start, count).points| <= count
    ensures |Decode(s, buf, code, start, count).rest| <= |buf|
  {
    hide DecodePoints, UnpackOctets, Value;
    match s
    case Packed(w) =>
      PackedPoints(w, buf, code, start, count, 0);
      if |buf| >= PrefixLen(code) {
        UnpackShrinks(buf[PrefixLen(code)..], count / 8 + 1, w, start, count, code, Value(buf[..PrefixLen(code)]));
      }
    case Plain(c, fields) => DecodePointsBound(fields, buf, code, start, count);
  }

  // ----- the object loop -----

  datatype Limits = Limits(objects: nat, points: nat)

  datatype Message = Message(complete: bool, objects: seq<Object>)

  const OBJ_HEADER: nat := 3

  /** One turn of the loop: stop with or without a last object, or go on behind it. */
  datatype Turn = Stop(objects: seq<Object>) | GoOn(object: Object, rest: seq<Octet>, points: nat)

  function NewObject(buf: seq<Octet>): Object
    requires |buf| >= OBJ_HEADER
  {
    Object(buf[0], buf[1], (buf[2] / 16) % 8, buf[2] % 16, 0, 0, 0, [])
  }

  /** `objects` and `points` are the objects stored and the points announced so far. */
  function OneObject(buf: seq<Octet>, objects: nat, points: nat, max: Limits): (r: Turn)
    ensures r.GoOn? ==> |r.rest| < |buf|
  {
    if |buf| < OBJ_HEADER || objects + 1 > max.objects then Stop([])
    else
      var o := NewObject(buf);
      var r := ReadRange(buf[OBJ_HEADER..], o.rangeCode);
      RangeLength(buf[OBJ_HEADER..], o.rangeCode);
      if !r.Range? then Stop([o])
      else
        var obj := o.(start := r.start, stop := r.stop, count := r.count);
        var rest := buf[OBJ_HEADER + r.len..];
        if obj.variation == 0 || obj.count == 0 then GoOn(obj, rest, points)
        else if points + obj.count > max.points then Stop([obj])
        else
          match SchemaOf(obj.group, obj.variation)
          case None => Stop([obj])
          case Some(s) =>
            var d := Decode(s, rest, obj.prefixCode, obj.start, obj.count);
            DecodeBound(s, rest, obj.prefixCode, obj.start, obj.count);
            var full := obj.(points := d.points);
            if d.ok then GoOn(full, d.rest, points + obj.count) else Stop([full])
  }

  /** DNP3DecodeApplicationObjects. */
  function DecodeObjects(buf: seq<Octet>, objects: nat, points: nat, max: Limits): Message
    decreases |buf|
  {
    if buf == [] then Message(true, [])
    else
      match OneObject(buf, objects, points, max)
      case Stop(os) => Message(false, os)
      case GoOn(o, rest, p) =>
        var m := DecodeObjects(rest, objects + 1, p, max);
        m.(objects := [o] + m.objects)
  }

  function TotalPoints(os: seq<Object>): nat {
    if os == [] then 0 else |os[0].points| + TotalPoints(os[1..])
  }

  /** What one turn adds stays within the budgets that are left. */
  lemma TurnBudget(buf: seq<Octet>, objects: nat, points: nat, max: Limits)
    requires objects <= max.objects && points <= max.points
    ensures match OneObject(buf, objects, points, max)
            case Stop(os) => objects + |os| <= max.objects && |os| <= 1 && points + TotalPoints(os) <= max.points
            case GoOn(o, _, p) => objects + 1 <= max.objects && points + |o.points| <= p <= max.points
  {
    hide ReadRange, SchemaOf, Decode;
    if |buf| >= OBJ_HEADER {
      var o := NewObject(buf);
      var r := ReadRange(buf[OBJ_HEADER..], o.rangeCode);
      RangeLength(buf[OBJ_HEADER..], o.rangeCode);
      if r.Range? && SchemaOf(o.group, o.variation).Some? {
        DecodeBound(SchemaOf(o.group, o.variation).value, buf[OBJ_HEADER + r.len..], o.prefixCode, r.start, r.count);
      }
    }
    match OneObject(buf, objects, points, max)
    case Stop(os) => assert |os| == 1 ==> os[1..] == [];
    case GoOn(_, _, _) =>
  }

  lemma {:induction false} LoopBudget(buf: seq<Octet>, objects: nat, points: nat, max: Limits)
    requires objects <= max.objects && points <= max.points
    ensures var m := DecodeObjects(buf, objects, points, max);
            objects + |m.objects| <= max.objects && points + TotalPoints(m.objects) <= max.points
    decreases |buf|
  {
    hide OneObject;
    if buf != [] {
      TurnBudget(buf, objects, points, max);
      match OneObject(buf, objects, points, max)
      case Stop(_) =>
      case GoOn(o, rest, p) =>
        LoopBudget(rest, objects + 1, p, max);
        var m := DecodeObjects(rest, objects + 1, p, max);
        assert ([o] + m.objects)[1..] == m.objects;
    }
  }

  /** For every message the decoder stores at most the configured number of objects and of
      points, however it ends. */
  lemma BudgetTheorem(buf: seq<Octet>, max: Limits)
    ensures var m := DecodeObjects(buf, 0, 0, max); |m.objects| <= max.objects && TotalPoints(m.objects) <= max.points
  {
    LoopBudget(buf, 0, 0, max);
  }
}
