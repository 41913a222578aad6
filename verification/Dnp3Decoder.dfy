/**
 The object decoders as the source runs them: a cursor advanced in place, loops that count
 down and append points.  Each method computes its function in Dnp3Objects or
 Dnp3Application.
 */
module Dnp3Decoder {
  import opened Dnp3Objects
  import opened Dnp3Application

  /** The read position and the remaining length. */
  class Cursor {
    const data: seq<Octet>
    var pos: nat
    var len: nat

    ghost predicate Valid()
      reads this
    {
      pos + len == |data|
    }

    function Rest(): seq<Octet>
      requires Valid()
      reads this
    {
      data[pos..]
    }

    constructor (data: seq<Octet>)
      ensures Valid() && Rest() == data && this.data == data
    {
      this.data := data;
      pos, len := 0, |data|;
    }

    /** The fixed-width readers: all octets or none, position up by what length goes down. */
    method Read(n: nat) returns (ok: bool, s: seq<Octet>)
      requires Valid()
      modifies this
      ensures Valid() && ok == (|old(Rest())| >= n)
      ensures pos - old(pos) == old(len) - len
      ensures ok ==> s == old(Rest())[..n] && Rest() == old(Rest())[n..]
      ensures !ok ==> Rest() == old(Rest())
    {
      if len < n {
        return false, [];
      }
      s := data[pos..pos + n];
      pos := pos + n;
      len := len - n;
      ok := true;
    }
  }

  /** The fields of one point: `done` of them are read, with these values. */
  ghost predicate FieldsAt(fields: seq<Field>, from: seq<Octet>, prefix: nat, done: nat, vals: seq<seq<Octet>>,
                           used: nat, rest: seq<Octet>) {
    && done <= |fields|
    && var r := ReadFields(fields[done..], vals, rest, prefix, used);
       ReadFields(fields, [], from, prefix, 0) == r.(vals := vals + r.vals)
  }

  lemma FieldTurn(fields: seq<Field>, from: seq<Octet>, prefix: nat, done: nat, vals: seq<seq<Octet>>,
                  used: nat, rest: seq<Octet>)
    requires FieldsAt(fields, from, prefix, done, vals, used, rest)
    ensures done == |fields| ==> ReadFields(fields, [], from, prefix, 0) == FieldsRead(true, vals, rest)
    ensures done < |fields| ==>
              var n := FieldLen(fields[done], vals, prefix, used);
              if n.None? || |rest| < n.value then
                !ReadFields(fields, [], from, prefix, 0).ok && ReadFields(fields, [], from, prefix, 0).rest == rest
              else FieldsAt(fields, from, prefix, done + 1, vals + [rest[..n.value]], used + n.value, rest[n.value..])
  {
    hide FieldLen;
    if done < |fields| {
      assert fields[done..][0] == fields[done] && fields[done..][1..] == fields[done + 1..];
      var n := FieldLen(fields[done], vals, prefix, used);
      if n.Some? && |rest| >= n.value {
        var v := rest[..n.value];
        var r := ReadFields(fields[done + 1..], vals + [v], rest[n.value..], prefix, used + n.value);
        assert vals + ([v] + r.vals) == (vals + [v]) + r.vals;
      }
    } else {
      assert fields[done..] == [] && vals + [] == vals;
    }
  }

  method ReadPoint(cur: Cursor, fields: seq<Field>, prefix: nat) returns (ok: bool, vals: seq<seq<Octet>>)
    requires cur.Valid()
    modifies cur
    ensures cur.Valid()
    ensures var r := ReadFields(fields, [], old(cur.Rest()), prefix, 0);
            ok == r.ok && cur.Rest() == r.rest && (ok ==> vals == r.vals)
  {
    hide ReadFields, FieldLen, FieldsAt;
    ghost var from := cur.Rest();
    var k, used := 0, 0;
    vals := [];
    FieldsStart(fields, from, prefix);
    while k < |fields|
      invariant cur.Valid() && 0 <= k <= |fields|
      invariant FieldsAt(fields, from, prefix, k, vals, used, cur.Rest())
    {
      FieldTurn(fields, from, prefix, k, vals, used, cur.Rest());
      var n := FieldLen(fields[k], vals, prefix, used);
      if n.None? {
        return false, vals;
      }
      var got, v := cur.Read(n.value);
      if !got {
        return false, vals;
      }
      vals := vals + [v];
      used := used + n.value;
      k := k + 1;
    }
    FieldTurn(fields, from, prefix, k, vals, used, cur.Rest());
    return true, vals;
  }

  lemma FieldsStart(fields: seq<Field>, from: seq<Octet>, prefix: nat)
    ensures FieldsAt(fields, from, prefix, 0, [], 0, from)
  {
    assert fields[0..] == fields;
    var r := ReadFields(fields, [], from, prefix, 0);
    assert [] + r.vals == r.vals;
  }

  /** `points` are decoded, `left` points from `index` on remain. */
  ghost predicate PointsAt(all: Decoded, fields: seq<Field>, code: nat, points: seq<Point>, index: nat,
                           left: nat, rest: seq<Octet>) {
    var d := DecodePoints(fields, rest, code, index, left); all == d.(points := points + d.points)
  }

  lemma PointTurn(all: Decoded, fields: seq<Field>, code: nat, points: seq<Point>, index: nat, left: nat,
                  rest: seq<Octet>)
    requires PointsAt(all, fields, code, points, index, left, rest)
    ensures left == 0 ==> all == Decoded(true, points, rest)
    ensures left > 0 && |rest| < PrefixLen(code) ==> all == Decoded(false, points, rest)
    ensures left > 0 && |rest| >= PrefixLen(code) ==>
              var prefix := Value(rest[..PrefixLen(code)]);
              var r := ReadFields(fields, [], rest[PrefixLen(code)..], prefix, 0);
              if r.ok then PointsAt(all, fields, code, points + [MakePoint(r.vals, index, code, prefix)],
                Wrap(index + 1), left - 1, r.rest)
              else all == Decoded(false, points, r.rest)
  {
    hide ReadFields, Value, MakePoint, Wrap, PrefixLen;
    if left > 0 && |rest| >= PrefixLen(code) {
      var prefix := Value(rest[..PrefixLen(code)]);
      var r := ReadFields(fields, [], rest[PrefixLen(code)..], prefix, 0);
      var p := MakePoint(r.vals, index, code, prefix);
      if r.ok {
        var d := DecodePoints(fields, r.rest, code, Wrap(index + 1), left - 1);
        assert points + ([p] + d.points) == (points + [p]) + d.points;
      }
    }
  }

  /** A non-packed decoder. */
  method DecodePlainObject(cur: Cursor, c: Constraint, fields: seq<Field>, code: nat, start: nat,
                           count: nat) returns (ok: bool, points: seq<Point>)
    requires cur.Valid()
    modifies cur
    ensures cur.Valid()
    ensures Decoded(ok, points, cur.Rest()) == DecodePlain(c, fields, old(cur.Rest()), code, start, count)
  {
    hide DecodePoints, ReadFields, Value, MakePoint, Wrap, PrefixLen, PointsAt;
    points := [];
    if !Allows(c, code) {
      return false, points;
    }
    if cur.len < count / 8 {
      return false, points;
    }
    ghost var all := DecodePoints(fields, cur.Rest(), code, start, count);
    PointsStart(all, fields, code, start, count, cur.Rest());
    var left, index := count, start;
    while left > 0
      invariant cur.Valid()
      invariant PointsAt(all, fields, code, points, index, left, cur.Rest())
    {
      PointTurn(all, fields, code, points, index, left, cur.Rest());
      var got, octets := cur.Read(PrefixLen(code));
      if !got {
        return false, points;
      }
      var prefix := Value(octets);
      var read, vals := ReadPoint(cur, fields, prefix);
      if !read {
        return false, points;
      }
      points := points + [MakePoint(vals, index, code, prefix)];
      index := Wrap(index + 1);
      left := left - 1;
    }
    PointTurn(all, fields, code, points, index, left, cur.Rest());
    return true, points;
  }

  lemma PointsStart(all: Decoded, fields: seq<Field>, code: nat, index: nat, count: nat, rest: seq<Octet>)
    requires all == DecodePoints(fields, rest, code, index, count)
    ensures PointsAt(all, fields, code, [], index, count, rest)
  {
    assert [] + all.points == all.points;
  }

  /** A packed decoder: octets outside, bits inside. */
  method DecodePackedObject(cur: Cursor, w: Width, code: nat, start: nat,
                            count: nat) returns (ok: bool, points: seq<Point>)
    requires cur.Valid()
    modifies cur
    ensures cur.Valid()
    ensures Decoded(ok, points, cur.Rest()) == DecodePacked(w, old(cur.Rest()), code, start, count)
  {
    hide UnpackOctets, UnpackOctet, Value, PackedPoint, Wrap, PrefixLen, OctetsAt;
    points := [];
    var got, first := cur.Read(PrefixLen(code));
    if !got {
      return false, points;
    }
    var prefix := Value(first);
    var octets: nat, left: nat, index: nat := count / 8 + 1, count, start;
    ghost var all := UnpackOctets(cur.Rest(), octets, w, start, count, code, prefix);
    OctetsStart(all, cur.Rest(), octets, w, start, count, code, prefix);
    while octets > 0
      invariant cur.Valid()
      invariant OctetsAt(all, points, cur.Rest(), octets, w, index, left, code, prefix)
    {
      OctetTurn(all, points, cur.Rest(), octets, w, index, left, code, prefix);
      var read, s := cur.Read(1);
      if !read {
        return false, points;
      }
      var here, n := UnpackBits(s[0], w, index, left, code, prefix);
      points := points + here;
      index := Wrap(index + n);
      left := left - n;
      octets := octets - 1;
    }
    OctetTurn(all, points, cur.Rest(), octets, w, index, left, code, prefix);
    return true, points;
  }

  /** `points` are taken from the octet, `left` more are wanted from place `k` on. */
  ghost predicate BitsAt(all: seq<Point>, points: seq<Point>, b: Octet, k: nat, w: Width, index: nat, left: nat,
                         code: nat, prefix: nat) {
    all == points + UnpackOctet(b, k, w, index, left, code, prefix)
  }

  lemma BitTurn(all: seq<Point>, points: seq<Point>, b: Octet, k: nat, w: Width, index: nat, left: nat,
                code: nat, prefix: nat)
    requires BitsAt(all, points, b, k, w, index, left, code, prefix)
    ensures k >= w.Per() || left == 0 ==> all == points
    ensures k < w.Per() && left > 0 ==>
              BitsAt(all, points + [PackedPoint(b, k, w, index, code, prefix)], b, k + 1, w, Wrap(index + 1),
                left - 1, code, prefix)
  {
    hide PackedPoint, Wrap, Width.Per;
    if k < w.Per() && left > 0 {
      var p := PackedPoint(b, k, w, index, code, prefix);
      var more := UnpackOctet(b, k + 1, w, Wrap(index + 1), left - 1, code, prefix);
      assert points + ([p] + more) == (points + [p]) + more;
    } else {
      assert points + [] == points;
    }
  }

  /** The inner loop over the bits of one octet. */
  method UnpackBits(b: Octet, w: Width, start: nat, count: nat, code: nat,
                    prefix: nat) returns (points: seq<Point>, n: nat)
    ensures points == UnpackOctet(b, 0, w, start, count, code, prefix)
    ensures n == Least(count, w.Per())
  {
    hide PackedPoint, Wrap, UnpackOctet, BitsAt, Width.Per;
    points := [];
    n := 0;
    var index := start;
    ghost var all := UnpackOctet(b, 0, w, start, count, code, prefix);
    BitsStart(all, b, w, start, count, code, prefix);
    while n < w.Per() && n < count
      invariant n <= w.Per() && n <= count
      invariant BitsAt(all, points, b, n, w, index, count - n, code, prefix)
    {
      BitTurn(all, points, b, n, w, index, count - n, code, prefix);
      points := points + [PackedPoint(b, n, w, index, code, prefix)];
      index := Wrap(index + 1);
      n := n + 1;
    }
    BitTurn(all, points, b, n, w, index, count - n, code, prefix);
  }

  lemma BitsStart(all: seq<Point>, b: Octet, w: Width, index: nat, count: nat, code: nat, prefix: nat)
    requires all == UnpackOctet(b, 0, w, index, count, code, prefix)
    ensures BitsAt(all, [], b, 0, w, index, count, code, prefix)
  {
    hide UnpackOctet;
    assert [] + all == all;
  }

  ghost predicate OctetsAt(all: Decoded, points: seq<Point>, rest: seq<Octet>, octets: nat, w: Width,
                           index: nat, left: nat, code: nat, prefix: nat) {
    var d := UnpackOctets(rest, octets, w, index, left, code, prefix); all == d.(points := points + d.points)
  }

  lemma OctetsStart(all: Decoded, rest: seq<Octet>, octets: nat, w: Width, index: nat, count: nat, code: nat,
                    prefix: nat)
    requires all == UnpackOctets(rest, octets, w, index, count, code, prefix)
    ensures OctetsAt(all, [], rest, octets, w, index, count, code, prefix)
  {
    assert [] + all.points == all.points;
  }

  lemma OctetTurn(all: Decoded, points: seq<Point>, rest: seq<Octet>, octets: nat, w: Width, index: nat,
                  left: nat, code: nat, prefix: nat)
    requires OctetsAt(all, points, rest, octets, w, index, left, code, prefix)
    ensures octets == 0 ==> all == Decoded(true, points, rest)
    ensures octets > 0 && rest == [] ==> all == Decoded(false, points, rest)
    ensures octets > 0 && rest != [] ==>
              var n := Least(left, w.Per());
              OctetsAt(all, points + UnpackOctet(rest[0], 0, w, index, left, code, prefix), rest[1..], octets - 1,
                w, Wrap(index + n), left - n, code, prefix)
  {
    hide UnpackOctet, Wrap, Width.Per;
    if octets > 0 && rest != [] {
      var n := Least(left, w.Per());
      var here := UnpackOctet(rest[0], 0, w, index, left, code, prefix);
      var d := UnpackOctets(rest[1..], octets - 1, w, Wrap(index + n), left - n, code, prefix);
      assert points + (here + d.points) == (points + here) + d.points;
    }
  }

  // ----- the message -----

  method DecodeObject(cur: Cursor, s: Schema, code: nat, start: nat, count: nat) returns (ok: bool, points: seq<Point>)
    requires cur.Valid()
    modifies cur
    ensures cur.Valid()
    ensures Decoded(ok, points, cur.Rest()) == Decode(s, old(cur.Rest()), code, start, count)
  {
    hide DecodePlain, DecodePacked;
    match s
    case Packed(w) => ok, points := DecodePackedObject(cur, w, code, start, count);
    case Plain(c, fields) => ok, points := DecodePlainObject(cur, c, fields, code, start, count);
  }

  /** `objects` are stored, and decoding goes on from `rest`. */
  ghost predicate ObjectsAt(all: Message, objects: seq<Object>, rest: seq<Octet>, points: nat, max: Limits) {
    var m := DecodeObjects(rest, |objects|, points, max); all == m.(objects := objects + m.objects)
  }

  lemma ObjectTurn(all: Message, objects: seq<Object>, rest: seq<Octet>, points: nat, max: Limits)
    requires ObjectsAt(all, objects, rest, points, max)
    ensures rest == [] ==> all == Message(true, objects)
    ensures rest != [] ==>
              match OneObject(rest, |objects|, points, max)
              case Stop(os) => all == Message(false, objects + os)
              case GoOn(o, after, p) => ObjectsAt(all, objects + [o], after, p, max)
  {
    hide OneObject;
    if rest != [] {
      match OneObject(rest, |objects|, points, max)
      case Stop(_) =>
      case GoOn(o, after, p) =>
        var m := DecodeObjects(after, |objects| + 1, p, max);
        assert objects + ([o] + m.objects) == (objects + [o]) + m.objects;
    }
  }

  /** One turn of the loop over the object headers, on the cursor. */
  method TakeObject(cur: Cursor, objects: nat, points: nat, max: Limits) returns (turn: Turn)
    requires cur.Valid()
    modifies cur
    ensures cur.Valid()
    ensures turn == OneObject(old(cur.Rest()), objects, points, max)
    ensures turn.GoOn? ==> cur.Rest() == turn.rest
  {
    hide ReadRange, SchemaOf, Decode;
    ghost var before := cur.Rest();
    var got, header := cur.Read(OBJ_HEADER);
    if !got || objects + 1 > max.objects {
      return Stop([]);
    }
    var obj := NewObject(header);
    assert obj == NewObject(before);
    RangeLength(cur.Rest(), obj.rangeCode);
    var range := ReadRange(cur.Rest(), obj.rangeCode);
    if !range.Range? {
      return Stop([obj]);
    }
    var _, _ := cur.Read(range.len);
    assert cur.Rest() == before[OBJ_HEADER + range.len..];
    obj := obj.(start := range.start, stop := range.stop, count := range.count);
    if obj.variation == 0 || obj.count == 0 {
      return GoOn(obj, cur.Rest(), points);
    }
    if points + obj.count > max.points {
      return Stop([obj]);
    }
    match SchemaOf(obj.group, obj.variation)
    case None =>
      return Stop([obj]);
    case Some(schema) =>
      var ok, decoded := DecodeObject(cur, schema, obj.prefixCode, obj.start, obj.count);
      var full := obj.(points := decoded);
      return if ok then GoOn(full, cur.Rest(), points + obj.count) else Stop([full]);
  }

  method DecodeApplicationObjects(buf: seq<Octet>, max: Limits) returns (complete: bool, objects: seq<Object>)
    ensures Message(complete, objects) == DecodeObjects(buf, 0, 0, max)
    ensures |objects| <= max.objects && TotalPoints(objects) <= max.points
  {
    hide DecodeObjects, OneObject, ObjectsAt, TotalPoints;
    objects := [];
    var points: nat := 0;
    var cur := new Cursor(buf);
    BudgetTheorem(buf, max);
    ghost var all := DecodeObjects(buf, 0, 0, max);
    ObjectsStart(all, buf, max);
    while cur.len > 0
      invariant cur.Valid()
      invariant ObjectsAt(all, objects, cur.Rest(), points, max)
      decreases cur.len
    {
      ObjectTurn(all, objects, cur.Rest(), points, max);
      var turn := TakeObject(cur, |objects|, points, max);
      match turn {
        case Stop(last) =>
          return false, objects + last;
        case GoOn(obj, _, p) =>
          objects, points := objects + [obj], p;
      }
    }
    ObjectTurn(all, objects, cur.Rest(), points, max);
    complete := true;
  }

  lemma ObjectsStart(all: Message, buf: seq<Octet>, max: Limits)
    requires all == DecodeObjects(buf, 0, 0, max)
    ensures ObjectsAt(all, [], buf, 0, max)
  {
    hide DecodeObjects;
    assert [] + all.objects == all.objects;
  }
}
