/**
 The registry as the source edits it: port lists searched and changed in place, depths
 widened step by step.  Each method computes its function in ProbeRegistry.
 */
module ProbeTable {
  import opened Common
  import opened ProbeRegistry

  method FindPort(ports: seq<Port>, port: nat) returns (i: nat)
    ensures i == Find(ports, port)
  {
    i := 0;
    assert ports[0..] == ports;
    while i < |ports| && ports[i].port != port
      invariant i <= |ports| && Find(ports, port) == i + Find(ports[i..], port)
    {
      assert ports[i..][1..] == ports[i + 1..];
      i := i + 1;
    }
  }

  /** The three tests made before every append. */
  method Append(s: Side, e: Element) returns (t: Side)
    ensures t == Add(s, e)
  {
    var depth := s.maxDepth;
    if s.elems == [] {
      depth := e.maxDepth;
    }
    if e.maxDepth == 0 {
      depth := e.maxDepth;
    }
    if depth != 0 && depth < e.maxDepth {
      depth := e.maxDepth;
    }
    t := Side(depth, s.elems + [e]);
  }

  method AppendAll(s: Side, es: seq<Element>) returns (t: Side)
    ensures t == AddAll(s, es)
  {
    hide Add;
    t := s;
    var i := 0;
    while i < |es|
      invariant 0 <= i <= |es| && t == AddAll(s, es[..i])
    {
      assert es[..i + 1][..i] == es[..i];
      t := Append(t, es[i]);
      i := i + 1;
    }
    assert es[..i] == es;
  }

  /** The entry for the port, created before the wildcard if there is none. */
  method EnsurePort(ports: seq<Port>, r: Registration) returns (with: seq<Port>)
    ensures with == WithPort(ports, r)
  {
    hide AddAll;
    var i := FindPort(ports, r.port);
    if i < |ports| {
      return ports;
    }
    var z := FindPort(ports, 0);
    var q := FreshPort(r);
    if z < |ports| {
      var dp := AppendAll(q.dp, ports[z].dp.elems);
      var sp := AppendAll(q.sp, ports[z].sp.elems);
      q := q.(dp := dp, sp := sp);
    }
    with := ports[..z] + [q] + ports[z..];
  }

  method WidenEntry(q: Port, toServer: bool, e: Element) returns (t: Port)
    ensures t == Widen(q, toServer, e)
  {
    hide Add;
    var side := Append(q.Get(toServer), e);
    t := q.Set(toServer, side);
  }

  lemma RegisterShaped(ports: seq<Port>, r: Registration, protoMax: nat)
    requires Shaped(ports)
    ensures Shaped(Register(ports, r, protoMax))
  {
    hide WithPort, Acceptable, Lists, Add, ElementOf;
    WithPortShaped(ports, r);
  }

  /** A wildcard parser is appended to its own entry and to every entry before it. */
  method WidenEveryPort(ports: seq<Port>, toServer: bool, e: Element) returns (more: seq<Port>)
    requires Shaped(ports) && ports != [] && ports[|ports| - 1].port == 0
    ensures |more| == |ports| && forall i :: 0 <= i < |more| ==> more[i] == Widen(ports[i], toServer, e)
  {
    hide Widen;
    var z := FindPort(ports, 0);
    var last := WidenEntry(ports[z], toServer, e);
    SamePort(ports[z], toServer, e);
    more := ports[z := last];
    var j := 0;
    while j < |more| && more[j].port != 0
      invariant |more| == |ports| && z == |ports| - 1 && j <= z
      invariant forall i :: j <= i < z ==> more[i] == ports[i]
      invariant more[z].port == 0
      invariant forall i :: 0 <= i < |ports| && (i < j || i == z) ==> more[i] == Widen(ports[i], toServer, e)
    {
      var q := WidenEntry(more[j], toServer, e);
      more := more[j := q];
      j := j + 1;
    }
  }

  lemma WildcardLast(ports: seq<Port>)
    requires Shaped(ports) && Find(ports, 0) < |ports|
    ensures ports[|ports| - 1].port == 0
  {
  }

  lemma SamePort(q: Port, toServer: bool, e: Element)
    ensures Widen(q, toServer, e).port == q.port
  {
  }

  class ProbingParsers {
    const protoMax: nat
    var reg: Registry

    ghost predicate Valid()
      reads this
    {
      forall ip :: ip in reg ==> Shaped(reg[ip])
    }

    constructor (protoMax: nat)
      ensures Valid() && reg == After([], protoMax) && this.protoMax == protoMax
    {
      this.protoMax := protoMax;
      reg := map[];
    }

    /** AppLayerProtoDetectInsertNewProbingParser, with ports. */
    method Insert(r: Registration)
      requires Valid()
      modifies this
      ensures Valid()
      ensures reg == old(reg)[r.ipproto := Register(PortsOf(old(reg), r.ipproto), r, protoMax)]
    {
      hide Shaped, WithPort, ExtendAll, Lists, Acceptable;
      var ports := PortsOf(reg, r.ipproto);
      assert Shaped(ports) by { EmptyShaped(); }
      RegisterShaped(ports, r, protoMax);
      var with := EnsurePort(ports, r);
      WithPortShaped(ports, r);
      var i := FindPort(with, r.port);
      var duplicate := false;
      var elems := with[i].Get(r.toServer).elems;
      var k := 0;
      while k < |elems| && !duplicate
        invariant 0 <= k <= |elems|
        invariant duplicate <==> exists j :: 0 <= j < k && elems[j].alproto == r.alproto
      {
        duplicate := elems[k].alproto == r.alproto;
        k := k + 1;
      }
      assert duplicate <==> Lists(elems, r.alproto) by { ListsIs(elems, r.alproto); }
      if !duplicate && Acceptable(r, protoMax) {
        if r.port == 0 {
          WildcardLast(with);
          var more := WidenEveryPort(with, r.toServer, ElementOf(r));
          AllExtended(with, r, more);
          with := more;
        } else {
          var q := WidenEntry(with[i], r.toServer, ElementOf(r));
          OneExtended(with, r, i);
          with := with[i := q];
        }
      }
      reg := reg[r.ipproto := with];
    }

    /** AppLayerProtoDetectGetProbingParsers. */
    method GetProbingParsers(ipproto: nat, port: nat) returns (q: Option<Port>)
      ensures var ports := PortsOf(reg, ipproto); var i := Lookup(ports, port);
              q == if i < |ports| then Some(ports[i]) else None
    {
      var ports := PortsOf(reg, ipproto);
      var i := 0;
      assert ports[0..] == ports;
      while i < |ports| && ports[i].port != port && ports[i].port != 0
        invariant i <= |ports| && Lookup(ports, port) == i + Lookup(ports[i..], port)
      {
        assert ports[i..][1..] == ports[i + 1..];
        i := i + 1;
      }
      q := if i < |ports| then Some(ports[i]) else None;
    }

    /** AppLayerProtoDetectHasProbingParsers: the answer the registrations so far call for. */
    method HasProbingParsers(ipproto: nat, port: nat, alproto: nat, ghost rs: seq<Registration>) returns (has: bool)
      requires reg == After(rs, protoMax)
      ensures has <==> Registered(rs, protoMax, ipproto, port, true, alproto)
    {
      hide After, Registered, Lookup;
      LookupTheorem(rs, protoMax, ipproto, port, true, alproto);
      has := false;
      var q := GetProbingParsers(ipproto, port);
      if q.None? {
        return;
      }
      var elems := q.value.dp.elems;
      var k := 0;
      while k < |elems| && !has
        invariant 0 <= k <= |elems|
        invariant has <==> exists j :: 0 <= j < k && elems[j].alproto == alproto
      {
        has := elems[k].alproto == alproto;
        k := k + 1;
      }
    }
  }

  lemma EmptyShaped()
    ensures Shaped([])
  {
  }

  lemma ListsIs(elems: seq<Element>, alproto: nat)
    ensures Lists(elems, alproto) <==> exists j :: 0 <= j < |elems| && elems[j].alproto == alproto
  {
  }

  /** A wildcard registration changes every entry. */
  lemma AllExtended(ports: seq<Port>, r: Registration, more: seq<Port>)
    requires r.port == 0 && |more| == |ports|
    requires forall i :: 0 <= i < |more| ==> more[i] == Widen(ports[i], r.toServer, ElementOf(r))
    ensures ExtendAll(ports, r) == more
  {
    hide Widen, ElementOf;
  }

  /** Any other registration changes the entry of its port only. */
  lemma OneExtended(ports: seq<Port>, r: Registration, i: nat)
    requires Shaped(ports) && r.port != 0 && i < |ports| && ports[i].port == r.port
    ensures ExtendAll(ports, r) == ports[i := Widen(ports[i], r.toServer, ElementOf(r))]
  {
    hide Widen, ElementOf;
  }
}
