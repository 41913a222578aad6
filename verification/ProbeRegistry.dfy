/**
 The probing parser registry: per IP protocol a list of ports, per port the parsers to try
 on the destination and on the source side.  Port 0 is the wildcard: its parsers run on
 every port, so they are copied into every port entry and its own entry is kept last.
 */
module ProbeRegistry {
  import opened Common

  const ALPROTO_UNKNOWN: nat := 0

  /** A parser function, by name. */
  type Parser = Option<nat>

  datatype Element = Element(alproto: nat, minDepth: nat, maxDepth: nat, toServer: Parser, toClient: Parser)

  /** The parsers of one side of a port; a depth of 0 means no limit. */
  datatype Side = Side(maxDepth: nat, elems: seq<Element>)

  datatype Port = Port(port: nat, dp: Side, sp: Side) {
    function Get(toServer: bool): Side { if toServer then dp else sp }
    function Set(toServer: bool, s: Side): Port { if toServer then this.(dp := s) else this.(sp := s) }
  }

  datatype Registration = Registration(ipproto: nat, port: nat, alproto: nat, minDepth: nat, maxDepth: nat,
                                       toServer: bool, parser1: Parser, parser2: Parser)

  /** AppLayerProtoDetectProbingParserElementCreate accepts the arguments. */
  predicate Acceptable(r: Registration, protoMax: nat) {
    (r.maxDepth == 0 || r.minDepth < r.maxDepth) && ALPROTO_UNKNOWN < r.alproto < protoMax
  }

  function ElementOf(r: Registration): Element {
    if r.toServer then Element(r.alproto, r.minDepth, r.maxDepth, r.parser1, r.parser2)
    else Element(r.alproto, r.minDepth, r.maxDepth, r.parser2, r.parser1)
  }

  // ----- one registration -----

  predicate Lists(elems: seq<Element>, alproto: nat) {
    exists i :: 0 <= i < |elems| && elems[i].alproto == alproto
  }

  /** Append an element and widen the depth. */
  function Add(s: Side, e: Element): Side {
    Side(if s.elems == [] || e.maxDepth == 0 then e.maxDepth
         else if s.maxDepth != 0 && s.maxDepth < e.maxDepth then e.maxDepth
         else s.maxDepth,
         s.elems + [e])
  }

  function AddAll(s: Side, es: seq<Element>): Side {
    if es == [] then s else Add(AddAll(s, es[..|es| - 1]), es[|es| - 1])
  }

  /** First entry for a port. */
  function Find(ports: seq<Port>, port: nat): (i: nat)
    ensures i <= |ports|
    ensures i < |ports| ==> ports[i].port == port
    ensures forall j :: 0 <= j < i ==> ports[j].port != port
  {
    if ports == [] || ports[0].port == port then 0 else 1 + Find(ports[1..], port)
  }

  function FreshPort(r: Registration): Port {
    Port(r.port, Side(if r.toServer then r.maxDepth else 0, []), Side(if r.toServer then 0 else r.maxDepth, []))
  }

  /** The entry with copies of the wildcard's parsers. */
  function Inheriting(q: Port, zero: Port): Port {
    q.(dp := AddAll(q.dp, zero.dp.elems), sp := AddAll(q.sp, zero.sp.elems))
  }

  /** The list with an entry for the port of `r`: a new one stands before the wildcard and
      starts with the wildcard's parsers. */
  function WithPort(ports: seq<Port>, r: Registration): (s: seq<Port>)
    ensures exists k :: 0 <= k < |s| && s[k].port == r.port
  {
    if Find(ports, r.port) < |ports| then ports
    else
      var z := Find(ports, 0);
      var q := if z == |ports| then FreshPort(r) else Inheriting(FreshPort(r), ports[z]);
      var s := ports[..z] + [q] + ports[z..];
      assert s[z].port == r.port;
      s
  }

  /** One more parser on one side of an entry. */
  function Widen(q: Port, toServer: bool, e: Element): Port {
    q.Set(toServer, Add(q.Get(toServer), e))
  }

  /** The port entry after a registration that is accepted. */
  function Extend(q: Port, r: Registration): Port {
    if r.port == 0 || q.port == r.port then Widen(q, r.toServer, ElementOf(r)) else q
  }

  function ExtendAll(ports: seq<Port>, r: Registration): (s: seq<Port>)
    ensures |s| == |ports| && forall i :: 0 <= i < |s| ==> s[i] == Extend(ports[i], r)
  {
    if ports == [] then [] else [Extend(ports[0], r)] + ExtendAll(ports[1..], r)
  }

  /** AppLayerProtoDetectInsertNewProbingParser on the port list of its IP protocol. */
  function Register(ports: seq<Port>, r: Registration, protoMax: nat): seq<Port> {
    var with := WithPort(ports, r);
    var i := Find(with, r.port);
    if Lists(with[i].Get(r.toServer).elems, r.alproto) || !Acceptable(r, protoMax) then with
    else ExtendAll(with, r)
  }

  // ----- runs and lookup -----

  type Registry = map<nat, seq<Port>>

  function PortsOf(reg: Registry, ipproto: nat): seq<Port> {
    if ipproto in reg then reg[ipproto] else []
  }

  function After(rs: seq<Registration>, protoMax: nat): Registry {
    if rs == [] then map[]
    else
      var r, reg := rs[|rs| - 1], After(rs[..|rs| - 1], protoMax);
      reg[r.ipproto := Register(PortsOf(reg, r.ipproto), r, protoMax)]
  }

  /** First entry for the port or for the wildcard. */
  function Lookup(ports: seq<Port>, port: nat): (i: nat)
    ensures i <= |ports|
    ensures i < |ports| ==> ports[i].port == port || ports[i].port == 0
    ensures forall j :: 0 <= j < i ==> ports[j].port != port && ports[j].port != 0
  {
    if ports == [] || ports[0].port == port || ports[0].port == 0 then 0 else 1 + Lookup(ports[1..], port)
  }

  /** The parsers found for a port. */
  function Found(reg: Registry, ipproto: nat, port: nat, toServer: bool): seq<Element> {
    var ports := PortsOf(reg, ipproto);
    var i := Lookup(ports, port);
    if i < |ports| then ports[i].Get(toServer).elems else []
  }

  // ----- the naive specification -----

  predicate Concerns(r: Registration, ipproto: nat, port: nat, toServer: bool, alproto: nat) {
    r.ipproto == ipproto && (r.port == port || r.port == 0) && r.toServer == toServer && r.alproto == alproto
  }

  /** Some acceptable registration names the protocol for the port or for the wildcard. */
  predicate Registered(rs: seq<Registration>, protoMax: nat, ipproto: nat, port: nat, toServer: bool, alproto: nat) {
    exists i :: 0 <= i < |rs| && Acceptable(rs[i], protoMax) && Concerns(rs[i], ipproto, port, toServer, alproto)
  }

  lemma RegisteredStep(rs: seq<Registration>, protoMax: nat, ipproto: nat, port: nat, toServer: bool, alproto: nat)
    requires rs != []
    ensures var r := rs[|rs| - 1];
            Registered(rs, protoMax, ipproto, port, toServer, alproto) <==>
            Registered(rs[..|rs| - 1], protoMax, ipproto, port, toServer, alproto)
            || (Acceptable(r, protoMax) && Concerns(r, ipproto, port, toServer, alproto))
  {
    hide Acceptable, Concerns;
    var init := rs[..|rs| - 1];
    if Registered(init, protoMax, ipproto, port, toServer, alproto) {
      var i :| 0 <= i < |init| && Acceptable(init[i], protoMax) && Concerns(init[i], ipproto, port, toServer, alproto);
      assert rs[i] == init[i];
    }
    if Registered(rs, protoMax, ipproto, port, toServer, alproto) {
      var i :| 0 <= i < |rs| && Acceptable(rs[i], protoMax) && Concerns(rs[i], ipproto, port, toServer, alproto);
      assert i < |rs| - 1 ==> init[i] == rs[i];
    }
  }

  // ----- what every run keeps -----

  /** Ports are unique and the wildcard is last. */
  ghost predicate Shaped(ports: seq<Port>) {
    && (forall i, j :: 0 <= i < j < |ports| ==> ports[i].port != ports[j].port)
    && (forall i :: 0 <= i < |ports| - 1 ==> ports[i].port != 0)
  }

  lemma WithPortShaped(ports: seq<Port>, r: Registration)
    requires Shaped(ports)
    ensures Shaped(WithPort(ports, r))
  {
    hide AddAll;
    var with := WithPort(ports, r);
    var z := Find(ports, 0);
    if Find(ports, r.port) == |ports| {
      assert with[z].port == r.port;
      assert forall i :: 0 <= i < z ==> with[i] == ports[i];
      assert z < |ports| ==> with[z + 1] == ports[z];
    }
  }

  /** The depth of a side is that of its parsers: none if one of them has none, else the
      greatest. */
  ghost predicate DepthOk(s: Side) {
    s.elems != [] ==>
      && (s.maxDepth == 0 <==> exists i :: 0 <= i < |s.elems| && s.elems[i].maxDepth == 0)
      && (exists i :: 0 <= i < |s.elems| && s.elems[i].maxDepth == s.maxDepth)
      && (s.maxDepth != 0 ==> forall i :: 0 <= i < |s.elems| ==> s.elems[i].maxDepth <= s.maxDepth)
  }

  lemma AddDepth(s: Side, e: Element)
    requires DepthOk(s)
    ensures DepthOk(Add(s, e))
  {
    var t := Add(s, e);
    assert forall i :: 0 <= i < |s.elems| ==> t.elems[i] == s.elems[i];
    assert t.elems[|s.elems|] == e;
  }

  lemma {:induction false} AddAllDepth(s: Side, es: seq<Element>)
    requires DepthOk(s)
    ensures DepthOk(AddAll(s, es)) && AddAll(s, es).elems == s.elems + es
  {
    if es == [] {
      assert s.elems + es == s.elems;
    } else {
      hide DepthOk;
      var init, e := es[..|es| - 1], es[|es| - 1];
      AddAllDepth(s, init);
      AddDepth(AddAll(s, init), e);
      assert s.elems + es == (s.elems + init) + [e];
    }
  }

  /** An element comes from an acceptable registration for the port or the wildcard. */
  ghost predicate Origin(rs: seq<Registration>, protoMax: nat, ipproto: nat, port: nat, toServer: bool, e: Element) {
    exists i :: 0 <= i < |rs| && Acceptable(rs[i], protoMax) && Concerns(rs[i], ipproto, port, toServer, e.alproto)
      && ElementOf(rs[i]) == e
  }

  /** The elements are what the registrations say. */
  ghost predicate Right(elems: seq<Element>, rs: seq<Registration>, protoMax: nat, ipproto: nat, port: nat,
                        toServer: bool) {
    && (forall i :: 0 <= i < |elems| ==> Origin(rs, protoMax, ipproto, port, toServer, elems[i]))
    && (forall a: nat :: Registered(rs, protoMax, ipproto, port, toServer, a) ==> Lists(elems, a))
  }

  ghost predicate PortRight(q: Port, rs: seq<Registration>, protoMax: nat, ipproto: nat) {
    && DepthOk(q.dp) && DepthOk(q.sp)
    && Right(q.dp.elems, rs, protoMax, ipproto, q.port, true)
    && Right(q.sp.elems, rs, protoMax, ipproto, q.port, false)
  }

  /** Every port some registration names has an entry. */
  ghost predicate Covered(ports: seq<Port>, rs: seq<Registration>, ipproto: nat) {
    forall i :: 0 <= i < |rs| && rs[i].ipproto == ipproto ==> Find(ports, rs[i].port) < |ports|
  }

  ghost predicate PortsOk(ports: seq<Port>, rs: seq<Registration>, protoMax: nat, ipproto: nat) {
    && Shaped(ports) && Covered(ports, rs, ipproto)
    && forall i :: 0 <= i < |ports| ==> PortRight(ports[i], rs, protoMax, ipproto)
  }

  lemma OriginKept(rs: seq<Registration>, r: Registration, protoMax: nat, ipproto: nat, port: nat,
                   toServer: bool, e: Element)
    requires Origin(rs, protoMax, ipproto, port, toServer, e)
    ensures Origin(rs + [r], protoMax, ipproto, port, toServer, e)
  {
    hide Acceptable, Concerns, ElementOf;
    var i :| 0 <= i < |rs| && Acceptable(rs[i], protoMax) && Concerns(rs[i], ipproto, port, toServer, e.alproto)
      && ElementOf(rs[i]) == e;
    assert (rs + [r])[i] == rs[i];
  }

  /** A registration that does not concern the port, is not acceptable, or names a protocol
      already listed changes nothing. */
  lemma RightKept(elems: seq<Element>, rs: seq<Registration>, r: Registration, protoMax: nat, ipproto: nat,
                  port: nat, toServer: bool)
    requires Right(elems, rs, protoMax, ipproto, port, toServer)
    requires Acceptable(r, protoMax) && Concerns(r, ipproto, port, toServer, r.alproto) ==> Lists(elems, r.alproto)
    ensures Right(elems, rs + [r], protoMax, ipproto, port, toServer)
  {
    hide Acceptable, Lists, Origin, Registered;
    forall i | 0 <= i < |elems| ensures Origin(rs + [r], protoMax, ipproto, port, toServer, elems[i]) {
      OriginKept(rs, r, protoMax, ipproto, port, toServer, elems[i]);
    }
    forall a: nat | Registered(rs + [r], protoMax, ipproto, port, toServer, a) ensures Lists(elems, a) {
      assert (rs + [r])[..|rs|] == rs;
      RegisteredStep(rs + [r], protoMax, ipproto, port, toServer, a);
    }
  }

  lemma ListsMore(elems: seq<Element>, e: Element, a: nat)
    ensures Lists(elems + [e], a) <==> Lists(elems, a) || e.alproto == a
  {
    var more := elems + [e];
    assert more[|elems|] == e;
    if Lists(elems, a) {
      var i :| 0 <= i < |elems| && elems[i].alproto == a;
      assert more[i] == elems[i];
    }
    if Lists(more, a) {
      var i :| 0 <= i < |more| && more[i].alproto == a;
      assert i < |elems| ==> elems[i] == more[i];
    }
  }

  lemma RightExtended(elems: seq<Element>, rs: seq<Registration>, r: Registration, protoMax: nat, ipproto: nat,
                      port: nat, toServer: bool)
    requires Right(elems, rs, protoMax, ipproto, port, toServer)
    requires Acceptable(r, protoMax) && Concerns(r, ipproto, port, toServer, r.alproto)
    ensures Right(elems + [ElementOf(r)], rs + [r], protoMax, ipproto, port, toServer)
  {
    hide Acceptable, Lists, Registered;
    var more := elems + [ElementOf(r)];
    forall i | 0 <= i < |more| ensures Origin(rs + [r], protoMax, ipproto, port, toServer, more[i]) {
      if i < |elems| {
        hide Origin;
        assert more[i] == elems[i];
        OriginKept(rs, r, protoMax, ipproto, port, toServer, elems[i]);
      } else {
        assert (rs + [r])[|rs|] == r;
      }
    }
    forall a: nat | Registered(rs + [r], protoMax, ipproto, port, toServer, a) ensures Lists(more, a) {
      assert (rs + [r])[..|rs|] == rs;
      RegisteredStep(rs + [r], protoMax, ipproto, port, toServer, a);
      ListsMore(elems, ElementOf(r), a);
    }
  }

  /** A port no registration names has what the wildcard has. */
  lemma RightInherited(ports: seq<Port>, elems: seq<Element>, rs: seq<Registration>, protoMax: nat,
                       ipproto: nat, port: nat, toServer: bool)
    requires Covered(ports, rs, ipproto) && Find(ports, port) == |ports|
    requires if Find(ports, 0) < |ports| then Right(elems, rs, protoMax, ipproto, 0, toServer) else elems == []
    ensures Right(elems, rs, protoMax, ipproto, port, toServer)
  {
    hide Acceptable, Lists, ElementOf;
    forall i | 0 <= i < |elems| ensures Origin(rs, protoMax, ipproto, port, toServer, elems[i]) {
      assert Origin(rs, protoMax, ipproto, 0, toServer, elems[i]);
      var k :| 0 <= k < |rs| && Acceptable(rs[k], protoMax)
        && Concerns(rs[k], ipproto, 0, toServer, elems[i].alproto) && ElementOf(rs[k]) == elems[i];
      assert Concerns(rs[k], ipproto, port, toServer, elems[i].alproto);
    }
    forall a: nat | Registered(rs, protoMax, ipproto, port, toServer, a) ensures Lists(elems, a) {
      var k :| 0 <= k < |rs| && Acceptable(rs[k], protoMax) && Concerns(rs[k], ipproto, port, toServer, a);
      assert Find(ports, rs[k].port) < |ports|;
      assert Concerns(rs[k], ipproto, 0, toServer, a);
      assert Registered(rs, protoMax, ipproto, 0, toServer, a);
    }
  }

  lemma NewPortRight(ports: seq<Port>, rs: seq<Registration>, r: Registration, protoMax: nat, ipproto: nat)
    requires PortsOk(ports, rs, protoMax, ipproto) && Find(ports, r.port) == |ports|
    ensures var z := Find(ports, 0);
            PortRight(if z == |ports| then FreshPort(r) else Inheriting(FreshPort(r), ports[z]), rs, protoMax, ipproto)
  {
    hide Right, Find, Covered, Shaped, AddAll;
    var z := Find(ports, 0);
    var q := FreshPort(r);
    var dp, sp := if z == |ports| then [] else ports[z].dp.elems, if z == |ports| then [] else ports[z].sp.elems;
    AddAllDepth(q.dp, dp);
    AddAllDepth(q.sp, sp);
    assert [] + dp == dp && [] + sp == sp;
    RightInherited(ports, dp, rs, protoMax, ipproto, r.port, true);
    RightInherited(ports, sp, rs, protoMax, ipproto, r.port, false);
  }

  /** A new entry keeps what holds of the registrations so far, and covers the next one. */
  lemma WithPortOk(ports: seq<Port>, rs: seq<Registration>, r: Registration, protoMax: nat, ipproto: nat)
    requires PortsOk(ports, rs, protoMax, ipproto)
    ensures PortsOk(WithPort(ports, r), rs, protoMax, ipproto)
  {
    hide PortRight, AddAll, Shaped;
    var with := WithPort(ports, r);
    WithPortShaped(ports, r);
    if Find(ports, r.port) == |ports| {
      NewPortRight(ports, rs, r, protoMax, ipproto);
      var z := Find(ports, 0);
      assert forall i :: 0 <= i < z ==> with[i] == ports[i];
      assert forall i :: z < i < |with| ==> with[i] == ports[i - 1];
      forall i | 0 <= i < |rs| && rs[i].ipproto == ipproto ensures Find(with, rs[i].port) < |with| {
        var k := Find(ports, rs[i].port);
        assert with[if k < z then k else k + 1].port == rs[i].port;
      }
    }
  }

  /** What one registration does to one entry. */
  lemma EntryStep(q: Port, rs: seq<Registration>, r: Registration, protoMax: nat, ipproto: nat)
    requires PortRight(q, rs, protoMax, ipproto) && r.ipproto == ipproto
    ensures Acceptable(r, protoMax) ==> PortRight(Extend(q, r), rs + [r], protoMax, ipproto)
    ensures !Acceptable(r, protoMax) || (r.port != 0 && r.port != q.port)
              || Lists(q.Get(r.toServer).elems, r.alproto) ==>
              PortRight(q, rs + [r], protoMax, ipproto)
  {
    hide Right, Acceptable, Lists, DepthOk;
    AddDepth(q.Get(r.toServer), ElementOf(r));
    if Acceptable(r, protoMax) && (r.port == 0 || q.port == r.port) {
      RightExtended(q.Get(r.toServer).elems, rs, r, protoMax, ipproto, q.port, r.toServer);
      RightKept(q.Get(!r.toServer).elems, rs, r, protoMax, ipproto, q.port, !r.toServer);
      if Lists(q.Get(r.toServer).elems, r.alproto) {
        RightKept(q.Get(r.toServer).elems, rs, r, protoMax, ipproto, q.port, r.toServer);
      }
    } else {
      RightKept(q.dp.elems, rs, r, protoMax, ipproto, q.port, true);
      RightKept(q.sp.elems, rs, r, protoMax, ipproto, q.port, false);
    }
  }

  lemma CoveredStep(ports: seq<Port>, rs: seq<Registration>, r: Registration, ipproto: nat)
    requires Covered(ports, rs, ipproto) && (r.ipproto == ipproto ==> Find(ports, r.port) < |ports|)
    ensures Covered(ports, rs + [r], ipproto)
  {
    assert forall i :: 0 <= i < |rs| ==> (rs + [r])[i] == rs[i];
  }

  lemma ExtendAllOk(ports: seq<Port>, rs: seq<Registration>, r: Registration, protoMax: nat)
    requires PortsOk(ports, rs, protoMax, r.ipproto) && Acceptable(r, protoMax) && Find(ports, r.port) < |ports|
    ensures PortsOk(ExtendAll(ports, r), rs + [r], protoMax, r.ipproto)
  {
    hide PortRight, Acceptable, ExtendAll;
    var more := ExtendAll(ports, r);
    assert forall i :: 0 <= i < |ports| ==> more[i].port == ports[i].port;
    forall i | 0 <= i < |more| ensures PortRight(more[i], rs + [r], protoMax, r.ipproto) {
      EntryStep(ports[i], rs, r, protoMax, r.ipproto);
    }
    CoveredStep(ports, rs, r, r.ipproto);
    forall i | 0 <= i < |rs + [r]| && (rs + [r])[i].ipproto == r.ipproto
      ensures Find(more, (rs + [r])[i].port) < |more|
    {
      var k := Find(ports, (rs + [r])[i].port);
      assert more[k].port == (rs + [r])[i].port;
    }
  }

  /** A protocol the wildcard lists is listed by every entry. */
  lemma WildcardListed(ports: seq<Port>, rs: seq<Registration>, protoMax: nat, ipproto: nat, z: nat, i: nat,
                       toServer: bool, alproto: nat)
    requires PortsOk(ports, rs, protoMax, ipproto) && z < |ports| && ports[z].port == 0 && i < |ports|
    requires Lists(ports[z].Get(toServer).elems, alproto)
    ensures Lists(ports[i].Get(toServer).elems, alproto)
  {
    hide Shaped, Covered, DepthOk, Acceptable, ElementOf;
    assert PortRight(ports[z], rs, protoMax, ipproto) && PortRight(ports[i], rs, protoMax, ipproto);
    var elems := ports[z].Get(toServer).elems;
    var k :| 0 <= k < |elems| && elems[k].alproto == alproto;
    assert Origin(rs, protoMax, ipproto, 0, toServer, elems[k]);
    var n :| 0 <= n < |rs| && Acceptable(rs[n], protoMax) && Concerns(rs[n], ipproto, 0, toServer, alproto)
      && ElementOf(rs[n]) == elems[k];
    assert Concerns(rs[n], ipproto, ports[i].port, toServer, alproto);
    assert Registered(rs, protoMax, ipproto, ports[i].port, toServer, alproto);
  }

  lemma RejectedOk(ports: seq<Port>, rs: seq<Registration>, r: Registration, protoMax: nat)
    requires PortsOk(ports, rs, protoMax, r.ipproto) && Find(ports, r.port) < |ports|
    requires Lists(ports[Find(ports, r.port)].Get(r.toServer).elems, r.alproto) || !Acceptable(r, protoMax)
    ensures PortsOk(ports, rs + [r], protoMax, r.ipproto)
  {
    hide PortRight, Acceptable, Lists, Shaped, Covered;
    CoveredStep(ports, rs, r, r.ipproto);
    forall i | 0 <= i < |ports| ensures PortRight(ports[i], rs + [r], protoMax, r.ipproto) {
      EntryStep(ports[i], rs, r, protoMax, r.ipproto);
      if Acceptable(r, protoMax) {
        if r.port == 0 {
          WildcardListed(ports, rs, protoMax, r.ipproto, Find(ports, 0), i, r.toServer, r.alproto);
        } else if ports[i].port == r.port {
          SameEntry(ports, Find(ports, r.port), i);
        }
      }
    }
  }

  lemma SameEntry(ports: seq<Port>, i: nat, j: nat)
    requires Shaped(ports) && i < |ports| && j < |ports| && ports[i].port == ports[j].port
    ensures i == j
  {
  }

  lemma RegisterOk(ports: seq<Port>, rs: seq<Registration>, r: Registration, protoMax: nat)
    requires PortsOk(ports, rs, protoMax, r.ipproto)
    ensures PortsOk(Register(ports, r, protoMax), rs + [r], protoMax, r.ipproto)
  {
    hide PortsOk, Acceptable, Lists, WithPort, ExtendAll;
    var with := WithPort(ports, r);
    WithPortOk(ports, rs, r, protoMax, r.ipproto);
    if Lists(with[Find(with, r.port)].Get(r.toServer).elems, r.alproto) || !Acceptable(r, protoMax) {
      RejectedOk(with, rs, r, protoMax);
    } else {
      ExtendAllOk(with, rs, r, protoMax);
    }
  }

  lemma OtherProtoOk(ports: seq<Port>, rs: seq<Registration>, r: Registration, protoMax: nat, ipproto: nat)
    requires PortsOk(ports, rs, protoMax, ipproto) && r.ipproto != ipproto
    ensures PortsOk(ports, rs + [r], protoMax, ipproto)
  {
    hide Right, Acceptable, DepthOk, Shaped, Covered;
    CoveredStep(ports, rs, r, ipproto);
    forall i | 0 <= i < |ports| ensures PortRight(ports[i], rs + [r], protoMax, ipproto) {
      RightKept(ports[i].dp.elems, rs, r, protoMax, ipproto, ports[i].port, true);
      RightKept(ports[i].sp.elems, rs, r, protoMax, ipproto, ports[i].port, false);
    }
  }

  /** After every sequence of registrations each IP protocol's list has unique ports with
      the wildcard last, depths that fit, and the right parsers in every entry. */
  lemma {:induction false} RegistryTheorem(rs: seq<Registration>, protoMax: nat, ipproto: nat)
    ensures PortsOk(PortsOf(After(rs, protoMax), ipproto), rs, protoMax, ipproto)
  {
    if rs != [] {
      hide PortsOk, Register;
      var init, r := rs[..|rs| - 1], rs[|rs| - 1];
      assert rs == init + [r];
      RegistryTheorem(init, protoMax, ipproto);
      var ports := PortsOf(After(init, protoMax), ipproto);
      if r.ipproto == ipproto {
        RegisterOk(ports, init, r, protoMax);
      } else {
        OtherProtoOk(ports, init, r, protoMax, ipproto);
      }
    }
  }

  lemma ListsOnlyRegistered(elems: seq<Element>, rs: seq<Registration>, protoMax: nat, ipproto: nat, port: nat,
                            toServer: bool, a: nat)
    requires Right(elems, rs, protoMax, ipproto, port, toServer) && Lists(elems, a)
    ensures Registered(rs, protoMax, ipproto, port, toServer, a)
  {
    hide Acceptable, Concerns, ElementOf;
    var i :| 0 <= i < |elems| && elems[i].alproto == a;
    assert Origin(rs, protoMax, ipproto, port, toServer, elems[i]);
  }

  lemma LookupRight(ports: seq<Port>, rs: seq<Registration>, protoMax: nat, ipproto: nat, port: nat, toServer: bool)
    requires PortsOk(ports, rs, protoMax, ipproto)
    ensures var i := Lookup(ports, port);
            Right(if i < |ports| then ports[i].Get(toServer).elems else [], rs, protoMax, ipproto, port, toServer)
  {
    hide Right, DepthOk, Covered;
    var i := Lookup(ports, port);
    var elems := if i < |ports| then ports[i].Get(toServer).elems else [];
    assert i < |ports| ==> PortRight(ports[i], rs, protoMax, ipproto);
    if i == |ports| || ports[i].port != port {
      assert Find(ports, port) == |ports|;
      assert i < |ports| ==> Find(ports, 0) == i;
      RightInherited(ports, elems, rs, protoMax, ipproto, port, toServer);
    }
  }

  /** The protocols found for a port are exactly those acceptably registered for it or for
      the wildcard, and every parser found carries the arguments it was registered with. */
  lemma LookupTheorem(rs: seq<Registration>, protoMax: nat, ipproto: nat, port: nat, toServer: bool, alproto: nat)
    ensures var found := Found(After(rs, protoMax), ipproto, port, toServer);
            && (Lists(found, alproto) <==> Registered(rs, protoMax, ipproto, port, toServer, alproto))
            && forall i :: 0 <= i < |found| ==> Origin(rs, protoMax, ipproto, port, toServer, found[i])
  {
    hide PortsOk, After, Lookup, Lists, Registered, Origin;
    RegistryTheorem(rs, protoMax, ipproto);
    var found := Found(After(rs, protoMax), ipproto, port, toServer);
    LookupRight(PortsOf(After(rs, protoMax), ipproto), rs, protoMax, ipproto, port, toServer);
    if Lists(found, alproto) {
      ListsOnlyRegistered(found, rs, protoMax, ipproto, port, toServer, alproto);
    }
  }

  /** Whatever the order of registration. */
  lemma OrderIrrelevant(rs: seq<Registration>, rs': seq<Registration>, protoMax: nat, ipproto: nat, port: nat,
                        toServer: bool, alproto: nat)
    requires multiset(rs) == multiset(rs')
    ensures Lists(Found(After(rs, protoMax), ipproto, port, toServer), alproto) <==>
            Lists(Found(After(rs', protoMax), ipproto, port, toServer), alproto)
  {
    hide Lists, After;
    LookupTheorem(rs, protoMax, ipproto, port, toServer, alproto);
    LookupTheorem(rs', protoMax, ipproto, port, toServer, alproto);
    RegisteredPermuted(rs, rs', protoMax, ipproto, port, toServer, alproto);
    RegisteredPermuted(rs', rs, protoMax, ipproto, port, toServer, alproto);
  }

  lemma RegisteredPermuted(rs: seq<Registration>, rs': seq<Registration>, protoMax: nat, ipproto: nat,
                           port: nat, toServer: bool, a: nat)
    requires multiset(rs) == multiset(rs')
    ensures Registered(rs, protoMax, ipproto, port, toServer, a) ==>
              Registered(rs', protoMax, ipproto, port, toServer, a)
  {
    hide Acceptable, Concerns;
    if Registered(rs, protoMax, ipproto, port, toServer, a) {
      var i :| 0 <= i < |rs| && Acceptable(rs[i], protoMax) && Concerns(rs[i], ipproto, port, toServer, a);
      assert rs[i] in multiset(rs');
      assert rs[i] in rs';
    }
  }
}
