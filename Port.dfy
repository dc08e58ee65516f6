/** Ports: the `port:` vertices, the edge from a service to each port it publishes, and
    the port shorthand. */
module Port {
  import opened Wrappers
  import opened Strings
  import opened Graphs
  import opened Compose
  import opened Service

  const PortPrefix := "port:"

  /** The vertex id of a published port. The host address and the protocol play no
      part: every mapping of one published port shares a vertex. */
  function PortId(published: string): (id: string)
    ensures |id| == |PortPrefix| + |published|
    ensures id[..|PortPrefix|] == PortPrefix && id[|PortPrefix|..] == published
  {
    PortPrefix + published
  }

  /** A port vertex's label: the published port, prefixed by the host address when one
      is set. */
  function PortLabel(hostIp: Option<string>, published: string): (text: string)
    ensures hostIp.None? ==> text == published
    ensures hostIp.Some? ==> text == hostIp.value + ":" + published
  {
    match hostIp
    case None => published
    case Some(ip) => ip + ":" + published
  }

  /** The attributes a new port vertex gets: typed `port`, labelled, drawn as a circle,
      and dashed exactly when the protocol is udp. */
  function PortAttributes(hostIp: Option<string>, published: string, proto: Option<string>): (a: Attributes)
    ensures TypeAttribute in a && a[TypeAttribute] == "port"
    ensures LabelAttribute in a && a[LabelAttribute] == PortLabel(hostIp, published)
    ensures ShapeAttribute in a && a[ShapeAttribute] == "circle"
    ensures StyleAttribute in a <==> proto == Some("udp")
    ensures StyleAttribute in a ==> a[StyleAttribute] == "dashed"
    ensures a.Keys <= {TypeAttribute, LabelAttribute, ShapeAttribute, StyleAttribute}
  {
    var a := map[TypeAttribute := "port", LabelAttribute := PortLabel(hostIp, published), ShapeAttribute := "circle"];
    if proto == Some("udp") then a[StyleAttribute := "dashed"] else a
  }

  /** Looks up the vertex of the mapping's published port, or creates it. A mapping
      without a published port cannot name a vertex: a type error, nothing changed. */
  method AddPort(g: Graph, m: PortMapping) returns (r: Result<string, Failure>)
    requires g.Valid()
    modifies g
    ensures g.Valid() && g.edges == old(g.edges) && g.attributes == old(g.attributes)
    ensures m.published.None? ==> r == Err(TypeError) && g.vertices == old(g.vertices)
    ensures m.published.Some? ==>
              r == Ok(PortId(m.published.value)) &&
              g.vertices == Registered(old(g.vertices), PortId(m.published.value),
                                       PortAttributes(m.hostIp, m.published.value, m.proto))
  {
    if m.published.None? {
      return Err(TypeError);
    }
    var id := PortId(m.published.value);
    r := Ok(id);
    if id in g.vertices {
      return;
    }
    g.CreateLabelledVertex(id, "port", PortLabel(m.hostIp, m.published.value), "circle");
    if m.proto == Some("udp") {
      g.SetVertexAttribute(id, StyleAttribute, "dashed");
    }
  }

  function PortRelation(service: string, published: string): Relation {
    Relation(ServiceId(service), PortId(published), "port")
  }

  /** A port edge is solid and, when the mapping has a target, labelled with it. */
  function PortEdgeAttributes(prior: Attributes, target: Option<string>): (a: Attributes)
    ensures StyleAttribute in a && a[StyleAttribute] == "solid"
    ensures target.Some? ==> LabelAttribute in a && a[LabelAttribute] == target.value
    ensures KeepsOthers(prior, a, if target.Some? then {StyleAttribute, LabelAttribute} else {StyleAttribute})
  {
    var a := prior[StyleAttribute := "solid"];
    if target.Some? then a[LabelAttribute := target.value] else a
  }

  /** Draws the edge from a service to a port it publishes. The service must exist
      (nothing changes otherwise); the port vertex is created when missing. */
  method AddPortRelation(g: Graph, service: string, m: PortMapping) returns (r: Result<nat, Failure>)
    requires g.Valid()
    modifies g
    ensures g.Valid() && g.attributes == old(g.attributes)
    ensures ServiceId(service) !in old(g.vertices) ==>
              r == Err(VertexNotFound(ServiceId(service))) && g.vertices == old(g.vertices) && g.edges == old(g.edges)
    ensures ServiceId(service) in old(g.vertices) && m.published.None? ==>
              r == Err(TypeError) && g.vertices == old(g.vertices) && g.edges == old(g.edges)
    ensures ServiceId(service) in old(g.vertices) && m.published.Some? ==>
              var rel := PortRelation(service, m.published.value);
              && r.Ok?
              && g.vertices == Registered(old(g.vertices), PortId(m.published.value),
                                          PortAttributes(m.hostIp, m.published.value, m.proto))
              && RelatedAs(old(g.edges), g.edges, r.value, rel, PortEdgeAttributes(ChosenAttributes(old(g.edges), rel), m.target))
  {
    var serviceVertex := g.GetVertex(ServiceId(service));
    if serviceVertex.Err? {
      return Err(serviceVertex.error);
    }
    var portVertex := AddPort(g, m);
    if portVertex.Err? {
      return Err(portVertex.error);
    }
    var rel := PortRelation(service, m.published.value);
    r := g.Relate(rel);
    var i := r.value;
    g.SetEdgeAttribute(i, StyleAttribute, "solid");
    if m.target.Some? {
      g.SetEdgeAttribute(i, LabelAttribute, m.target.value);
    }
  }

  /** The protocol of a container port: the second piece of the target split on `/`,
      once the empty and "0" pieces are dropped. There is no default protocol. */
  function ProtoOf(target: string): (p: Option<string>)
    ensures p.Some? ==> Truthy(p.value) && '/' !in p.value
    ensures '/' !in target ==> p.None?
  {
    var pieces := Explode("/", target);
    ExplodeCharFree('/', target);
    assert '/' !in target ==> pieces == [target] by {
      if '/' !in target {
        ExplodeImplode('/', [target]);
      }
    }
    var kept := FilterFalsy(pieces);
    if |kept| > 1 then
      assert kept[1] in pieces;
      Some(kept[1])
    else None
  }

  /** For any target made of pieces free of `/`, the protocol is the second of the
      pieces that are neither empty nor "0", and there is none when fewer than two are. */
  lemma ProtoOfPieces(pieces: seq<string>)
    requires |pieces| >= 1
    requires forall k :: 0 <= k < |pieces| ==> '/' !in pieces[k]
    ensures |FilterFalsy(pieces)| > 1 ==> ProtoOf(Implode("/", pieces)) == Some(FilterFalsy(pieces)[1])
    ensures |FilterFalsy(pieces)| <= 1 ==> ProtoOf(Implode("/", pieces)) == None
  {
    ExplodeImplode('/', pieces);
  }

  /** `port/proto` yields the protocol. */
  lemma ProtoOfSuffix(port: string, proto: string)
    requires Truthy(port) && Truthy(proto) && '/' !in port && '/' !in proto
    ensures ProtoOf(port + "/" + proto) == Some(proto)
  {
    assert Implode("/", [port, proto]) == port + "/" + proto;
    ExplodeImplode('/', [port, proto]);
    assert FilterFalsy([port, proto]) == [port, proto] by {
      assert [port, proto][1..] == [proto];
      assert [proto][1..] == [];
    }
  }

  /** The port shorthand: a record is kept as it is; a string is split on `:` into
      target, published:target or host:published:target (a lone port is both published
      and target), the protocol is read off the target, which keeps its `/proto`
      suffix. More than three parts leave the target null, which the protocol split
      rejects with a type error. */
  function NormalizePortMapping(entry: PortEntry): (r: Result<PortMapping, Failure>)
    ensures entry.PortLong? ==> r == Ok(entry.mapping)
    ensures entry.PortShort? ==> (r.Ok? <==> |Explode(":", entry.text)| <= 3)
    ensures entry.PortShort? && r.Err? ==> r.error == TypeError
    ensures entry.PortShort? && r.Ok? ==>
              && r.value.published.Some? && r.value.target.Some?
              && ':' !in r.value.published.value && ':' !in r.value.target.value
              && r.value.proto == ProtoOf(r.value.target.value)
  {
    match entry
    case PortLong(m) => Ok(m)
    case PortShort(text) =>
      var parts := Explode(":", text);
      ExplodeCharFree(':', text);
      if |parts| == 1 then
        Ok(PortMapping(None, Some(parts[0]), Some(parts[0]), ProtoOf(parts[0])))
      else if |parts| == 2 then
        Ok(PortMapping(None, Some(parts[0]), Some(parts[1]), ProtoOf(parts[1])))
      else if |parts| == 3 then
        Ok(PortMapping(Some(parts[0]), Some(parts[1]), Some(parts[2]), ProtoOf(parts[2])))
      else
        Err(TypeError)
  }

  /** A lone port is both the published port and the target. */
  lemma PortShortOne(target: string)
    requires ':' !in target
    ensures NormalizePortMapping(PortShort(target)) == Ok(PortMapping(None, Some(target), Some(target), ProtoOf(target)))
  {
    ExplodeImplode(':', [target]);
  }

  /** `published:target` splits into its two halves, with no host address. */
  lemma PortShortTwo(published: string, target: string)
    requires ':' !in published && ':' !in target
    ensures NormalizePortMapping(PortShort(published + ":" + target))
            == Ok(PortMapping(None, Some(published), Some(target), ProtoOf(target)))
  {
    assert Implode(":", [published, target]) == published + ":" + target;
    ExplodeImplode(':', [published, target]);
  }

  /** `host:published:target` splits into its three parts. */
  lemma PortShortThree(hostIp: string, published: string, target: string)
    requires ':' !in hostIp && ':' !in published && ':' !in target
    ensures NormalizePortMapping(PortShort(hostIp + ":" + published + ":" + target))
            == Ok(PortMapping(Some(hostIp), Some(published), Some(target), ProtoOf(target)))
  {
    assert Implode(":", [hostIp, published, target]) == hostIp + ":" + published + ":" + target by {
      assert [hostIp, published, target][1..] == [published, target];
      assert Implode(":", [published, target]) == published + ":" + target;
    }
    ExplodeImplode(':', [hostIp, published, target]);
  }

  /** Four or more colon-separated parts are a type error. */
  lemma PortShortTooMany(a: string, b: string, c: string, rest: string)
    ensures NormalizePortMapping(PortShort(a + ":" + b + ":" + c + ":" + rest)) == Err(TypeError)
  {
    ExplodeCount(':', a + ":" + b + ":" + c + ":" + rest);
    CountConcat(':', a, ":");
    CountConcat(':', a + ":", b);
    CountConcat(':', a + ":" + b, ":");
    CountConcat(':', a + ":" + b + ":", c);
    CountConcat(':', a + ":" + b + ":" + c, ":");
    CountConcat(':', a + ":" + b + ":" + c + ":", rest);
  }
}
