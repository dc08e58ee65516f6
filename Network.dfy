/** Networks: the `net:` vertices and the edge from a service to each network it joins. */
module Network {
  import opened Wrappers
  import opened Strings
  import opened Graphs
  import opened Compose
  import opened Service

  const NetworkPrefix := "net:"

  /** The top-level networks section, or none when the document has no `networks` key. */
  function FetchNetworks(doc: Document): (s: Section<NetworkDecl>)
    ensures doc.networks.Some? ==> s == doc.networks.value
    ensures doc.networks.None? ==> s == []
  {
    doc.networks.GetOr([])
  }

  /** The vertex id of a network: its name under the `net:` prefix. */
  function NetworkId(name: string): (id: string)
    ensures |id| == |NetworkPrefix| + |name|
    ensures id[..|NetworkPrefix|] == NetworkPrefix && id[|NetworkPrefix|..] == name
  {
    NetworkPrefix + name
  }

  /** The attributes a new network vertex gets: typed `network`, labelled with the
      declared `name` or else the key, drawn as a pentagon, and gray whenever `external`
      is present, even when it is false. */
  function NetworkAttributes(name: string, decl: NetworkDecl): (a: Attributes)
    ensures TypeAttribute in a && a[TypeAttribute] == "network"
    ensures LabelAttribute in a && a[LabelAttribute] == decl.name.GetOr(name)
    ensures ShapeAttribute in a && a[ShapeAttribute] == "pentagon"
    ensures ColorAttribute in a <==> decl.external.Some?
    ensures ColorAttribute in a ==> a[ColorAttribute] == "gray"
    ensures a.Keys <= {TypeAttribute, LabelAttribute, ShapeAttribute, ColorAttribute}
  {
    var a := map[TypeAttribute := "network", LabelAttribute := decl.name.GetOr(name), ShapeAttribute := "pentagon"];
    if decl.external.Some? then a[ColorAttribute := "gray"] else a
  }

  /** Looks up a network vertex, or creates it from its declaration; an existing vertex
      keeps its attributes. */
  method AddNetwork(g: Graph, name: string, decl: NetworkDecl)
    requires g.Valid()
    modifies g
    ensures g.Valid() && g.edges == old(g.edges) && g.attributes == old(g.attributes)
    ensures g.vertices == Registered(old(g.vertices), NetworkId(name), NetworkAttributes(name, decl))
  {
    var id := NetworkId(name);
    var caption := decl.name.GetOr(name);
    if id in g.vertices {
      return;
    }
    g.CreateLabelledVertex(id, "network", caption, "pentagon");
    if decl.external.Some? {
      g.SetVertexAttribute(id, ColorAttribute, "gray");
    }
  }

  function NetworkRelation(service: string, network: string): Relation {
    Relation(ServiceId(service), NetworkId(network), "network")
  }

  /** A network edge is labelled with the service's aliases on that network, joined by
      ", ", when it has any; with none, the edge keeps its label. */
  function NetworkEdgeAttributes(prior: Attributes, aliases: seq<string>): (a: Attributes)
    ensures |aliases| > 0 ==> LabelAttribute in a && a[LabelAttribute] == Implode(", ", aliases)
    ensures KeepsOthers(prior, a, if |aliases| > 0 then {LabelAttribute} else {})
  {
    if |aliases| > 0 then prior[LabelAttribute := Implode(", ", aliases)] else prior
  }

  /** Draws the edge from a service to a network it joins. Both vertices must exist (a
      network is never created here); a failure changes nothing. */
  method AddNetworkRelation(g: Graph, service: string, network: string, aliases: seq<string>) returns (r: Result<nat, Failure>)
    requires g.Valid()
    modifies g
    ensures g.Valid() && g.vertices == old(g.vertices) && g.attributes == old(g.attributes)
    ensures var rel := NetworkRelation(service, network);
            Missing(old(g.vertices), rel).Some? ==>
              r == Err(VertexNotFound(Missing(old(g.vertices), rel).value)) && g.edges == old(g.edges)
    ensures var rel := NetworkRelation(service, network);
            Missing(old(g.vertices), rel).None? ==>
              r.Ok? && RelatedAs(old(g.edges), g.edges, r.value, rel, NetworkEdgeAttributes(ChosenAttributes(old(g.edges), rel), aliases))
  {
    r := g.Relate(NetworkRelation(service, network));
    if r.Ok? && |aliases| > 0 {
      g.SetEdgeAttribute(r.value, LabelAttribute, Implode(", ", aliases));
    }
  }
}
