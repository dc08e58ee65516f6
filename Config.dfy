/** Configs: the `config:` vertices and the edge from a service to each config it is
    granted. */
module Config {
  import opened Wrappers
  import opened Graphs
  import opened Compose
  import opened Service

  const ConfigPrefix := "config:"

  /** The top-level configs section, or none when the document has no `configs` key. */
  function FetchConfigs(doc: Document): (s: Section<Unread>)
    ensures doc.configs.Some? ==> s == doc.configs.value
    ensures doc.configs.None? ==> s == []
  {
    doc.configs.GetOr([])
  }

  /** The vertex id of a config: its name under the `config:` prefix. */
  function ConfigId(name: string): (id: string)
    ensures |id| == |ConfigPrefix| + |name|
    ensures id[..|ConfigPrefix|] == ConfigPrefix && id[|ConfigPrefix|..] == name
  {
    ConfigPrefix + name
  }

  /** The attributes a new config vertex gets: typed `config`, labelled with its name,
      drawn as a note. */
  function ConfigAttributes(name: string): (a: Attributes)
    ensures TypeAttribute in a && a[TypeAttribute] == "config"
    ensures LabelAttribute in a && a[LabelAttribute] == name
    ensures ShapeAttribute in a && a[ShapeAttribute] == "note"
    ensures a.Keys == {TypeAttribute, LabelAttribute, ShapeAttribute}
  {
    map[][TypeAttribute := "config"][LabelAttribute := name][ShapeAttribute := "note"]
  }

  /** Looks up a config vertex, or creates it; an existing vertex keeps its attributes. */
  method AddConfig(g: Graph, name: string)
    requires g.Valid()
    modifies g
    ensures g.Valid() && g.edges == old(g.edges) && g.attributes == old(g.attributes)
    ensures g.vertices == Registered(old(g.vertices), ConfigId(name), ConfigAttributes(name))
  {
    var id := ConfigId(name);
    if id in g.vertices {
      return;
    }
    g.CreateLabelledVertex(id, "config", name, "note");
  }

  /** The vertex of a declared config, or not-found. */
  function FindConfigVertex(g: Graph, name: string): (r: Result<string, Failure>)
    reads g
    ensures r.Ok? <==> ConfigId(name) in g.vertices
    ensures r.Ok? ==> r.value == ConfigId(name)
    ensures r.Err? ==> r.error == VertexNotFound(ConfigId(name))
  {
    g.GetVertex(ConfigId(name))
  }

  function ConfigRelation(service: string, config: string): Relation {
    Relation(ServiceId(service), ConfigId(config), "config")
  }

  /** A config edge is labelled with the mount target when the grant has one. */
  function ConfigEdgeAttributes(prior: Attributes, target: Option<string>): (a: Attributes)
    ensures target.Some? ==> LabelAttribute in a && a[LabelAttribute] == target.value
    ensures KeepsOthers(prior, a, if target.Some? then {LabelAttribute} else {})
  {
    if target.Some? then prior[LabelAttribute := target.value] else prior
  }

  /** Draws the edge from a service to a config it is granted. Both vertices must exist
      (a config is never created here); a failure changes nothing. */
  method AddConfigRelation(g: Graph, service: string, config: string, target: Option<string>) returns (r: Result<nat, Failure>)
    requires g.Valid()
    modifies g
    ensures g.Valid() && g.vertices == old(g.vertices) && g.attributes == old(g.attributes)
    ensures var rel := ConfigRelation(service, config);
            Missing(old(g.vertices), rel).Some? ==>
              r == Err(VertexNotFound(Missing(old(g.vertices), rel).value)) && g.edges == old(g.edges)
    ensures var rel := ConfigRelation(service, config);
            Missing(old(g.vertices), rel).None? ==>
              r.Ok? && RelatedAs(old(g.edges), g.edges, r.value, rel, ConfigEdgeAttributes(ChosenAttributes(old(g.edges), rel), target))
  {
    r := g.Relate(ConfigRelation(service, config));
    if r.Ok? && target.Some? {
      g.SetEdgeAttribute(r.value, LabelAttribute, target.value);
    }
  }
}
