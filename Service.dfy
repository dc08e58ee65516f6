/** Services: the `service:` vertices and the five relations between services (extends,
    links, external links, depends_on and volumes_from). */
module Service {
  import opened Wrappers
  import opened Strings
  import opened Graphs
  import opened Compose

  const ServicePrefix := "service:"

  /** The services section, or none when the document has no `services` key. */
  function FetchServices(doc: Document): (s: Section<ServiceDef>)
    ensures doc.services.Some? ==> s == doc.services.value
    ensures doc.services.None? ==> s == []
  {
    doc.services.GetOr([])
  }

  /** The vertex id of a service: its name under the `service:` prefix. */
  function ServiceId(name: string): (id: string)
    ensures |id| == |ServicePrefix| + |name|
    ensures id[..|ServicePrefix|] == ServicePrefix && id[|ServicePrefix|..] == name
  {
    ServicePrefix + name
  }

  /** The attributes a new service vertex gets: typed `service`, drawn as a component,
      and gray only for the `external_service` kind. */
  function ServiceAttributes(kind: Option<string>): (a: Attributes)
    ensures TypeAttribute in a && a[TypeAttribute] == "service"
    ensures ShapeAttribute in a && a[ShapeAttribute] == "component"
    ensures ColorAttribute in a <==> kind == Some("external_service")
    ensures ColorAttribute in a ==> a[ColorAttribute] == "gray"
    ensures a.Keys <= {TypeAttribute, ShapeAttribute, ColorAttribute}
  {
    var a := map[][TypeAttribute := "service"][ShapeAttribute := "component"];
    if kind == Some("external_service") then a[ColorAttribute := "gray"] else a
  }

  /** Looks up a service vertex, or creates it with the service attributes; an existing
      vertex keeps its attributes whatever the kind. */
  method AddService(g: Graph, name: string, kind: Option<string>)
    requires g.Valid()
    modifies g
    ensures g.Valid() && g.edges == old(g.edges) && g.attributes == old(g.attributes)
    ensures g.vertices == Registered(old(g.vertices), ServiceId(name), ServiceAttributes(kind))
  {
    var id := ServiceId(name);
    if id in g.vertices {
      return;
    }
    g.CreateShapedVertex(id, "service", "component");
    if kind == Some("external_service") {
      g.SetVertexAttribute(id, ColorAttribute, "gray");
    }
  }

  /** The vertex of a declared service, or not-found. */
  function FindServiceVertex(g: Graph, name: string): (r: Result<string, Failure>)
    reads g
    ensures r.Ok? <==> ServiceId(name) in g.vertices
    ensures r.Ok? ==> r.value == ServiceId(name)
    ensures r.Err? ==> r.error == VertexNotFound(ServiceId(name))
  {
    g.GetVertex(ServiceId(name))
  }

  function ExtendsRelation(service: string, extended: string): Relation {
    Relation(ServiceId(service), ServiceId(extended), "extends")
  }

  function LinkRelation(service: string, linked: string): Relation {
    Relation(ServiceId(service), ServiceId(linked), "link")
  }

  function ExternalLinkRelation(service: string, linked: string): Relation {
    Relation(ServiceId(service), ServiceId(linked), "external_link")
  }

  function DependsRelation(service: string, dependency: string): Relation {
    Relation(ServiceId(service), ServiceId(dependency), "depends")
  }

  function VolumesFromRelation(service: string, dependency: string): Relation {
    Relation(ServiceId(service), ServiceId(dependency), "volumes_from")
  }

  /** An extends edge is drawn both ways, with an inverted head and a dot tail. */
  function ExtendsAttributes(prior: Attributes): (a: Attributes)
    ensures DirAttribute in a && a[DirAttribute] == "both"
    ensures ArrowheadAttribute in a && a[ArrowheadAttribute] == "inv"
    ensures ArrowtailAttribute in a && a[ArrowtailAttribute] == "dot"
    ensures KeepsOthers(prior, a, {DirAttribute, ArrowheadAttribute, ArrowtailAttribute})
  {
    prior[DirAttribute := "both"][ArrowheadAttribute := "inv"][ArrowtailAttribute := "dot"]
  }

  /** A link edge is solid and, when an alias is given, labelled with it. */
  function LinkAttributes(prior: Attributes, alias: Option<string>): (a: Attributes)
    ensures StyleAttribute in a && a[StyleAttribute] == "solid"
    ensures alias.Some? ==> LabelAttribute in a && a[LabelAttribute] == alias.value
    ensures KeepsOthers(prior, a, if alias.Some? then {StyleAttribute, LabelAttribute} else {StyleAttribute})
  {
    var a := prior[StyleAttribute := "solid"];
    if alias.Some? then a[LabelAttribute := alias.value] else a
  }

  /** An external link edge is solid and gray and, when an alias is given, labelled
      with it. */
  function ExternalLinkAttributes(prior: Attributes, alias: Option<string>): (a: Attributes)
    ensures StyleAttribute in a && a[StyleAttribute] == "solid"
    ensures ColorAttribute in a && a[ColorAttribute] == "gray"
    ensures alias.Some? ==> LabelAttribute in a && a[LabelAttribute] == alias.value
    ensures KeepsOthers(prior, a,
              if alias.Some? then {StyleAttribute, ColorAttribute, LabelAttribute} else {StyleAttribute, ColorAttribute})
  {
    var a := prior[StyleAttribute := "solid"][ColorAttribute := "gray"];
    if alias.Some? then a[LabelAttribute := alias.value] else a
  }

  /** A depends edge is dotted. A condition becomes the label, or is appended in
      parentheses to a label the edge already has. */
  function DependsAttributes(prior: Attributes, condition: Option<string>): (a: Attributes)
    ensures StyleAttribute in a && a[StyleAttribute] == "dotted"
    ensures condition.Some? && LabelAttribute !in prior ==>
              LabelAttribute in a && a[LabelAttribute] == condition.value
    ensures condition.Some? && LabelAttribute in prior ==>
              LabelAttribute in a && a[LabelAttribute] == prior[LabelAttribute] + " (" + condition.value + ")"
    ensures KeepsOthers(prior, a, if condition.Some? then {StyleAttribute, LabelAttribute} else {StyleAttribute})
  {
    var a := prior[StyleAttribute := "dotted"];
    match condition
    case None => a
    case Some(c) =>
      if LabelAttribute in a then a[LabelAttribute := a[LabelAttribute] + " (" + c + ")"]
      else a[LabelAttribute := c]
  }

  /** A volumes_from edge is dashed. */
  function VolumesFromAttributes(prior: Attributes): (a: Attributes)
    ensures StyleAttribute in a && a[StyleAttribute] == "dashed"
    ensures KeepsOthers(prior, a, {StyleAttribute})
  {
    prior[StyleAttribute := "dashed"]
  }

  /** Draws `service` extends `extended`. Fails, changing nothing, when either service
      vertex is missing; otherwise reuses the first extends edge between them or adds
      one, and styles it. */
  method AddExtendsRelation(g: Graph, service: string, extended: string) returns (r: Result<nat, Failure>)
    requires g.Valid()
    modifies g
    ensures g.Valid() && g.vertices == old(g.vertices) && g.attributes == old(g.attributes)
    ensures var rel := ExtendsRelation(service, extended);
            Missing(old(g.vertices), rel).Some? ==>
              r == Err(VertexNotFound(Missing(old(g.vertices), rel).value)) && g.edges == old(g.edges)
    ensures var rel := ExtendsRelation(service, extended);
            Missing(old(g.vertices), rel).None? ==>
              r.Ok? && RelatedAs(old(g.edges), g.edges, r.value, rel, ExtendsAttributes(ChosenAttributes(old(g.edges), rel)))
  {
    var rel := ExtendsRelation(service, extended);
    r := g.Relate(rel);
    if r.Ok? {
      var i := r.value;
      g.SetEdgeAttribute(i, DirAttribute, "both");
      g.SetEdgeAttribute(i, ArrowheadAttribute, "inv");
      g.SetEdgeAttribute(i, ArrowtailAttribute, "dot");
    }
  }

  /** Draws a link from `service` to `linked`, labelled with the alias when there is one. */
  method AddLinkRelation(g: Graph, service: string, linked: string, alias: Option<string>) returns (r: Result<nat, Failure>)
    requires g.Valid()
    modifies g
    ensures g.Valid() && g.vertices == old(g.vertices) && g.attributes == old(g.attributes)
    ensures var rel := LinkRelation(service, linked);
            Missing(old(g.vertices), rel).Some? ==>
              r == Err(VertexNotFound(Missing(old(g.vertices), rel).value)) && g.edges == old(g.edges)
    ensures var rel := LinkRelation(service, linked);
            Missing(old(g.vertices), rel).None? ==>
              r.Ok? && RelatedAs(old(g.edges), g.edges, r.value, rel, LinkAttributes(ChosenAttributes(old(g.edges), rel), alias))
  {
    var rel := LinkRelation(service, linked);
    r := g.Relate(rel);
    if r.Ok? {
      var i := r.value;
      g.SetEdgeAttribute(i, StyleAttribute, "solid");
      if alias.Some? {
        g.SetEdgeAttribute(i, LabelAttribute, alias.value);
      }
    }
  }

  /** Draws an external link from `service` to `linked`; the linked service must be a
      declared one like any other. */
  method AddExternalLinkRelation(g: Graph, service: string, linked: string, alias: Option<string>) returns (r: Result<nat, Failure>)
    requires g.Valid()
    modifies g
    ensures g.Valid() && g.vertices == old(g.vertices) && g.attributes == old(g.attributes)
    ensures var rel := ExternalLinkRelation(service, linked);
            Missing(old(g.vertices), rel).Some? ==>
              r == Err(VertexNotFound(Missing(old(g.vertices), rel).value)) && g.edges == old(g.edges)
    ensures var rel := ExternalLinkRelation(service, linked);
            Missing(old(g.vertices), rel).None? ==>
              r.Ok? && RelatedAs(old(g.edges), g.edges, r.value, rel, ExternalLinkAttributes(ChosenAttributes(old(g.edges), rel), alias))
  {
    var rel := ExternalLinkRelation(service, linked);
    r := g.Relate(rel);
    if r.Ok? {
      var i := r.value;
      g.SetEdgeAttribute(i, StyleAttribute, "solid");
      g.SetEdgeAttribute(i, ColorAttribute, "gray");
      if alias.Some? {
        g.SetEdgeAttribute(i, LabelAttribute, alias.value);
      }
    }
  }

  /** Draws `service` depends on `dependency`, with the condition as (part of) the label. */
  method AddDependsRelation(g: Graph, service: string, dependency: string, condition: Option<string>) returns (r: Result<nat, Failure>)
    requires g.Valid()
    modifies g
    ensures g.Valid() && g.vertices == old(g.vertices) && g.attributes == old(g.attributes)
    ensures var rel := DependsRelation(service, dependency);
            Missing(old(g.vertices), rel).Some? ==>
              r == Err(VertexNotFound(Missing(old(g.vertices), rel).value)) && g.edges == old(g.edges)
    ensures var rel := DependsRelation(service, dependency);
            Missing(old(g.vertices), rel).None? ==>
              r.Ok? && RelatedAs(old(g.edges), g.edges, r.value, rel, DependsAttributes(ChosenAttributes(old(g.edges), rel), condition))
  {
    var rel := DependsRelation(service, dependency);
    r := g.Relate(rel);
    if r.Ok? {
      var i := r.value;
      g.SetEdgeAttribute(i, StyleAttribute, "dotted");
      if condition.Some? {
        var attrs := g.edges[i].attrs;
        if LabelAttribute in attrs {
          g.SetEdgeAttribute(i, LabelAttribute, attrs[LabelAttribute] + " (" + condition.value + ")");
        } else {
          g.SetEdgeAttribute(i, LabelAttribute, condition.value);
        }
      }
    }
  }

  /** Draws a volumes_from edge from `service` to `dependency` (the construction pass
      passes the service that lends its volumes first). */
  method AddVolumesFromRelation(g: Graph, service: string, dependency: string) returns (r: Result<nat, Failure>)
    requires g.Valid()
    modifies g
    ensures g.Valid() && g.vertices == old(g.vertices) && g.attributes == old(g.attributes)
    ensures var rel := VolumesFromRelation(service, dependency);
            Missing(old(g.vertices), rel).Some? ==>
              r == Err(VertexNotFound(Missing(old(g.vertices), rel).value)) && g.edges == old(g.edges)
    ensures var rel := VolumesFromRelation(service, dependency);
            Missing(old(g.vertices), rel).None? ==>
              r.Ok? && RelatedAs(old(g.edges), g.edges, r.value, rel, VolumesFromAttributes(ChosenAttributes(old(g.edges), rel)))
  {
    var rel := VolumesFromRelation(service, dependency);
    r := g.Relate(rel);
    if r.Ok? {
      g.SetEdgeAttribute(r.value, StyleAttribute, "dashed");
    }
  }

  /** A link or external link shorthand: the service name before the first colon, and
      the alias after it, which defaults to the name. */
  function NormalizeLinkMapping(mapping: string): (r: (string, string))
    ensures ':' !in r.0 && ':' !in r.1
    ensures RunAt(mapping, ':', 0, r.0)
    ensures ':' in mapping ==> RunAt(mapping, ':', |r.0| + 1, r.1)
    ensures ':' !in mapping ==> r == (mapping, mapping)
  {
    var parts := Explode(":", mapping);
    ExplodeRuns(':', mapping);
    (parts[0], if |parts| > 1 then parts[1] else parts[0])
  }

  /** `name:alias`, alone or followed by further `:`-separated text, normalises to its
      first two halves. */
  lemma LinkMappingRoundTrip(name: string, alias: string, rest: string)
    requires ':' !in name && ':' !in alias
    requires rest == "" || rest[0] == ':'
    ensures NormalizeLinkMapping(name + ":" + alias + rest) == (name, alias)
  {
    var s := name + ":" + alias + rest;
    var r := NormalizeLinkMapping(s);
    assert s[|name|] == ':';
    assert RunAt(s, ':', 0, name) by {
      assert s[0..|name|] == name;
    }
    RunUnique(s, ':', 0, r.0, name);
    assert RunAt(s, ':', |name| + 1, alias) by {
      assert s[|name| + 1..|name| + 1 + |alias|] == alias;
      assert |name| + 1 + |alias| < |s| ==> s[|name| + 1 + |alias|] == rest[0];
    }
    RunUnique(s, ':', |name| + 1, r.1, alias);
  }
}
