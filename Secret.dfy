/** Secrets: the `secret:` vertices and the edge from a service to each secret it is
    granted. */
module Secret {
  import opened Wrappers
  import opened Graphs
  import opened Compose
  import opened Service

  const SecretPrefix := "secret:"

  /** The top-level secrets section, or none when the document has no `secrets` key. */
  function FetchSecrets(doc: Document): (s: Section<Unread>)
    ensures doc.secrets.Some? ==> s == doc.secrets.value
    ensures doc.secrets.None? ==> s == []
  {
    doc.secrets.GetOr([])
  }

  /** The vertex id of a secret: its name under the `secret:` prefix. */
  function SecretId(name: string): (id: string)
    ensures |id| == |SecretPrefix| + |name|
    ensures id[..|SecretPrefix|] == SecretPrefix && id[|SecretPrefix|..] == name
  {
    SecretPrefix + name
  }

  /** The attributes a new secret vertex gets: typed `secret` and drawn as a hexagon,
      with no label. */
  function SecretAttributes(): (a: Attributes)
    ensures TypeAttribute in a && a[TypeAttribute] == "secret"
    ensures ShapeAttribute in a && a[ShapeAttribute] == "hexagon"
    ensures LabelAttribute !in a
  {
    map[][TypeAttribute := "secret"][ShapeAttribute := "hexagon"]
  }

  /** Looks up a secret vertex, or creates it; an existing vertex keeps its attributes. */
  method AddSecret(g: Graph, name: string)
    requires g.Valid()
    modifies g
    ensures g.Valid() && g.edges == old(g.edges) && g.attributes == old(g.attributes)
    ensures g.vertices == Registered(old(g.vertices), SecretId(name), SecretAttributes())
  {
    var id := SecretId(name);
    if id in g.vertices {
      return;
    }
    g.CreateShapedVertex(id, "secret", "hexagon");
  }

  /** The secret a grant names: the grant itself when it is a bare name, its `source`
      when it is a record. */
  function GrantSource(grant: Grant): (source: Option<string>)
    ensures grant.GrantName? ==> source == Some(grant.name)
    ensures grant.GrantRecord? ==> source == grant.source
  {
    match grant
    case GrantName(name) => Some(name)
    case GrantRecord(source, _) => source
  }

  /** The label a grant gives its edge: the record's target; a bare name gives none. */
  function GrantTarget(grant: Grant): (target: Option<string>)
    ensures grant.GrantName? ==> target.None?
    ensures grant.GrantRecord? ==> target == grant.target
  {
    match grant
    case GrantName(_) => None
    case GrantRecord(_, target) => target
  }

  function SecretRelation(service: string, secret: string): Relation {
    Relation(ServiceId(service), SecretId(secret), "secret")
  }

  /** A secret edge is labelled with the record's target when it has one. */
  function SecretEdgeAttributes(prior: Attributes, grant: Grant): (a: Attributes)
    ensures GrantTarget(grant).Some? ==> LabelAttribute in a && a[LabelAttribute] == GrantTarget(grant).value
    ensures KeepsOthers(prior, a, if GrantTarget(grant).Some? then {LabelAttribute} else {})
  {
    match GrantTarget(grant)
    case Some(target) => prior[LabelAttribute := target]
    case None => prior
  }

  /** Draws the edge from a service to a secret it is granted. The service is looked up
      first; a record without `source` names no secret (a type error); then the secret
      must exist (it is never created here). A failure changes nothing. */
  method AddSecretRelation(g: Graph, service: string, grant: Grant) returns (r: Result<nat, Failure>)
    requires g.Valid()
    modifies g
    ensures g.Valid() && g.vertices == old(g.vertices) && g.attributes == old(g.attributes)
    ensures ServiceId(service) !in old(g.vertices) ==>
              r == Err(VertexNotFound(ServiceId(service))) && g.edges == old(g.edges)
    ensures ServiceId(service) in old(g.vertices) && GrantSource(grant).None? ==>
              r == Err(TypeError) && g.edges == old(g.edges)
    ensures ServiceId(service) in old(g.vertices) && GrantSource(grant).Some? && SecretId(GrantSource(grant).value) !in old(g.vertices) ==>
              r == Err(VertexNotFound(SecretId(GrantSource(grant).value))) && g.edges == old(g.edges)
    ensures ServiceId(service) in old(g.vertices) && GrantSource(grant).Some? && SecretId(GrantSource(grant).value) in old(g.vertices) ==>
              var rel := SecretRelation(service, GrantSource(grant).value);
              r.Ok? && RelatedAs(old(g.edges), g.edges, r.value, rel, SecretEdgeAttributes(ChosenAttributes(old(g.edges), rel), grant))
  {
    var serviceVertex := g.GetVertex(ServiceId(service));
    if serviceVertex.Err? {
      return Err(serviceVertex.error);
    }
    var source := GrantSource(grant);
    if source.None? {
      return Err(TypeError);
    }
    r := g.Relate(SecretRelation(service, source.value));
    if r.Ok? {
      var target := GrantTarget(grant);
      if target.Some? {
        g.SetEdgeAttribute(r.value, LabelAttribute, target.value);
      }
    }
  }
}
