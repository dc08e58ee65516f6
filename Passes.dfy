/** One entry of each relation list: the step the entry makes (the relation it draws,
    or the type error its shape raises before a builder can use it), and the call that
    hands the normalised entry to that list's relation builder. */
module Passes {
  import opened Wrappers
  import opened Strings
  import opened Graphs
  import opened Compose
  import opened Service
  import opened Port
  import opened Volume
  import opened Network
  import opened Config
  import opened Secret
  import opened Namespaces

  type Step = Result<Relation, Failure>

  /** The step names a relation both of whose endpoints are among `known`. */
  ghost predicate Resolves(step: Step, known: set<string>) {
    step.Ok? && step.value.src in known && step.value.dst in known
  }

  /** The step names a relation whose source is among `known` (for the entries whose
      builder creates the target). */
  ghost predicate SourceResolves(step: Step, known: set<string>) {
    step.Ok? && step.value.src in known
  }

  /** The step touches no id a builder may create. */
  predicate Settled(step: Step) {
    step.Ok? ==> !Creatable(step.value.src) && !Creatable(step.value.dst)
  }

  /** The step starts from no id a builder may create. */
  predicate SourceSettled(step: Step) {
    step.Ok? ==> !Creatable(step.value.src)
  }

  /** `after` keeps every vertex of `before` and adds only ids under `prefix`. */
  ghost predicate GrowsWithin(before: map<string, Attributes>, after: map<string, Attributes>, prefix: string) {
    Grows(before, after) && forall id :: id in after && id !in before ==> HasPrefix(id, prefix)
  }

  lemma GrowsWithinTrans(a: map<string, Attributes>, b: map<string, Attributes>, c: map<string, Attributes>, prefix: string)
    requires GrowsWithin(a, b, prefix) && GrowsWithin(b, c, prefix)
    ensures GrowsWithin(a, c, prefix)
  {
  }

  /** A builder call that drew `rel` under attributes that keep its type has drawn
      exactly `rel`. */
  lemma Drew(before: seq<Edge>, after: seq<Edge>, i: nat, rel: Relation, attrs: Attributes, keys: set<string>)
    requires RelatedAs(before, after, i, rel, attrs)
    requires KeepsOthers(ChosenAttributes(before, rel), attrs, keys) && TypeAttribute !in keys
    ensures DrawsExactly(before, after, [rel])
  {
    KeepsType(ChosenAttributes(before, rel), attrs, keys, rel.kind);
    RelatedDrawsExactly(before, rel, attrs);
  }

  /** An `extends` record draws an extends edge to the parent it names; without a
      `service` key it is a type error. */
  function ExtendsStep(service: string, extended: Extends): (step: Step)
    ensures Settled(step)
  {
    RegisteredKindsNotCreatable(service);
    match extended.service
    case None => Err(TypeError)
    case Some(parent) =>
      RegisteredKindsNotCreatable(parent);
      Ok(ExtendsRelation(service, parent))
  }

  method DrawExtends(g: Graph, service: string, extended: Extends) returns (res: Result<nat, Failure>)
    requires g.Valid()
    modifies g
    ensures g.Valid() && g.vertices == old(g.vertices) && g.attributes == old(g.attributes)
    ensures res.Ok? <==> Resolves(ExtendsStep(service, extended), g.vertices.Keys)
    ensures res.Err? ==> g.edges == old(g.edges)
    ensures res.Ok? ==> DrawsExactly(old(g.edges), g.edges, [ExtendsStep(service, extended).value])
  {
    if extended.service.None? {
      return Err(TypeError);
    }
    var rel := ExtendsRelation(service, extended.service.value);
    res := AddExtendsRelation(g, service, extended.service.value);
    if res.Ok? {
      Drew(old(g.edges), g.edges, res.value, rel, ExtendsAttributes(ChosenAttributes(old(g.edges), rel)),
           {DirAttribute, ArrowheadAttribute, ArrowtailAttribute});
    }
  }

  /** A links entry draws a link to the service named before its colon. */
  function LinkStep(service: string, link: string): (step: Step)
    ensures Settled(step)
  {
    RegisteredKindsNotCreatable(service);
    RegisteredKindsNotCreatable(NormalizeLinkMapping(link).0);
    Ok(LinkRelation(service, NormalizeLinkMapping(link).0))
  }

  method DrawLink(g: Graph, service: string, link: string) returns (res: Result<nat, Failure>)
    requires g.Valid()
    modifies g
    ensures g.Valid() && g.vertices == old(g.vertices) && g.attributes == old(g.attributes)
    ensures res.Ok? <==> Resolves(LinkStep(service, link), g.vertices.Keys)
    ensures res.Err? ==> g.edges == old(g.edges)
    ensures res.Ok? ==> DrawsExactly(old(g.edges), g.edges, [LinkStep(service, link).value])
  {
    var m := NormalizeLinkMapping(link);
    var rel := LinkRelation(service, m.0);
    res := AddLinkRelation(g, service, m.0, Some(m.1));
    if res.Ok? {
      Drew(old(g.edges), g.edges, res.value, rel, LinkAttributes(ChosenAttributes(old(g.edges), rel), Some(m.1)),
           {StyleAttribute, LabelAttribute});
    }
  }

  /** An external_links entry draws an external link to the (declared) service named
      before its colon. */
  function ExternalLinkStep(service: string, link: string): (step: Step)
    ensures Settled(step)
  {
    RegisteredKindsNotCreatable(service);
    RegisteredKindsNotCreatable(NormalizeLinkMapping(link).0);
    Ok(ExternalLinkRelation(service, NormalizeLinkMapping(link).0))
  }

  method DrawExternalLink(g: Graph, service: string, link: string) returns (res: Result<nat, Failure>)
    requires g.Valid()
    modifies g
    ensures g.Valid() && g.vertices == old(g.vertices) && g.attributes == old(g.attributes)
    ensures res.Ok? <==> Resolves(ExternalLinkStep(service, link), g.vertices.Keys)
    ensures res.Err? ==> g.edges == old(g.edges)
    ensures res.Ok? ==> DrawsExactly(old(g.edges), g.edges, [ExternalLinkStep(service, link).value])
  {
    var m := NormalizeLinkMapping(link);
    var rel := ExternalLinkRelation(service, m.0);
    res := AddExternalLinkRelation(g, service, m.0, Some(m.1));
    if res.Ok? {
      Drew(old(g.edges), g.edges, res.value, rel, ExternalLinkAttributes(ChosenAttributes(old(g.edges), rel), Some(m.1)),
           {StyleAttribute, ColorAttribute, LabelAttribute});
    }
  }

  /** The condition a depends_on entry passes: a record's `condition`; a bare name has
      none. */
  function Condition(entry: DependsEntry): Option<string> {
    match entry
    case DependsName(_) => None
    case DependsRecord(_, condition) => condition
  }

  /** A depends_on entry draws a depends edge to the service it names (the key of a
      record entry, or the bare name). */
  function DependsStep(service: string, entry: DependsEntry): (step: Step)
    ensures Settled(step)
  {
    RegisteredKindsNotCreatable(service);
    RegisteredKindsNotCreatable(entry.name);
    Ok(DependsRelation(service, entry.name))
  }

  method DrawDepends(g: Graph, service: string, entry: DependsEntry) returns (res: Result<nat, Failure>)
    requires g.Valid()
    modifies g
    ensures g.Valid() && g.vertices == old(g.vertices) && g.attributes == old(g.attributes)
    ensures res.Ok? <==> Resolves(DependsStep(service, entry), g.vertices.Keys)
    ensures res.Err? ==> g.edges == old(g.edges)
    ensures res.Ok? ==> DrawsExactly(old(g.edges), g.edges, [DependsStep(service, entry).value])
  {
    var condition := Condition(entry);
    var rel := DependsRelation(service, entry.name);
    res := AddDependsRelation(g, service, entry.name, condition);
    if res.Ok? {
      Drew(old(g.edges), g.edges, res.value, rel, DependsAttributes(ChosenAttributes(old(g.edges), rel), condition),
           if condition.Some? then {StyleAttribute, LabelAttribute} else {StyleAttribute});
    }
  }

  /** A volumes_from entry draws a volumes_from edge from the service it names to the
      service that lists it (the builder's arguments are in that order). */
  function VolumesFromStep(service: string, source: string): (step: Step)
    ensures Settled(step)
  {
    RegisteredKindsNotCreatable(service);
    RegisteredKindsNotCreatable(source);
    Ok(VolumesFromRelation(source, service))
  }

  method DrawVolumesFrom(g: Graph, service: string, source: string) returns (res: Result<nat, Failure>)
    requires g.Valid()
    modifies g
    ensures g.Valid() && g.vertices == old(g.vertices) && g.attributes == old(g.attributes)
    ensures res.Ok? <==> Resolves(VolumesFromStep(service, source), g.vertices.Keys)
    ensures res.Err? ==> g.edges == old(g.edges)
    ensures res.Ok? ==> DrawsExactly(old(g.edges), g.edges, [VolumesFromStep(service, source).value])
  {
    var rel := VolumesFromRelation(source, service);
    res := AddVolumesFromRelation(g, source, service);
    if res.Ok? {
      Drew(old(g.edges), g.edges, res.value, rel, VolumesFromAttributes(ChosenAttributes(old(g.edges), rel)),
           {StyleAttribute});
    }
  }

  /** A normalised volumes entry draws an edge to the volume its source names; a mount
      record without a source is a type error. */
  function MountStep(service: string, m: VolumeMapping): (step: Step)
    ensures SourceSettled(step)
  {
    RegisteredKindsNotCreatable(service);
    if m.source.None? then Err(TypeError) else Ok(VolumeRelation(service, m.source.value))
  }

  /** The mount's source is registered as a bind volume before its edge is drawn, so only
      the service can be missing. */
  method DrawMount(g: Graph, service: string, m: VolumeMapping) returns (res: Result<nat, Failure>)
    requires g.Valid()
    modifies g
    ensures g.Valid() && GrowsWithin(old(g.vertices), g.vertices, VolumePrefix) && g.attributes == old(g.attributes)
    ensures res.Ok? <==> SourceResolves(MountStep(service, m), old(g.vertices).Keys)
    ensures res.Err? ==> g.edges == old(g.edges)
    ensures res.Ok? ==> DrawsExactly(old(g.edges), g.edges, [MountStep(service, m).value])
  {
    if m.source.None? {
      return Err(TypeError);
    }
    AddVolume(g, m.source.value, Some(Bind));
    assert HasPrefix(VolumeId(m.source.value), VolumePrefix);
    assert GrowsWithin(old(g.vertices), g.vertices, VolumePrefix);
    ghost var before := g.edges;
    var rel := VolumeRelation(service, m.source.value);
    res := AddVolumeRelation(g, service, m);
    if res.Ok? {
      Drew(before, g.edges, res.value, rel, VolumeEdgeAttributes(ChosenAttributes(before, rel), m),
           {StyleAttribute, DirAttribute, LabelAttribute});
    }
  }

  /** A ports entry draws an edge to the port it publishes; a shorthand of more than
      three parts, or a record without `published`, is a type error. */
  function PortStep(service: string, entry: PortEntry): (step: Step)
    ensures SourceSettled(step)
  {
    RegisteredKindsNotCreatable(service);
    var m := NormalizePortMapping(entry);
    if m.Err? || m.value.published.None? then Err(TypeError) else Ok(PortRelation(service, m.value.published.value))
  }

  /** The port vertex is created by its builder when missing, so only the service can be
      missing. */
  method DrawPort(g: Graph, service: string, entry: PortEntry) returns (res: Result<nat, Failure>)
    requires g.Valid()
    modifies g
    ensures g.Valid() && GrowsWithin(old(g.vertices), g.vertices, PortPrefix) && g.attributes == old(g.attributes)
    ensures res.Ok? <==> SourceResolves(PortStep(service, entry), old(g.vertices).Keys)
    ensures res.Err? ==> g.edges == old(g.edges)
    ensures res.Ok? ==> DrawsExactly(old(g.edges), g.edges, [PortStep(service, entry).value])
  {
    var normalized := NormalizePortMapping(entry);
    if normalized.Err? {
      return Err(normalized.error);
    }
    var m := normalized.value;
    res := AddPortRelation(g, service, m);
    if res.Ok? {
      assert HasPrefix(PortId(m.published.value), PortPrefix);
      var rel := PortRelation(service, m.published.value);
      Drew(old(g.edges), g.edges, res.value, rel, PortEdgeAttributes(ChosenAttributes(old(g.edges), rel), m.target),
           if m.target.Some? then {StyleAttribute, LabelAttribute} else {StyleAttribute});
    }
  }

  /** The aliases a networks entry passes: a keyed entry's `aliases`; a listed name has
      none. */
  function Aliases(entry: NetworkEntry): seq<string> {
    match entry
    case NetworkListed(_) => []
    case NetworkKeyed(_, aliases) => aliases
  }

  /** A networks entry draws an edge to the network it names. */
  function NetworkStep(service: string, entry: NetworkEntry): (step: Step)
    ensures Settled(step)
  {
    RegisteredKindsNotCreatable(service);
    RegisteredKindsNotCreatable(entry.name);
    Ok(NetworkRelation(service, entry.name))
  }

  method DrawNetwork(g: Graph, service: string, entry: NetworkEntry) returns (res: Result<nat, Failure>)
    requires g.Valid()
    modifies g
    ensures g.Valid() && g.vertices == old(g.vertices) && g.attributes == old(g.attributes)
    ensures res.Ok? <==> Resolves(NetworkStep(service, entry), g.vertices.Keys)
    ensures res.Err? ==> g.edges == old(g.edges)
    ensures res.Ok? ==> DrawsExactly(old(g.edges), g.edges, [NetworkStep(service, entry).value])
  {
    var aliases := Aliases(entry);
    var rel := NetworkRelation(service, entry.name);
    res := AddNetworkRelation(g, service, entry.name, aliases);
    if res.Ok? {
      Drew(old(g.edges), g.edges, res.value, rel, NetworkEdgeAttributes(ChosenAttributes(old(g.edges), rel), aliases),
           if |aliases| > 0 then {LabelAttribute} else {});
    }
  }

  /** A configs entry draws an edge to the config it names (a record's `source`); a
      record without `source` is a type error. */
  function ConfigStep(service: string, entry: Grant): (step: Step)
    ensures Settled(step)
  {
    RegisteredKindsNotCreatable(service);
    match GrantSource(entry)
    case None => Err(TypeError)
    case Some(source) =>
      RegisteredKindsNotCreatable(source);
      Ok(ConfigRelation(service, source))
  }

  method DrawConfig(g: Graph, service: string, entry: Grant) returns (res: Result<nat, Failure>)
    requires g.Valid()
    modifies g
    ensures g.Valid() && g.vertices == old(g.vertices) && g.attributes == old(g.attributes)
    ensures res.Ok? <==> Resolves(ConfigStep(service, entry), g.vertices.Keys)
    ensures res.Err? ==> g.edges == old(g.edges)
    ensures res.Ok? ==> DrawsExactly(old(g.edges), g.edges, [ConfigStep(service, entry).value])
  {
    var source := GrantSource(entry);
    if source.None? {
      return Err(TypeError);
    }
    var target := GrantTarget(entry);
    var rel := ConfigRelation(service, source.value);
    res := AddConfigRelation(g, service, source.value, target);
    if res.Ok? {
      Drew(old(g.edges), g.edges, res.value, rel, ConfigEdgeAttributes(ChosenAttributes(old(g.edges), rel), target),
           if target.Some? then {LabelAttribute} else {});
    }
  }

  /** A secrets entry draws an edge to the secret it names (a record's `source`); a
      record without `source` is a type error. */
  function SecretStep(service: string, entry: Grant): (step: Step)
    ensures Settled(step)
  {
    RegisteredKindsNotCreatable(service);
    match GrantSource(entry)
    case None => Err(TypeError)
    case Some(source) =>
      RegisteredKindsNotCreatable(source);
      Ok(SecretRelation(service, source))
  }

  method DrawSecret(g: Graph, service: string, entry: Grant) returns (res: Result<nat, Failure>)
    requires g.Valid()
    modifies g
    ensures g.Valid() && g.vertices == old(g.vertices) && g.attributes == old(g.attributes)
    ensures res.Ok? <==> Resolves(SecretStep(service, entry), g.vertices.Keys)
    ensures res.Err? ==> g.edges == old(g.edges)
    ensures res.Ok? ==> DrawsExactly(old(g.edges), g.edges, [SecretStep(service, entry).value])
  {
    res := AddSecretRelation(g, service, entry);
    if res.Ok? {
      var rel := SecretRelation(service, GrantSource(entry).value);
      Drew(old(g.edges), g.edges, res.value, rel, SecretEdgeAttributes(ChosenAttributes(old(g.edges), rel), entry),
           if GrantTarget(entry).Some? then {LabelAttribute} else {});
    }
  }
}
