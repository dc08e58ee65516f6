/** The construction of the whole graph from a document's sections: registration, then,
    service by service, the relation passes in the engine's order (extends, links,
    external links, dependencies; volumes_from and mounts; ports; networks, configs,
    secrets), each kind's passes only when its flag is clear. Every pass visits every
    entry of its list (the engine as written stops after the first; see AsWritten). */
module Construction {
  import opened Wrappers
  import opened Graphs
  import opened Compose
  import opened Service
  import opened Flags
  import opened Port
  import opened Volume
  import opened Namespaces
  import opened Passes
  import opened Walks
  import opened Registration

  // ---- vertex growth during the relation passes ----

  /** The ids the relation passes may create under `flags`: mounted volumes when
      volumes are on, ports when ports are on. */
  predicate Creates(flags: bv64, id: string) {
    || (HasPrefix(id, VolumePrefix) && Processes(flags, WithoutVolumes))
    || (HasPrefix(id, PortPrefix) && Processes(flags, WithoutPorts))
  }

  /** The vertices only grew, and only by ids the passes may create. */
  ghost predicate GrowsBy(before: map<string, Attributes>, after: map<string, Attributes>, flags: bv64) {
    Grows(before, after) && forall id :: id in after && id !in before ==> Creates(flags, id)
  }

  lemma GrowsByTrans(a: map<string, Attributes>, b: map<string, Attributes>, c: map<string, Attributes>, flags: bv64)
    requires GrowsBy(a, b, flags) && GrowsBy(b, c, flags)
    ensures GrowsBy(a, c, flags)
  {
  }

  /** Growth by creatable ids leaves every id a lookup can need where it was. */
  lemma GrowsByKeepsSettled(a: map<string, Attributes>, b: map<string, Attributes>, flags: bv64)
    requires GrowsBy(a, b, flags)
    ensures a.Keys <= b.Keys && forall id :: id in b.Keys && !Creatable(id) ==> id in a.Keys
  {
  }

  // ---- the passes of one service ----

  /** The lookups of the extends, links, external links and dependency passes succeed. */
  ghost predicate LinkingResolves(name: string, def: ServiceDef, known: set<string>) {
    && AllResolve(ExtendsSteps(name, def.extended), known)
    && AllResolve(LinkSteps(name, def.links), known)
    && AllResolve(ExternalLinkSteps(name, def.externalLinks), known)
    && AllResolve(DependsSteps(name, def.dependsOn), known)
  }

  function LinkingRelations(name: string, def: ServiceDef): seq<Relation> {
    Drawing(ExtendsSteps(name, def.extended)) + Drawing(LinkSteps(name, def.links))
    + Drawing(ExternalLinkSteps(name, def.externalLinks)) + Drawing(DependsSteps(name, def.dependsOn))
  }

  /** The extends, links, external links and dependency passes of one service. */
  method LinkingPasses(g: Graph, name: string, def: ServiceDef) returns (r: Outcome<Failure>)
    requires g.Valid()
    modifies g
    ensures g.Valid() && g.vertices == old(g.vertices) && g.attributes == old(g.attributes)
    ensures EdgesGrow(old(g.edges), g.edges)
    ensures r.Pass? <==> LinkingResolves(name, def, old(g.vertices).Keys)
    ensures r.Pass? ==> DrawsExactly(old(g.edges), g.edges, LinkingRelations(name, def))
  {
    ghost var e0 := g.edges;
    r := WalkExtends(g, name, def.extended);
    if r.Fail? { return; }
    ghost var e1 := g.edges;
    r := WalkLinks(g, name, def.links);
    if r.Fail? { return; }
    DrawsExactlyChain(e0, e1, g.edges, Drawing(ExtendsSteps(name, def.extended)), Drawing(LinkSteps(name, def.links)));
    ghost var e2 := g.edges;
    r := WalkExternalLinks(g, name, def.externalLinks);
    if r.Fail? { return; }
    DrawsExactlyChain(e0, e2, g.edges, Drawing(ExtendsSteps(name, def.extended)) + Drawing(LinkSteps(name, def.links)),
      Drawing(ExternalLinkSteps(name, def.externalLinks)));
    ghost var e3 := g.edges;
    r := WalkDepends(g, name, def.dependsOn);
    if r.Fail? { return; }
    DrawsExactlyChain(e0, e3, g.edges, Drawing(ExtendsSteps(name, def.extended)) + Drawing(LinkSteps(name, def.links))
      + Drawing(ExternalLinkSteps(name, def.externalLinks)), Drawing(DependsSteps(name, def.dependsOn)));
  }

  /** The lookups of the volume passes (volumes_from and mounts) succeed. */
  ghost predicate VolumesResolve(name: string, def: ServiceDef, volumes: Section<VolumeDecl>, known: set<string>) {
    AllResolve(VolumesFromSteps(name, def.volumesFrom), known) && SourcesResolve(MountSteps(name, def.volumes, volumes), known)
  }

  function VolumeRelations(name: string, def: ServiceDef, volumes: Section<VolumeDecl>): seq<Relation> {
    Drawing(VolumesFromSteps(name, def.volumesFrom)) + Drawing(MountSteps(name, def.volumes, volumes))
  }

  /** The volumes_from and mount passes of one service; mounting creates the volumes it
      does not find. */
  method VolumePasses(g: Graph, name: string, def: ServiceDef, volumes: Section<VolumeDecl>) returns (r: Outcome<Failure>)
    requires g.Valid()
    modifies g
    ensures g.Valid() && GrowsWithin(old(g.vertices), g.vertices, VolumePrefix) && g.attributes == old(g.attributes)
    ensures EdgesGrow(old(g.edges), g.edges)
    ensures r.Pass? <==> VolumesResolve(name, def, volumes, old(g.vertices).Keys)
    ensures r.Pass? ==> DrawsExactly(old(g.edges), g.edges, VolumeRelations(name, def, volumes))
  {
    ghost var e0 := g.edges;
    r := WalkVolumesFrom(g, name, def.volumesFrom);
    if r.Fail? { return; }
    ghost var e1 := g.edges;
    r := WalkMounts(g, name, def.volumes, volumes);
    if r.Fail? { return; }
    DrawsExactlyChain(e0, e1, g.edges, Drawing(VolumesFromSteps(name, def.volumesFrom)), Drawing(MountSteps(name, def.volumes, volumes)));
  }

  /** The lookups of the volume and port passes succeed, for the kinds switched on. */
  ghost predicate MountingResolves(name: string, def: ServiceDef, volumes: Section<VolumeDecl>, flags: bv64, known: set<string>) {
    && (Processes(flags, WithoutVolumes) ==> VolumesResolve(name, def, volumes, known))
    && (Processes(flags, WithoutPorts) ==> SourcesResolve(PortSteps(name, def.ports), known))
  }

  function MountingRelations(name: string, def: ServiceDef, volumes: Section<VolumeDecl>, flags: bv64): seq<Relation> {
    (if Processes(flags, WithoutVolumes) then VolumeRelations(name, def, volumes) else [])
    + (if Processes(flags, WithoutPorts) then Drawing(PortSteps(name, def.ports)) else [])
  }

  /** The volume passes (when volumes are on) and the port pass (when ports are on). */
  method MountingPasses(g: Graph, name: string, def: ServiceDef, volumes: Section<VolumeDecl>, flags: bv64) returns (r: Outcome<Failure>)
    requires g.Valid()
    modifies g
    ensures g.Valid() && GrowsBy(old(g.vertices), g.vertices, flags) && g.attributes == old(g.attributes)
    ensures EdgesGrow(old(g.edges), g.edges)
    ensures r.Pass? <==> MountingResolves(name, def, volumes, flags, old(g.vertices).Keys)
    ensures r.Pass? ==> DrawsExactly(old(g.edges), g.edges, MountingRelations(name, def, volumes, flags))
  {
    ghost var e0 := g.edges;
    ghost var v0 := g.vertices;
    ghost var vr: seq<Relation> := [];
    DrawsNothing(g.edges);
    if Processes(flags, WithoutVolumes) {
      r := VolumePasses(g, name, def, volumes);
      if r.Fail? { return; }
      vr := VolumeRelations(name, def, volumes);
    }
    assert GrowsBy(v0, g.vertices, flags);
    ghost var e1 := g.edges;
    ghost var v1 := g.vertices;
    if Processes(flags, WithoutPorts) {
      r := WalkPorts(g, name, def.ports);
      GrowsByKeepsSettled(v0, v1, flags);
      SourcesStable(PortSteps(name, def.ports), v0.Keys, v1.Keys);
      if r.Fail? { return; }
      DrawsExactlyChain(e0, e1, g.edges, vr, Drawing(PortSteps(name, def.ports)));
      assert GrowsBy(v1, g.vertices, flags);
      GrowsByTrans(v0, v1, g.vertices, flags);
    } else {
      assert vr + [] == vr;
    }
    r := Pass;
  }

  /** The lookups of the network, config and secret passes succeed, for the kinds
      switched on. */
  ghost predicate JoiningResolves(name: string, def: ServiceDef, flags: bv64, known: set<string>) {
    && (Processes(flags, WithoutNetworks) ==> AllResolve(NetworkSteps(name, def.networks), known))
    && (Processes(flags, WithoutConfigs) ==> AllResolve(ConfigSteps(name, def.configs), known))
    && (Processes(flags, WithoutSecrets) ==> AllResolve(SecretSteps(name, def.secrets), known))
  }

  function JoiningRelations(name: string, def: ServiceDef, flags: bv64): seq<Relation> {
    (if Processes(flags, WithoutNetworks) then Drawing(NetworkSteps(name, def.networks)) else [])
    + (if Processes(flags, WithoutConfigs) then Drawing(ConfigSteps(name, def.configs)) else [])
    + (if Processes(flags, WithoutSecrets) then Drawing(SecretSteps(name, def.secrets)) else [])
  }

  /** The network, config and secret passes, each when its kind is on. */
  method JoiningPasses(g: Graph, name: string, def: ServiceDef, flags: bv64) returns (r: Outcome<Failure>)
    requires g.Valid()
    modifies g
    ensures g.Valid() && g.vertices == old(g.vertices) && g.attributes == old(g.attributes)
    ensures EdgesGrow(old(g.edges), g.edges)
    ensures r.Pass? <==> JoiningResolves(name, def, flags, old(g.vertices).Keys)
    ensures r.Pass? ==> DrawsExactly(old(g.edges), g.edges, JoiningRelations(name, def, flags))
  {
    ghost var e0 := g.edges;
    ghost var nr: seq<Relation> := [];
    ghost var cr: seq<Relation> := [];
    ghost var sr: seq<Relation> := [];
    DrawsNothing(g.edges);
    if Processes(flags, WithoutNetworks) {
      r := WalkNetworks(g, name, def.networks);
      if r.Fail? { return; }
      nr := Drawing(NetworkSteps(name, def.networks));
    }
    ghost var e1 := g.edges;
    DrawsNothing(g.edges);
    if Processes(flags, WithoutConfigs) {
      r := WalkConfigs(g, name, def.configs);
      if r.Fail? { return; }
      cr := Drawing(ConfigSteps(name, def.configs));
    }
    DrawsExactlyChain(e0, e1, g.edges, nr, cr);
    ghost var e2 := g.edges;
    DrawsNothing(g.edges);
    if Processes(flags, WithoutSecrets) {
      r := WalkSecrets(g, name, def.secrets);
      if r.Fail? { return; }
      sr := Drawing(SecretSteps(name, def.secrets));
    }
    DrawsExactlyChain(e0, e2, g.edges, nr + cr, sr);
    r := Pass;
  }

  /** The lookups of the passes after the linking ones succeed: volumes, ports,
      networks, configs and secrets. */
  ghost predicate AttachingResolves(name: string, def: ServiceDef, volumes: Section<VolumeDecl>, flags: bv64, known: set<string>) {
    MountingResolves(name, def, volumes, flags, known) && JoiningResolves(name, def, flags, known)
  }

  function AttachingRelations(name: string, def: ServiceDef, volumes: Section<VolumeDecl>, flags: bv64): seq<Relation> {
    MountingRelations(name, def, volumes, flags) + JoiningRelations(name, def, flags)
  }

  /** Every lookup one service's passes make succeeds. */
  ghost predicate ServiceResolves(name: string, def: ServiceDef, volumes: Section<VolumeDecl>, flags: bv64, known: set<string>) {
    LinkingResolves(name, def, known) && AttachingResolves(name, def, volumes, flags, known)
  }

  /** The relations one service draws, in drawing order. */
  function ServiceRelations(name: string, def: ServiceDef, volumes: Section<VolumeDecl>, flags: bv64): seq<Relation> {
    LinkingRelations(name, def) + AttachingRelations(name, def, volumes, flags)
  }

  /** Whether a service's lookups succeed depends only on the ids no pass creates. */
  lemma ServiceResolvesStable(name: string, def: ServiceDef, volumes: Section<VolumeDecl>, flags: bv64, k0: set<string>, k1: set<string>)
    requires k0 <= k1 && forall id :: id in k1 && !Creatable(id) ==> id in k0
    ensures ServiceResolves(name, def, volumes, flags, k0) <==> ServiceResolves(name, def, volumes, flags, k1)
  {
    LinkingStable(name, def, k0, k1);
    MountingStable(name, def, volumes, flags, k0, k1);
    JoiningStable(name, def, flags, k0, k1);
    assert AttachingResolves(name, def, volumes, flags, k0) <==> AttachingResolves(name, def, volumes, flags, k1);
  }

  lemma LinkingStable(name: string, def: ServiceDef, k0: set<string>, k1: set<string>)
    requires k0 <= k1 && forall id :: id in k1 && !Creatable(id) ==> id in k0
    ensures LinkingResolves(name, def, k0) <==> LinkingResolves(name, def, k1)
  {
    ResolveStable(ExtendsSteps(name, def.extended), k0, k1);
    ResolveStable(LinkSteps(name, def.links), k0, k1);
    ResolveStable(ExternalLinkSteps(name, def.externalLinks), k0, k1);
    ResolveStable(DependsSteps(name, def.dependsOn), k0, k1);
  }

  lemma MountingStable(name: string, def: ServiceDef, volumes: Section<VolumeDecl>, flags: bv64, k0: set<string>, k1: set<string>)
    requires k0 <= k1 && forall id :: id in k1 && !Creatable(id) ==> id in k0
    ensures MountingResolves(name, def, volumes, flags, k0) <==> MountingResolves(name, def, volumes, flags, k1)
  {
    ResolveStable(VolumesFromSteps(name, def.volumesFrom), k0, k1);
    SourcesStable(MountSteps(name, def.volumes, volumes), k0, k1);
    SourcesStable(PortSteps(name, def.ports), k0, k1);
  }

  lemma JoiningStable(name: string, def: ServiceDef, flags: bv64, k0: set<string>, k1: set<string>)
    requires k0 <= k1 && forall id :: id in k1 && !Creatable(id) ==> id in k0
    ensures JoiningResolves(name, def, flags, k0) <==> JoiningResolves(name, def, flags, k1)
  {
    ResolveStable(NetworkSteps(name, def.networks), k0, k1);
    ResolveStable(ConfigSteps(name, def.configs), k0, k1);
    ResolveStable(SecretSteps(name, def.secrets), k0, k1);
  }

  /** The volume, port, network, config and secret passes of one service. The later
      passes look up only ids the volume and port passes never create. */
  method AttachingPasses(g: Graph, name: string, def: ServiceDef, volumes: Section<VolumeDecl>, flags: bv64) returns (r: Outcome<Failure>)
    requires g.Valid()
    modifies g
    ensures g.Valid() && GrowsBy(old(g.vertices), g.vertices, flags) && g.attributes == old(g.attributes)
    ensures EdgesGrow(old(g.edges), g.edges)
    ensures r.Pass? <==> AttachingResolves(name, def, volumes, flags, old(g.vertices).Keys)
    ensures r.Pass? ==> DrawsExactly(old(g.edges), g.edges, AttachingRelations(name, def, volumes, flags))
  {
    ghost var e0 := g.edges;
    ghost var v0 := g.vertices;
    r := MountingPasses(g, name, def, volumes, flags);
    if r.Fail? { return; }
    ghost var e1 := g.edges;
    ghost var v1 := g.vertices;
    r := JoiningPasses(g, name, def, flags);
    GrowsByKeepsSettled(v0, v1, flags);
    JoiningStable(name, def, flags, v0.Keys, v1.Keys);
    EdgesGrowTrans(e0, e1, g.edges);
    if r.Fail? { return; }
    DrawsExactlyChain(e0, e1, g.edges, MountingRelations(name, def, volumes, flags), JoiningRelations(name, def, flags));
  }

  /** All relation passes of one service, in the engine's order. */
  method AddServiceRelations(g: Graph, name: string, def: ServiceDef, volumes: Section<VolumeDecl>, flags: bv64) returns (r: Outcome<Failure>)
    requires g.Valid()
    modifies g
    ensures g.Valid() && GrowsBy(old(g.vertices), g.vertices, flags) && g.attributes == old(g.attributes)
    ensures EdgesGrow(old(g.edges), g.edges)
    ensures r.Pass? <==> ServiceResolves(name, def, volumes, flags, old(g.vertices).Keys)
    ensures r.Pass? ==> DrawsExactly(old(g.edges), g.edges, ServiceRelations(name, def, volumes, flags))
  {
    ghost var e0 := g.edges;
    r := LinkingPasses(g, name, def);
    if r.Fail? { return; }
    ghost var e1 := g.edges;
    r := AttachingPasses(g, name, def, volumes, flags);
    EdgesGrowTrans(e0, e1, g.edges);
    if r.Fail? { return; }
    DrawsExactlyChain(e0, e1, g.edges, LinkingRelations(name, def), AttachingRelations(name, def, volumes, flags));
  }

  // ---- the whole document ----

  /** The first `n` services' lookups succeed. */
  ghost predicate ServicesResolveUpTo(services: Section<ServiceDef>, n: nat, volumes: Section<VolumeDecl>, flags: bv64, known: set<string>)
    requires n <= |services|
  {
    forall k :: 0 <= k < n ==> ServiceResolves(services[k].0, services[k].1, volumes, flags, known)
  }

  /** The first `n` parts, one after the other. */
  function Concat(parts: seq<seq<Relation>>, n: nat): seq<Relation>
    requires n <= |parts|
  {
    if n == 0 then [] else Concat(parts, n - 1) + parts[n - 1]
  }

  /** Each service's relations, in document order. */
  function ServiceParts(services: Section<ServiceDef>, volumes: Section<VolumeDecl>, flags: bv64): (parts: seq<seq<Relation>>)
    ensures |parts| == |services|
    ensures forall k :: 0 <= k < |services| ==> parts[k] == ServiceRelations(services[k].0, services[k].1, volumes, flags)
  {
    seq(|services|, k requires 0 <= k < |services| => ServiceRelations(services[k].0, services[k].1, volumes, flags))
  }

  /** The relations the first `n` services draw, in drawing order. */
  function RelationsUpTo(services: Section<ServiceDef>, n: nat, volumes: Section<VolumeDecl>, flags: bv64): seq<Relation>
    requires n <= |services|
  {
    Concat(ServiceParts(services, volumes, flags), n)
  }

  function DocumentRelations(services: Section<ServiceDef>, volumes: Section<VolumeDecl>, flags: bv64): seq<Relation> {
    RelationsUpTo(services, |services|, volumes, flags)
  }

  /** The services resolve one more: the new service is checked against the vertices as
      they are when its passes start, which only differ by created ids. */
  lemma ServicesResolveSnoc(services: Section<ServiceDef>, k: nat, volumes: Section<VolumeDecl>, flags: bv64,
                            start: map<string, Attributes>, now: map<string, Attributes>)
    requires k < |services| && GrowsBy(start, now, flags)
    requires ServicesResolveUpTo(services, k, volumes, flags, start.Keys)
    ensures ServicesResolveUpTo(services, k + 1, volumes, flags, start.Keys)
            <==> ServiceResolves(services[k].0, services[k].1, volumes, flags, now.Keys)
  {
    GrowsByKeepsSettled(start, now, flags);
    ServiceResolvesStable(services[k].0, services[k].1, volumes, flags, start.Keys, now.Keys);
  }

  /** The passes of service `k`, starting from a graph that already holds the first `k`
      services' relations on top of `e0` and grew from `v0` by created ids only. */
  method AddNextService(g: Graph, services: Section<ServiceDef>, k: nat, volumes: Section<VolumeDecl>, flags: bv64,
                        ghost v0: map<string, Attributes>, ghost e0: seq<Edge>) returns (r: Outcome<Failure>)
    requires k < |services| && g.Valid() && GrowsBy(v0, g.vertices, flags)
    requires ServicesResolveUpTo(services, k, volumes, flags, v0.Keys)
    requires DrawsExactly(e0, g.edges, RelationsUpTo(services, k, volumes, flags))
    modifies g
    ensures g.Valid() && g.attributes == old(g.attributes) && GrowsBy(v0, g.vertices, flags) && EdgesGrow(e0, g.edges)
    ensures r.Pass? <==> ServicesResolveUpTo(services, k + 1, volumes, flags, v0.Keys)
    ensures r.Pass? ==> DrawsExactly(e0, g.edges, RelationsUpTo(services, k + 1, volumes, flags))
  {
    ghost var v := g.vertices;
    ghost var e := g.edges;
    r := AddServiceRelations(g, services[k].0, services[k].1, volumes, flags);
    ServicesResolveSnoc(services, k, volumes, flags, v0, v);
    GrowsByTrans(v0, v, g.vertices, flags);
    EdgesGrowTrans(e0, e, g.edges);
    if r.Pass? {
      assert RelationsUpTo(services, k + 1, volumes, flags)
          == RelationsUpTo(services, k, volumes, flags) + ServiceRelations(services[k].0, services[k].1, volumes, flags);
      DrawsExactlyChain(e0, e, g.edges, RelationsUpTo(services, k, volumes, flags),
        ServiceRelations(services[k].0, services[k].1, volumes, flags));
    }
  }

  /** The relation passes of every service, in document order; the first failure stops
      the construction. */
  method AddAllServiceRelations(g: Graph, services: Section<ServiceDef>, volumes: Section<VolumeDecl>, flags: bv64) returns (r: Outcome<Failure>)
    requires g.Valid()
    modifies g
    ensures g.Valid() && g.attributes == old(g.attributes)
    ensures GrowsBy(old(g.vertices), g.vertices, flags)
    ensures EdgesGrow(old(g.edges), g.edges)
    ensures r.Pass? <==> ServicesResolveUpTo(services, |services|, volumes, flags, old(g.vertices).Keys)
    ensures r.Pass? ==> DrawsExactly(old(g.edges), g.edges, DocumentRelations(services, volumes, flags))
  {
    ghost var v0 := g.vertices;
    ghost var e0 := g.edges;
    DrawsNothing(e0);
    var k := 0;
    while k < |services|
      invariant 0 <= k <= |services|
      invariant g.Valid() && g.attributes == old(g.attributes)
      invariant GrowsBy(v0, g.vertices, flags)
      invariant ServicesResolveUpTo(services, k, volumes, flags, v0.Keys)
      invariant DrawsExactly(e0, g.edges, RelationsUpTo(services, k, volumes, flags))
    {
      r := AddNextService(g, services, k, volumes, flags, v0, e0);
      if r.Fail? {
        return;
      }
      k := k + 1;
    }
    r := Pass;
  }

  /** Registration followed by the relation passes of every service. The result is a
      pass exactly when every service's lookups succeed against the registered vertices;
      then the edges drawn are exactly the document's relations. */
  method MakeVerticesAndEdges(g: Graph, services: Section<ServiceDef>, volumes: Section<VolumeDecl>, networks: Section<NetworkDecl>,
                              configs: Section<Unread>, secrets: Section<Unread>, flags: bv64) returns (r: Outcome<Failure>)
    requires g.Valid()
    modifies g
    ensures g.Valid() && g.attributes == old(g.attributes)
    ensures GrowsBy(RegisterAll(old(g.vertices), Registrations(services, volumes, networks, configs, secrets, flags)), g.vertices, flags)
    ensures EdgesGrow(old(g.edges), g.edges)
    ensures r.Pass? <==> ServicesResolveUpTo(services, |services|, volumes, flags,
                           RegisterAll(old(g.vertices), Registrations(services, volumes, networks, configs, secrets, flags)).Keys)
    ensures r.Pass? ==> DrawsExactly(old(g.edges), g.edges, DocumentRelations(services, volumes, flags))
  {
    RegisterDeclared(g, services, volumes, networks, configs, secrets, flags);
    r := AddAllServiceRelations(g, services, volumes, flags);
  }

  /** The graph of a document: a fresh graph with no attributes, built as above. */
  method CreateGraph(services: Section<ServiceDef>, volumes: Section<VolumeDecl>, networks: Section<NetworkDecl>,
                     configs: Section<Unread>, secrets: Section<Unread>, flags: bv64) returns (g: Graph, r: Outcome<Failure>)
    ensures fresh(g) && g.Valid() && g.attributes == map[]
    ensures GrowsBy(RegisterAll(map[], Registrations(services, volumes, networks, configs, secrets, flags)), g.vertices, flags)
    ensures r.Pass? <==> ServicesResolveUpTo(services, |services|, volumes, flags,
                           RegisterAll(map[], Registrations(services, volumes, networks, configs, secrets, flags)).Keys)
    ensures r.Pass? ==> forall rel :: Drawn(g.edges, rel) <==> rel in DocumentRelations(services, volumes, flags)
  {
    g := new Graph();
    r := MakeVerticesAndEdges(g, services, volumes, networks, configs, secrets, flags);
  }

  // ---- what the construction guarantees ----

  /** A relation of one part is among the concatenation of any longer prefix. */
  lemma {:induction false} ConcatIncludes(parts: seq<seq<Relation>>, n: nat, k: nat, rel: Relation)
    requires k < n <= |parts| && rel in parts[k]
    ensures rel in Concat(parts, n)
  {
    if k < n - 1 {
      ConcatIncludes(parts, n - 1, k, rel);
    }
  }

  /** The relations of an earlier service are among the relations of a longer prefix. */
  lemma RelationsUpToIncludes(services: Section<ServiceDef>, n: nat, volumes: Section<VolumeDecl>, flags: bv64, k: nat, rel: Relation)
    requires k < n <= |services| && rel in ServiceRelations(services[k].0, services[k].1, volumes, flags)
    ensures rel in RelationsUpTo(services, n, volumes, flags)
  {
    ConcatIncludes(ServiceParts(services, volumes, flags), n, k, rel);
  }

  /** Every entry of every service's links list is drawn as a link to the service it
      names (the part before the colon). */
  lemma LinksDrawn(services: Section<ServiceDef>, volumes: Section<VolumeDecl>, flags: bv64, k: nat, j: nat)
    requires k < |services| && j < |services[k].1.links|
    ensures LinkRelation(services[k].0, NormalizeLinkMapping(services[k].1.links[j]).0) in DocumentRelations(services, volumes, flags)
  {
    var name := services[k].0;
    var def := services[k].1;
    var rel := LinkRelation(name, NormalizeLinkMapping(def.links[j]).0);
    var steps := LinkSteps(name, def.links);
    assert steps[j] == Ok(rel);
    DrawingNames(steps, |steps|, rel);
    assert rel in LinkingRelations(name, def);
    RelationsUpToIncludes(services, |services|, volumes, flags, k, rel);
  }

  /** With volumes on, every entry of every service's volumes_from list is drawn as a
      volumes_from relation from the service it names to the service that lists it. */
  lemma VolumesFromDrawn(services: Section<ServiceDef>, volumes: Section<VolumeDecl>, flags: bv64, k: nat, j: nat)
    requires Processes(flags, WithoutVolumes)
    requires k < |services| && j < |services[k].1.volumesFrom|
    ensures VolumesFromRelation(services[k].1.volumesFrom[j], services[k].0) in DocumentRelations(services, volumes, flags)
  {
    var name := services[k].0;
    var def := services[k].1;
    var rel := VolumesFromRelation(def.volumesFrom[j], name);
    var steps := VolumesFromSteps(name, def.volumesFrom);
    assert steps[j] == Ok(rel);
    DrawingNames(steps, |steps|, rel);
    assert rel in MountingRelations(name, def, volumes, flags);
    assert rel in ServiceRelations(name, def, volumes, flags);
    RelationsUpToIncludes(services, |services|, volumes, flags, k, rel);
  }

  /** With volumes switched off, the constructed graph has no volume vertex at all. */
  lemma VolumesAbsentWhenOff(services: Section<ServiceDef>, volumes: Section<VolumeDecl>, networks: Section<NetworkDecl>,
                             configs: Section<Unread>, secrets: Section<Unread>, flags: bv64, vertices: map<string, Attributes>, name: string)
    requires !Processes(flags, WithoutVolumes)
    requires GrowsBy(RegisterAll(map[], Registrations(services, volumes, networks, configs, secrets, flags)), vertices, flags)
    ensures VolumeId(name) !in vertices
  {
    SwitchedOffVolumesNotRegistered(map[], services, volumes, networks, configs, secrets, flags, name);
    assert VolumeId(name)[0] == 'v';
  }

  /** With ports switched off, the constructed graph has no port vertex at all. */
  lemma PortsAbsentWhenOff(services: Section<ServiceDef>, volumes: Section<VolumeDecl>, networks: Section<NetworkDecl>,
                           configs: Section<Unread>, secrets: Section<Unread>, flags: bv64, vertices: map<string, Attributes>, name: string)
    requires !Processes(flags, WithoutPorts)
    requires GrowsBy(RegisterAll(map[], Registrations(services, volumes, networks, configs, secrets, flags)), vertices, flags)
    ensures PortId(name) !in vertices
  {
    PortsNeverRegistered(map[], services, volumes, networks, configs, secrets, flags, name);
    assert PortId(name)[0] == 'p';
  }

  /** Every service of the document keeps the plain attributes of its first declaration:
      the relation passes never restyle a vertex. */
  lemma ServicesStayPlain(services: Section<ServiceDef>, volumes: Section<VolumeDecl>, networks: Section<NetworkDecl>,
                          configs: Section<Unread>, secrets: Section<Unread>, flags: bv64, vertices: map<string, Attributes>, k: nat)
    requires k < |services| && FirstDeclared(services, k)
    requires GrowsBy(RegisterAll(map[], Registrations(services, volumes, networks, configs, secrets, flags)), vertices, flags)
    ensures ServiceId(services[k].0) in vertices && vertices[ServiceId(services[k].0)] == ServiceAttributes(None)
  {
    ServicesRegistered(map[], services, volumes, networks, configs, secrets, flags, k);
  }
}
