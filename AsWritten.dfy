/** The relation passes as the engine literally runs them. Every pass hands its list to
    PHP's iterator_apply, which stops as soon as a callback returns something other than
    true. The registration callbacks return the vertex (true), so every registration
    happens; the relation callbacks return nothing, so each relation pass stops after
    its first entry. The volumes_from pass, in addition, reads the depends_on iterator
    instead of its own. The rest of the model uses the passes as evidently intended
    (Construction); this module exhibits the difference. */
module AsWritten {
  import opened Wrappers
  import opened Graphs
  import opened Compose
  import opened Service
  import opened Port
  import opened Namespaces
  import opened Passes
  import opened Walks
  import opened Flags
  import opened Registration
  import opened Construction

  /** How many callbacks iterator_apply makes over a list whose callbacks would return
      `results`, one per entry: it stops after the first result that is not true. */
  function IteratorApplyCalls(results: seq<bool>): (n: nat)
    ensures n <= |results|
    ensures |results| > 0 ==> n > 0
  {
    if |results| == 0 then 0
    else if !results[0] then 1
    else 1 + IteratorApplyCalls(results[1..])
  }

  /** Callbacks that all return true are made for every entry. */
  lemma {:induction false} TruthyCallbacksVisitAll(results: seq<bool>)
    requires forall k :: 0 <= k < |results| ==> results[k]
    ensures IteratorApplyCalls(results) == |results|
  {
    if |results| > 0 {
      assert forall k :: 0 <= k < |results[1..]| ==> results[1..][k] == results[k + 1];
      TruthyCallbacksVisitAll(results[1..]);
    }
  }

  /** Callbacks that return nothing are made for the first entry only. */
  lemma VoidCallbacksVisitFirst(results: seq<bool>)
    requires forall k :: 0 <= k < |results| ==> !results[k]
    ensures IteratorApplyCalls(results) == if |results| == 0 then 0 else 1
  {
    if |results| > 0 {
      assert !results[0];
    }
  }

  /** The results of `n` callbacks that return nothing. */
  function Voids(n: nat): (r: seq<bool>)
    ensures |r| == n && forall k :: 0 <= k < n ==> !r[k]
  {
    seq(n, _ => false)
  }

  /** The steps a relation pass takes as written: only the first entry's, if any. */
  function TruncatedSteps(steps: seq<Step>): (r: seq<Step>)
    ensures |r| == (if |steps| == 0 then 0 else 1)
    ensures r == steps[..|r|]
  {
    VoidCallbacksVisitFirst(Voids(|steps|));
    steps[..IteratorApplyCalls(Voids(|steps|))]
  }

  /** The volumes_from pass as written. Its callback reads the depends_on iterator, which
      iterator_apply left on its first entry (it stopped there), and passes that entry as
      the service named. A bare name draws a volumes_from relation from that dependency;
      a record, or no dependency at all, is a type error. Only the first volumes_from
      entry triggers a callback. */
  function VolumesFromStepsAsWritten(service: string, dependsOn: seq<DependsEntry>, sources: seq<string>): (steps: seq<Step>)
    ensures |steps| == (if |sources| == 0 then 0 else 1)
    ensures forall k :: 0 <= k < |steps| ==> steps[k].Ok? ==>
              |dependsOn| > 0 && dependsOn[0].DependsName? && steps[k] == VolumesFromStep(service, dependsOn[0].name)
  {
    VoidCallbacksVisitFirst(Voids(|sources|));
    if IteratorApplyCalls(Voids(|sources|)) == 0 then []
    else if |dependsOn| > 0 && dependsOn[0].DependsName? then [VolumesFromStep(service, dependsOn[0].name)]
    else [Err(TypeError)]
  }

  /** The relation walks as written: each hands only the entries iterator_apply calls
      back for, that is the first one, to the walk as intended. */
  method WalkLinksAsWritten(g: Graph, service: string, links: seq<string>) returns (r: Outcome<Failure>)
    requires g.Valid()
    modifies g
    ensures g.Valid() && g.vertices == old(g.vertices) && g.attributes == old(g.attributes)
    ensures EdgesGrow(old(g.edges), g.edges)
    ensures r.Pass? <==> AllResolve(TruncatedSteps(LinkSteps(service, links)), old(g.vertices).Keys)
    ensures r.Pass? ==> DrawsExactly(old(g.edges), g.edges, Drawing(TruncatedSteps(LinkSteps(service, links))))
  {
    var calls := IteratorApplyCalls(Voids(|links|));
    assert LinkSteps(service, links[..calls]) == TruncatedSteps(LinkSteps(service, links));
    r := WalkLinks(g, service, links[..calls]);
  }

  method WalkExternalLinksAsWritten(g: Graph, service: string, links: seq<string>) returns (r: Outcome<Failure>)
    requires g.Valid()
    modifies g
    ensures g.Valid() && g.vertices == old(g.vertices) && g.attributes == old(g.attributes)
    ensures EdgesGrow(old(g.edges), g.edges)
    ensures r.Pass? <==> AllResolve(TruncatedSteps(ExternalLinkSteps(service, links)), old(g.vertices).Keys)
    ensures r.Pass? ==> DrawsExactly(old(g.edges), g.edges, Drawing(TruncatedSteps(ExternalLinkSteps(service, links))))
  {
    var calls := IteratorApplyCalls(Voids(|links|));
    assert ExternalLinkSteps(service, links[..calls]) == TruncatedSteps(ExternalLinkSteps(service, links));
    r := WalkExternalLinks(g, service, links[..calls]);
  }

  method WalkDependsAsWritten(g: Graph, service: string, entries: seq<DependsEntry>) returns (r: Outcome<Failure>)
    requires g.Valid()
    modifies g
    ensures g.Valid() && g.vertices == old(g.vertices) && g.attributes == old(g.attributes)
    ensures EdgesGrow(old(g.edges), g.edges)
    ensures r.Pass? <==> AllResolve(TruncatedSteps(DependsSteps(service, entries)), old(g.vertices).Keys)
    ensures r.Pass? ==> DrawsExactly(old(g.edges), g.edges, Drawing(TruncatedSteps(DependsSteps(service, entries))))
  {
    var calls := IteratorApplyCalls(Voids(|entries|));
    assert DependsSteps(service, entries[..calls]) == TruncatedSteps(DependsSteps(service, entries));
    r := WalkDepends(g, service, entries[..calls]);
  }

  method WalkPortsAsWritten(g: Graph, service: string, entries: seq<PortEntry>) returns (r: Outcome<Failure>)
    requires g.Valid()
    modifies g
    ensures g.Valid() && GrowsWithin(old(g.vertices), g.vertices, PortPrefix) && g.attributes == old(g.attributes)
    ensures EdgesGrow(old(g.edges), g.edges)
    ensures r.Pass? <==> SourcesResolve(TruncatedSteps(PortSteps(service, entries)), old(g.vertices).Keys)
    ensures r.Pass? ==> DrawsExactly(old(g.edges), g.edges, Drawing(TruncatedSteps(PortSteps(service, entries))))
  {
    var calls := IteratorApplyCalls(Voids(|entries|));
    assert PortSteps(service, entries[..calls]) == TruncatedSteps(PortSteps(service, entries));
    r := WalkPorts(g, service, entries[..calls]);
  }

  method WalkNetworksAsWritten(g: Graph, service: string, entries: seq<NetworkEntry>) returns (r: Outcome<Failure>)
    requires g.Valid()
    modifies g
    ensures g.Valid() && g.vertices == old(g.vertices) && g.attributes == old(g.attributes)
    ensures EdgesGrow(old(g.edges), g.edges)
    ensures r.Pass? <==> AllResolve(TruncatedSteps(NetworkSteps(service, entries)), old(g.vertices).Keys)
    ensures r.Pass? ==> DrawsExactly(old(g.edges), g.edges, Drawing(TruncatedSteps(NetworkSteps(service, entries))))
  {
    var calls := IteratorApplyCalls(Voids(|entries|));
    assert NetworkSteps(service, entries[..calls]) == TruncatedSteps(NetworkSteps(service, entries));
    r := WalkNetworks(g, service, entries[..calls]);
  }

  method WalkConfigsAsWritten(g: Graph, service: string, entries: seq<Grant>) returns (r: Outcome<Failure>)
    requires g.Valid()
    modifies g
    ensures g.Valid() && g.vertices == old(g.vertices) && g.attributes == old(g.attributes)
    ensures EdgesGrow(old(g.edges), g.edges)
    ensures r.Pass? <==> AllResolve(TruncatedSteps(ConfigSteps(service, entries)), old(g.vertices).Keys)
    ensures r.Pass? ==> DrawsExactly(old(g.edges), g.edges, Drawing(TruncatedSteps(ConfigSteps(service, entries))))
  {
    var calls := IteratorApplyCalls(Voids(|entries|));
    assert ConfigSteps(service, entries[..calls]) == TruncatedSteps(ConfigSteps(service, entries));
    r := WalkConfigs(g, service, entries[..calls]);
  }

  method WalkSecretsAsWritten(g: Graph, service: string, entries: seq<Grant>) returns (r: Outcome<Failure>)
    requires g.Valid()
    modifies g
    ensures g.Valid() && g.vertices == old(g.vertices) && g.attributes == old(g.attributes)
    ensures EdgesGrow(old(g.edges), g.edges)
    ensures r.Pass? <==> AllResolve(TruncatedSteps(SecretSteps(service, entries)), old(g.vertices).Keys)
    ensures r.Pass? ==> DrawsExactly(old(g.edges), g.edges, Drawing(TruncatedSteps(SecretSteps(service, entries))))
  {
    var calls := IteratorApplyCalls(Voids(|entries|));
    assert SecretSteps(service, entries[..calls]) == TruncatedSteps(SecretSteps(service, entries));
    r := WalkSecrets(g, service, entries[..calls]);
  }

  /** The volumes_from walk as written: one callback at most, drawing from the first
      depends_on entry, or a type error when that entry is missing or a record. */
  method WalkVolumesFromAsWritten(g: Graph, service: string, dependsOn: seq<DependsEntry>, sources: seq<string>)
    returns (r: Outcome<Failure>)
    requires g.Valid()
    modifies g
    ensures g.Valid() && g.vertices == old(g.vertices) && g.attributes == old(g.attributes)
    ensures EdgesGrow(old(g.edges), g.edges)
    ensures r.Pass? <==> AllResolve(VolumesFromStepsAsWritten(service, dependsOn, sources), old(g.vertices).Keys)
    ensures r.Pass? ==> DrawsExactly(old(g.edges), g.edges, Drawing(VolumesFromStepsAsWritten(service, dependsOn, sources)))
  {
    var calls := IteratorApplyCalls(Voids(|sources|));
    VoidCallbacksVisitFirst(Voids(|sources|));
    if calls == 0 {
      DrawsNothing(g.edges);
      r := Pass;
    } else if |dependsOn| > 0 && dependsOn[0].DependsName? {
      assert VolumesFromSteps(service, [dependsOn[0].name]) == VolumesFromStepsAsWritten(service, dependsOn, sources);
      r := WalkVolumesFrom(g, service, [dependsOn[0].name]);
    } else {
      assert !Resolves(VolumesFromStepsAsWritten(service, dependsOn, sources)[0], old(g.vertices).Keys);
      r := Fail(TypeError);
    }
  }

  // ---- the construction as written ----

  /** The entries of a list that iterator_apply calls a callback returning nothing for. */
  function Visited<T>(entries: seq<T>): (r: seq<T>)
    ensures r == entries[..if |entries| == 0 then 0 else 1]
  {
    VoidCallbacksVisitFirst(Voids(|entries|));
    entries[..IteratorApplyCalls(Voids(|entries|))]
  }

  /** The volumes_from callback as written has a dependency to read: the list is not
      empty and the depends_on iterator rests on a bare name. */
  predicate StaleDependencyNamed(def: ServiceDef) {
    |def.dependsOn| > 0 && def.dependsOn[0].DependsName?
  }

  /** The volumes_from pass as written runs and fails: it is switched on, its list is not
      empty, and the depends_on iterator it reads holds no bare name. */
  predicate StaleIteratorFails(def: ServiceDef, flags: bv64) {
    Processes(flags, WithoutVolumes) && |def.volumesFrom| > 0 && !StaleDependencyNamed(def)
  }

  /** The service definition whose intended passes draw what the passes as written draw:
      every list walked by iterator_apply keeps only its first entry, and volumes_from is
      the first depends_on name when the callback runs and finds one. The extends key and
      the mounts, walked without iterator_apply, are kept whole. */
  function AsWrittenDef(def: ServiceDef): (w: ServiceDef)
    ensures w.extended == def.extended && w.volumes == def.volumes
    ensures |w.links| <= 1 && |w.externalLinks| <= 1 && |w.dependsOn| <= 1 && |w.volumesFrom| <= 1
    ensures |w.ports| <= 1 && |w.networks| <= 1 && |w.configs| <= 1 && |w.secrets| <= 1
  {
    def.(links := Visited(def.links), externalLinks := Visited(def.externalLinks),
         dependsOn := Visited(def.dependsOn),
         volumesFrom := if |def.volumesFrom| > 0 && StaleDependencyNamed(def) then [def.dependsOn[0].name] else [],
         ports := Visited(def.ports), networks := Visited(def.networks),
         configs := Visited(def.configs), secrets := Visited(def.secrets))
  }

  /** The intended steps of the as-written definition are the steps the passes as
      written take: the first entry's of each list, and the stale volumes_from step
      whenever it is not a type error. */
  lemma AsWrittenDefSteps(name: string, def: ServiceDef)
    ensures LinkSteps(name, AsWrittenDef(def).links) == TruncatedSteps(LinkSteps(name, def.links))
    ensures ExternalLinkSteps(name, AsWrittenDef(def).externalLinks) == TruncatedSteps(ExternalLinkSteps(name, def.externalLinks))
    ensures DependsSteps(name, AsWrittenDef(def).dependsOn) == TruncatedSteps(DependsSteps(name, def.dependsOn))
    ensures PortSteps(name, AsWrittenDef(def).ports) == TruncatedSteps(PortSteps(name, def.ports))
    ensures NetworkSteps(name, AsWrittenDef(def).networks) == TruncatedSteps(NetworkSteps(name, def.networks))
    ensures ConfigSteps(name, AsWrittenDef(def).configs) == TruncatedSteps(ConfigSteps(name, def.configs))
    ensures SecretSteps(name, AsWrittenDef(def).secrets) == TruncatedSteps(SecretSteps(name, def.secrets))
    ensures |def.volumesFrom| == 0 || StaleDependencyNamed(def) ==>
              VolumesFromSteps(name, AsWrittenDef(def).volumesFrom) == VolumesFromStepsAsWritten(name, def.dependsOn, def.volumesFrom)
  {
  }

  /** A service whose volumes_from callback reads a stale iterator: the linking passes
      run, and if they pass, the callback fails with a type error. */
  method FailOnStaleIterator(g: Graph, name: string, def: ServiceDef) returns (r: Outcome<Failure>)
    requires g.Valid()
    modifies g
    ensures g.Valid() && g.vertices == old(g.vertices) && g.attributes == old(g.attributes)
    ensures EdgesGrow(old(g.edges), g.edges)
    ensures r.Fail?
    ensures LinkingResolves(name, def, old(g.vertices).Keys) ==> r == Fail(TypeError)
  {
    r := LinkingPasses(g, name, def);
    if r.Pass? {
      r := Fail(TypeError);
    }
  }

  lemma GrowsByRefl(v: map<string, Attributes>, flags: bv64)
    ensures GrowsBy(v, v, flags)
  {
  }

  /** All relation passes of one service as written. The passes before volumes_from run
      as intended on the first entries; a stale volumes_from iterator then fails with a
      type error; otherwise the service draws exactly the as-written definition's
      relations. */
  method AddServiceRelationsAsWritten(g: Graph, name: string, def: ServiceDef, volumes: Section<VolumeDecl>, flags: bv64)
    returns (r: Outcome<Failure>)
    requires g.Valid()
    modifies g
    ensures g.Valid() && GrowsBy(old(g.vertices), g.vertices, flags) && g.attributes == old(g.attributes)
    ensures EdgesGrow(old(g.edges), g.edges)
    ensures r.Pass? <==> !StaleIteratorFails(def, flags) && ServiceResolves(name, AsWrittenDef(def), volumes, flags, old(g.vertices).Keys)
    ensures r.Pass? ==> DrawsExactly(old(g.edges), g.edges, ServiceRelations(name, AsWrittenDef(def), volumes, flags))
  {
    if StaleIteratorFails(def, flags) {
      r := FailOnStaleIterator(g, name, AsWrittenDef(def));
      GrowsByRefl(old(g.vertices), flags);
    } else {
      r := AddServiceRelations(g, name, AsWrittenDef(def), volumes, flags);
    }
  }

  /** Every service's definition as written, in document order. */
  function AsWrittenServices(services: Section<ServiceDef>): (ws: Section<ServiceDef>)
    ensures |ws| == |services|
    ensures forall k :: 0 <= k < |services| ==> ws[k] == (services[k].0, AsWrittenDef(services[k].1))
  {
    seq(|services|, k requires 0 <= k < |services| => (services[k].0, AsWrittenDef(services[k].1)))
  }

  /** No service of the first `n` meets a failing stale volumes_from iterator. */
  predicate NoStaleFailureUpTo(services: Section<ServiceDef>, n: nat, flags: bv64)
    requires n <= |services|
  {
    forall k :: 0 <= k < n ==> !StaleIteratorFails(services[k].1, flags)
  }

  lemma NoStaleFailureSnoc(services: Section<ServiceDef>, k: nat, flags: bv64)
    requires k < |services| && NoStaleFailureUpTo(services, k, flags) && !StaleIteratorFails(services[k].1, flags)
    ensures NoStaleFailureUpTo(services, k + 1, flags)
  {
  }

  /** The relation passes of every service as written, in document order; the first
      failure stops the construction. It passes exactly when no service meets a failing
      stale volumes_from iterator and every as-written definition's lookups succeed,
      and then it has drawn exactly the as-written definitions' relations. */
  method AddAllServiceRelationsAsWritten(g: Graph, services: Section<ServiceDef>, volumes: Section<VolumeDecl>, flags: bv64)
    returns (r: Outcome<Failure>)
    requires g.Valid()
    modifies g
    ensures g.Valid() && g.attributes == old(g.attributes)
    ensures GrowsBy(old(g.vertices), g.vertices, flags)
    ensures EdgesGrow(old(g.edges), g.edges)
    ensures r.Pass? <==> NoStaleFailureUpTo(services, |services|, flags)
                         && ServicesResolveUpTo(AsWrittenServices(services), |services|, volumes, flags, old(g.vertices).Keys)
    ensures r.Pass? ==> DrawsExactly(old(g.edges), g.edges, DocumentRelations(AsWrittenServices(services), volumes, flags))
  {
    ghost var v0 := g.vertices;
    ghost var e0 := g.edges;
    var ws := AsWrittenServices(services);
    DrawsNothing(e0);
    var k := 0;
    while k < |services|
      invariant 0 <= k <= |services|
      invariant g.Valid() && g.attributes == old(g.attributes)
      invariant GrowsBy(v0, g.vertices, flags) && EdgesGrow(e0, g.edges)
      invariant NoStaleFailureUpTo(services, k, flags)
      invariant ServicesResolveUpTo(ws, k, volumes, flags, v0.Keys)
      invariant DrawsExactly(e0, g.edges, RelationsUpTo(ws, k, volumes, flags))
    {
      if StaleIteratorFails(services[k].1, flags) {
        ghost var e := g.edges;
        r := FailOnStaleIterator(g, services[k].0, ws[k].1);
        EdgesGrowTrans(e0, e, g.edges);
        return;
      }
      NoStaleFailureSnoc(services, k, flags);
      r := AddNextService(g, ws, k, volumes, flags, v0, e0);
      if r.Fail? {
        return;
      }
      k := k + 1;
    }
    r := Pass;
  }

  /** Registration followed by the relation passes as written. */
  method MakeVerticesAndEdgesAsWritten(g: Graph, services: Section<ServiceDef>, volumes: Section<VolumeDecl>,
                                       networks: Section<NetworkDecl>, configs: Section<Unread>, secrets: Section<Unread>, flags: bv64)
    returns (r: Outcome<Failure>)
    requires g.Valid()
    modifies g
    ensures g.Valid() && g.attributes == old(g.attributes)
    ensures GrowsBy(RegisterAll(old(g.vertices), Registrations(services, volumes, networks, configs, secrets, flags)), g.vertices, flags)
    ensures EdgesGrow(old(g.edges), g.edges)
    ensures r.Pass? <==> NoStaleFailureUpTo(services, |services|, flags)
                         && ServicesResolveUpTo(AsWrittenServices(services), |services|, volumes, flags,
                              RegisterAll(old(g.vertices), Registrations(services, volumes, networks, configs, secrets, flags)).Keys)
    ensures r.Pass? ==> DrawsExactly(old(g.edges), g.edges, DocumentRelations(AsWrittenServices(services), volumes, flags))
  {
    RegisterDeclared(g, services, volumes, networks, configs, secrets, flags);
    r := AddAllServiceRelationsAsWritten(g, services, volumes, flags);
  }

  /** The graph of a document as the engine builds it. */
  method CreateGraphAsWritten(services: Section<ServiceDef>, volumes: Section<VolumeDecl>, networks: Section<NetworkDecl>,
                              configs: Section<Unread>, secrets: Section<Unread>, flags: bv64) returns (g: Graph, r: Outcome<Failure>)
    ensures fresh(g) && g.Valid() && g.attributes == map[]
    ensures GrowsBy(RegisterAll(map[], Registrations(services, volumes, networks, configs, secrets, flags)), g.vertices, flags)
    ensures r.Pass? <==> NoStaleFailureUpTo(services, |services|, flags)
                         && ServicesResolveUpTo(AsWrittenServices(services), |services|, volumes, flags,
                              RegisterAll(map[], Registrations(services, volumes, networks, configs, secrets, flags)).Keys)
    ensures r.Pass? ==> forall rel :: Drawn(g.edges, rel) <==> rel in DocumentRelations(AsWrittenServices(services), volumes, flags)
  {
    g := new Graph();
    r := MakeVerticesAndEdgesAsWritten(g, services, volumes, networks, configs, secrets, flags);
  }

  /** A service linking to two services draws a link to the second in the intended
      pass. */
  lemma SecondLinkDrawn()
    ensures LinkRelation("web", "cache") in Drawing(LinkSteps("web", ["db", "cache"]))
  {
    var steps := LinkSteps("web", ["db", "cache"]);
    assert ':' !in "cache";
    assert steps[1] == Ok(LinkRelation("web", "cache"));
    DrawingNames(steps, 2, LinkRelation("web", "cache"));
  }

  /** Counterexample: as written, the link pass stops after its first entry, so the
      link to the second service is never drawn. */
  lemma SecondLinkDropped()
    ensures LinkRelation("web", "cache") !in Drawing(TruncatedSteps(LinkSteps("web", ["db", "cache"])))
  {
    var steps := LinkSteps("web", ["db", "cache"]);
    assert ':' !in "db";
    var t := TruncatedSteps(steps);
    assert t == [steps[0]];
    assert steps[0] == Ok(LinkRelation("web", "db"));
    IdsInjective("db", "cache");
    DrawingNames(t, 1, LinkRelation("web", "cache"));
  }

  /** Counterexample: without depends_on, a volumes_from entry makes the construction
      fail as written (the stale iterator has no current entry), where the intended
      pass draws the relation. */
  lemma VolumesFromWithoutDependencyFails(known: set<string>)
    ensures !AllResolve(VolumesFromStepsAsWritten("app", [], ["data"]), known)
    ensures VolumesFromRelation("data", "app") in Drawing(VolumesFromSteps("app", ["data"]))
  {
    var steps := VolumesFromSteps("app", ["data"]);
    assert steps[0] == Ok(VolumesFromRelation("data", "app"));
    DrawingNames(steps, 1, VolumesFromRelation("data", "app"));
    assert VolumesFromStepsAsWritten("app", [], ["data"])[0] == Err(TypeError);
  }

  /** Counterexample: with a dependency listed first, volumes_from as written draws its
      relation from that dependency instead of from the service it names. */
  lemma VolumesFromReadsDependency()
    ensures VolumesFromRelation("data", "app") !in Drawing(VolumesFromStepsAsWritten("app", [DependsName("db")], ["data"]))
    ensures VolumesFromRelation("db", "app") in Drawing(VolumesFromStepsAsWritten("app", [DependsName("db")], ["data"]))
    ensures VolumesFromRelation("data", "app") in Drawing(VolumesFromSteps("app", ["data"]))
  {
    var t := VolumesFromStepsAsWritten("app", [DependsName("db")], ["data"]);
    assert t[0] == Ok(VolumesFromRelation("db", "app"));
    IdsInjective("db", "data");
    DrawingNames(t, 1, VolumesFromRelation("data", "app"));
    DrawingNames(t, 1, VolumesFromRelation("db", "app"));
    var steps := VolumesFromSteps("app", ["data"]);
    assert steps[0] == Ok(VolumesFromRelation("data", "app"));
    DrawingNames(steps, 1, VolumesFromRelation("data", "app"));
  }
}
