/** The relation passes of the construction: for one service, each relation list is
    walked entry by entry, in order, and the first failing entry ends the pass. A pass
    is specified by its entries' steps: it succeeds exactly when every step resolves
    against the vertices it starts from, and then it has drawn exactly the steps'
    relations. */
module Walks {
  import opened Wrappers
  import opened Graphs
  import opened Compose
  import opened Port
  import opened Volume
  import opened Namespaces
  import opened Passes

  /** The first `n` steps all resolve against `known`. */
  ghost predicate ResolveUpTo(steps: seq<Step>, n: nat, known: set<string>)
    requires n <= |steps|
  {
    forall k :: 0 <= k < n ==> Resolves(steps[k], known)
  }

  ghost predicate AllResolve(steps: seq<Step>, known: set<string>) {
    ResolveUpTo(steps, |steps|, known)
  }

  /** The first `n` steps all have their source among `known`. */
  ghost predicate SourcesUpTo(steps: seq<Step>, n: nat, known: set<string>)
    requires n <= |steps|
  {
    forall k :: 0 <= k < n ==> SourceResolves(steps[k], known)
  }

  ghost predicate SourcesResolve(steps: seq<Step>, known: set<string>) {
    SourcesUpTo(steps, |steps|, known)
  }

  /** The relations the first `n` steps draw, in order. */
  function DrawingUpTo(steps: seq<Step>, n: nat): (rels: seq<Relation>)
    requires n <= |steps|
    ensures |rels| <= n
  {
    if n == 0 then []
    else DrawingUpTo(steps, n - 1) + (if steps[n - 1].Ok? then [steps[n - 1].value] else [])
  }

  function Drawing(steps: seq<Step>): seq<Relation> {
    DrawingUpTo(steps, |steps|)
  }

  /** A relation is drawn by the first `n` steps exactly when one of them names it. */
  lemma {:induction false} DrawingNames(steps: seq<Step>, n: nat, rel: Relation)
    requires n <= |steps|
    ensures rel in DrawingUpTo(steps, n) <==> exists k :: 0 <= k < n && steps[k] == Ok(rel)
  {
    if n > 0 {
      DrawingNames(steps, n - 1, rel);
    }
  }

  lemma ResolveSnoc(steps: seq<Step>, k: nat, known: set<string>)
    requires k < |steps| && ResolveUpTo(steps, k, known) && Resolves(steps[k], known)
    ensures ResolveUpTo(steps, k + 1, known)
  {
  }

  lemma SourcesSnoc(steps: seq<Step>, k: nat, known: set<string>)
    requires k < |steps| && SourcesUpTo(steps, k, known) && SourceResolves(steps[k], known)
    ensures SourcesUpTo(steps, k + 1, known)
  {
  }

  /** A settled source found among vertices grown by creatable ids was already known
      before they grew. */
  lemma SourceBack(step: Step, before: map<string, Attributes>, after: map<string, Attributes>, prefix: string)
    requires prefix == VolumePrefix || prefix == PortPrefix
    requires SourceSettled(step) && GrowsWithin(before, after, prefix) && SourceResolves(step, after.Keys)
    ensures SourceResolves(step, before.Keys)
  {
  }

  lemma DrawsNothing(e: seq<Edge>)
    ensures DrawsExactly(e, e, [])
  {
    forall j | 0 <= j < |e| ensures SameSlot(e[j], e[j]) {
    }
  }

  /** Growing the known ids by creatable ones changes no settled step's resolution. */
  lemma ResolveStable(steps: seq<Step>, k0: set<string>, k1: set<string>)
    requires forall k :: 0 <= k < |steps| ==> Settled(steps[k])
    requires k0 <= k1 && forall id :: id in k1 && !Creatable(id) ==> id in k0
    ensures AllResolve(steps, k0) <==> AllResolve(steps, k1)
  {
  }

  lemma SourcesStable(steps: seq<Step>, k0: set<string>, k1: set<string>)
    requires forall k :: 0 <= k < |steps| ==> SourceSettled(steps[k])
    requires k0 <= k1 && forall id :: id in k1 && !Creatable(id) ==> id in k0
    ensures SourcesResolve(steps, k0) <==> SourcesResolve(steps, k1)
  {
  }

  // ---- the step lists ----

  function LinkSteps(service: string, links: seq<string>): (steps: seq<Step>)
    ensures |steps| == |links| && forall k :: 0 <= k < |links| ==> steps[k] == LinkStep(service, links[k])
  {
    seq(|links|, k requires 0 <= k < |links| => LinkStep(service, links[k]))
  }

  method WalkLinks(g: Graph, service: string, links: seq<string>) returns (r: Outcome<Failure>)
    requires g.Valid()
    modifies g
    ensures g.Valid() && g.vertices == old(g.vertices) && g.attributes == old(g.attributes)
    ensures EdgesGrow(old(g.edges), g.edges)
    ensures r.Pass? <==> AllResolve(LinkSteps(service, links), old(g.vertices).Keys)
    ensures r.Pass? ==> DrawsExactly(old(g.edges), g.edges, Drawing(LinkSteps(service, links)))
  {
    ghost var steps := LinkSteps(service, links);
    DrawsNothing(g.edges);
    var k := 0;
    while k < |links|
      invariant 0 <= k <= |links|
      invariant g.Valid() && g.vertices == old(g.vertices) && g.attributes == old(g.attributes)
      invariant ResolveUpTo(steps, k, g.vertices.Keys)
      invariant DrawsExactly(old(g.edges), g.edges, DrawingUpTo(steps, k))
    {
      ghost var before := g.edges;
      var res := DrawLink(g, service, links[k]);
      if res.Err? {
        return Fail(res.error);
      }
      ResolveSnoc(steps, k, g.vertices.Keys);
      DrawsExactlyChain(old(g.edges), before, g.edges, DrawingUpTo(steps, k), [steps[k].value]);
      k := k + 1;
    }
    r := Pass;
  }

  function ExtendsSteps(service: string, extended: Option<Extends>): (steps: seq<Step>)
    ensures extended.None? ==> steps == []
    ensures extended.Some? ==> steps == [ExtendsStep(service, extended.value)]
  {
    if extended.None? then [] else [ExtendsStep(service, extended.value)]
  }

  /** The extends relation is drawn only when the service has an `extends` key. */
  method WalkExtends(g: Graph, service: string, extended: Option<Extends>) returns (r: Outcome<Failure>)
    requires g.Valid()
    modifies g
    ensures g.Valid() && g.vertices == old(g.vertices) && g.attributes == old(g.attributes)
    ensures EdgesGrow(old(g.edges), g.edges)
    ensures r.Pass? <==> AllResolve(ExtendsSteps(service, extended), old(g.vertices).Keys)
    ensures r.Pass? ==> DrawsExactly(old(g.edges), g.edges, Drawing(ExtendsSteps(service, extended)))
  {
    DrawsNothing(g.edges);
    if extended.None? {
      return Pass;
    }
    var res := DrawExtends(g, service, extended.value);
    assert ExtendsSteps(service, extended)[0] == ExtendsStep(service, extended.value);
    if res.Err? {
      return Fail(res.error);
    }
    r := Pass;
  }

  function ExternalLinkSteps(service: string, links: seq<string>): (steps: seq<Step>)
    ensures |steps| == |links| && forall k :: 0 <= k < |links| ==> steps[k] == ExternalLinkStep(service, links[k])
  {
    seq(|links|, k requires 0 <= k < |links| => ExternalLinkStep(service, links[k]))
  }

  method WalkExternalLinks(g: Graph, service: string, links: seq<string>) returns (r: Outcome<Failure>)
    requires g.Valid()
    modifies g
    ensures g.Valid() && g.vertices == old(g.vertices) && g.attributes == old(g.attributes)
    ensures EdgesGrow(old(g.edges), g.edges)
    ensures r.Pass? <==> AllResolve(ExternalLinkSteps(service, links), old(g.vertices).Keys)
    ensures r.Pass? ==> DrawsExactly(old(g.edges), g.edges, Drawing(ExternalLinkSteps(service, links)))
  {
    ghost var steps := ExternalLinkSteps(service, links);
    DrawsNothing(g.edges);
    var k := 0;
    while k < |links|
      invariant 0 <= k <= |links|
      invariant g.Valid() && g.vertices == old(g.vertices) && g.attributes == old(g.attributes)
      invariant ResolveUpTo(steps, k, g.vertices.Keys)
      invariant DrawsExactly(old(g.edges), g.edges, DrawingUpTo(steps, k))
    {
      ghost var before := g.edges;
      var res := DrawExternalLink(g, service, links[k]);
      if res.Err? {
        return Fail(res.error);
      }
      ResolveSnoc(steps, k, g.vertices.Keys);
      DrawsExactlyChain(old(g.edges), before, g.edges, DrawingUpTo(steps, k), [steps[k].value]);
      k := k + 1;
    }
    r := Pass;
  }

  function DependsSteps(service: string, entries: seq<DependsEntry>): (steps: seq<Step>)
    ensures |steps| == |entries| && forall k :: 0 <= k < |entries| ==> steps[k] == DependsStep(service, entries[k])
  {
    seq(|entries|, k requires 0 <= k < |entries| => DependsStep(service, entries[k]))
  }

  method WalkDepends(g: Graph, service: string, entries: seq<DependsEntry>) returns (r: Outcome<Failure>)
    requires g.Valid()
    modifies g
    ensures g.Valid() && g.vertices == old(g.vertices) && g.attributes == old(g.attributes)
    ensures EdgesGrow(old(g.edges), g.edges)
    ensures r.Pass? <==> AllResolve(DependsSteps(service, entries), old(g.vertices).Keys)
    ensures r.Pass? ==> DrawsExactly(old(g.edges), g.edges, Drawing(DependsSteps(service, entries)))
  {
    ghost var steps := DependsSteps(service, entries);
    DrawsNothing(g.edges);
    var k := 0;
    while k < |entries|
      invariant 0 <= k <= |entries|
      invariant g.Valid() && g.vertices == old(g.vertices) && g.attributes == old(g.attributes)
      invariant ResolveUpTo(steps, k, g.vertices.Keys)
      invariant DrawsExactly(old(g.edges), g.edges, DrawingUpTo(steps, k))
    {
      ghost var before := g.edges;
      var res := DrawDepends(g, service, entries[k]);
      if res.Err? {
        return Fail(res.error);
      }
      ResolveSnoc(steps, k, g.vertices.Keys);
      DrawsExactlyChain(old(g.edges), before, g.edges, DrawingUpTo(steps, k), [steps[k].value]);
      k := k + 1;
    }
    r := Pass;
  }

  function VolumesFromSteps(service: string, sources: seq<string>): (steps: seq<Step>)
    ensures |steps| == |sources| && forall k :: 0 <= k < |sources| ==> steps[k] == VolumesFromStep(service, sources[k])
  {
    seq(|sources|, k requires 0 <= k < |sources| => VolumesFromStep(service, sources[k]))
  }

  method WalkVolumesFrom(g: Graph, service: string, sources: seq<string>) returns (r: Outcome<Failure>)
    requires g.Valid()
    modifies g
    ensures g.Valid() && g.vertices == old(g.vertices) && g.attributes == old(g.attributes)
    ensures EdgesGrow(old(g.edges), g.edges)
    ensures r.Pass? <==> AllResolve(VolumesFromSteps(service, sources), old(g.vertices).Keys)
    ensures r.Pass? ==> DrawsExactly(old(g.edges), g.edges, Drawing(VolumesFromSteps(service, sources)))
  {
    ghost var steps := VolumesFromSteps(service, sources);
    DrawsNothing(g.edges);
    var k := 0;
    while k < |sources|
      invariant 0 <= k <= |sources|
      invariant g.Valid() && g.vertices == old(g.vertices) && g.attributes == old(g.attributes)
      invariant ResolveUpTo(steps, k, g.vertices.Keys)
      invariant DrawsExactly(old(g.edges), g.edges, DrawingUpTo(steps, k))
    {
      ghost var before := g.edges;
      var res := DrawVolumesFrom(g, service, sources[k]);
      if res.Err? {
        return Fail(res.error);
      }
      ResolveSnoc(steps, k, g.vertices.Keys);
      DrawsExactlyChain(old(g.edges), before, g.edges, DrawingUpTo(steps, k), [steps[k].value]);
      k := k + 1;
    }
    r := Pass;
  }

  function MountSteps(service: string, entries: seq<VolumeEntry>, volumes: Section<VolumeDecl>): (steps: seq<Step>)
    ensures |steps| == |entries|
    ensures forall k :: 0 <= k < |entries| ==> steps[k] == MountStep(service, NormalizeVolumeMapping(entries[k], volumes))
  {
    seq(|entries|, k requires 0 <= k < |entries| => MountStep(service, NormalizeVolumeMapping(entries[k], volumes)))
  }

  /** Every mount registers its source as a volume, so the pass adds volume vertices and
      nothing else. */
  method WalkMounts(g: Graph, service: string, entries: seq<VolumeEntry>, volumes: Section<VolumeDecl>) returns (r: Outcome<Failure>)
    requires g.Valid()
    modifies g
    ensures g.Valid() && GrowsWithin(old(g.vertices), g.vertices, VolumePrefix) && g.attributes == old(g.attributes)
    ensures EdgesGrow(old(g.edges), g.edges)
    ensures r.Pass? <==> SourcesResolve(MountSteps(service, entries, volumes), old(g.vertices).Keys)
    ensures r.Pass? ==> DrawsExactly(old(g.edges), g.edges, Drawing(MountSteps(service, entries, volumes)))
  {
    ghost var steps := MountSteps(service, entries, volumes);
    DrawsNothing(g.edges);
    var k := 0;
    while k < |entries|
      invariant 0 <= k <= |entries|
      invariant g.Valid() && GrowsWithin(old(g.vertices), g.vertices, VolumePrefix) && g.attributes == old(g.attributes)
      invariant SourcesUpTo(steps, k, old(g.vertices).Keys)
      invariant DrawsExactly(old(g.edges), g.edges, DrawingUpTo(steps, k))
    {
      ghost var before := g.edges;
      ghost var known := g.vertices;
      var m := NormalizeVolumeMapping(entries[k], volumes);
      var res := DrawMount(g, service, m);
      GrowsWithinTrans(old(g.vertices), known, g.vertices, VolumePrefix);
      if res.Err? {
        return Fail(res.error);
      }
      SourceBack(steps[k], old(g.vertices), known, VolumePrefix);
      SourcesSnoc(steps, k, old(g.vertices).Keys);
      DrawsExactlyChain(old(g.edges), before, g.edges, DrawingUpTo(steps, k), [steps[k].value]);
      k := k + 1;
    }
    r := Pass;
  }

  function PortSteps(service: string, entries: seq<PortEntry>): (steps: seq<Step>)
    ensures |steps| == |entries| && forall k :: 0 <= k < |entries| ==> steps[k] == PortStep(service, entries[k])
  {
    seq(|entries|, k requires 0 <= k < |entries| => PortStep(service, entries[k]))
  }

  /** Every published port gets its vertex, so the pass adds port vertices and nothing
      else. */
  method WalkPorts(g: Graph, service: string, entries: seq<PortEntry>) returns (r: Outcome<Failure>)
    requires g.Valid()
    modifies g
    ensures g.Valid() && GrowsWithin(old(g.vertices), g.vertices, PortPrefix) && g.attributes == old(g.attributes)
    ensures EdgesGrow(old(g.edges), g.edges)
    ensures r.Pass? <==> SourcesResolve(PortSteps(service, entries), old(g.vertices).Keys)
    ensures r.Pass? ==> DrawsExactly(old(g.edges), g.edges, Drawing(PortSteps(service, entries)))
  {
    ghost var steps := PortSteps(service, entries);
    DrawsNothing(g.edges);
    var k := 0;
    while k < |entries|
      invariant 0 <= k <= |entries|
      invariant g.Valid() && GrowsWithin(old(g.vertices), g.vertices, PortPrefix) && g.attributes == old(g.attributes)
      invariant SourcesUpTo(steps, k, old(g.vertices).Keys)
      invariant DrawsExactly(old(g.edges), g.edges, DrawingUpTo(steps, k))
    {
      ghost var before := g.edges;
      ghost var known := g.vertices;
      var res := DrawPort(g, service, entries[k]);
      GrowsWithinTrans(old(g.vertices), known, g.vertices, PortPrefix);
      if res.Err? {
        return Fail(res.error);
      }
      SourceBack(steps[k], old(g.vertices), known, PortPrefix);
      SourcesSnoc(steps, k, old(g.vertices).Keys);
      DrawsExactlyChain(old(g.edges), before, g.edges, DrawingUpTo(steps, k), [steps[k].value]);
      k := k + 1;
    }
    r := Pass;
  }

  function NetworkSteps(service: string, entries: seq<NetworkEntry>): (steps: seq<Step>)
    ensures |steps| == |entries| && forall k :: 0 <= k < |entries| ==> steps[k] == NetworkStep(service, entries[k])
  {
    seq(|entries|, k requires 0 <= k < |entries| => NetworkStep(service, entries[k]))
  }

  method WalkNetworks(g: Graph, service: string, entries: seq<NetworkEntry>) returns (r: Outcome<Failure>)
    requires g.Valid()
    modifies g
    ensures g.Valid() && g.vertices == old(g.vertices) && g.attributes == old(g.attributes)
    ensures EdgesGrow(old(g.edges), g.edges)
    ensures r.Pass? <==> AllResolve(NetworkSteps(service, entries), old(g.vertices).Keys)
    ensures r.Pass? ==> DrawsExactly(old(g.edges), g.edges, Drawing(NetworkSteps(service, entries)))
  {
    ghost var steps := NetworkSteps(service, entries);
    DrawsNothing(g.edges);
    var k := 0;
    while k < |entries|
      invariant 0 <= k <= |entries|
      invariant g.Valid() && g.vertices == old(g.vertices) && g.attributes == old(g.attributes)
      invariant ResolveUpTo(steps, k, g.vertices.Keys)
      invariant DrawsExactly(old(g.edges), g.edges, DrawingUpTo(steps, k))
    {
      ghost var before := g.edges;
      var res := DrawNetwork(g, service, entries[k]);
      if res.Err? {
        return Fail(res.error);
      }
      ResolveSnoc(steps, k, g.vertices.Keys);
      DrawsExactlyChain(old(g.edges), before, g.edges, DrawingUpTo(steps, k), [steps[k].value]);
      k := k + 1;
    }
    r := Pass;
  }

  function ConfigSteps(service: string, entries: seq<Grant>): (steps: seq<Step>)
    ensures |steps| == |entries| && forall k :: 0 <= k < |entries| ==> steps[k] == ConfigStep(service, entries[k])
  {
    seq(|entries|, k requires 0 <= k < |entries| => ConfigStep(service, entries[k]))
  }

  method WalkConfigs(g: Graph, service: string, entries: seq<Grant>) returns (r: Outcome<Failure>)
    requires g.Valid()
    modifies g
    ensures g.Valid() && g.vertices == old(g.vertices) && g.attributes == old(g.attributes)
    ensures EdgesGrow(old(g.edges), g.edges)
    ensures r.Pass? <==> AllResolve(ConfigSteps(service, entries), old(g.vertices).Keys)
    ensures r.Pass? ==> DrawsExactly(old(g.edges), g.edges, Drawing(ConfigSteps(service, entries)))
  {
    ghost var steps := ConfigSteps(service, entries);
    DrawsNothing(g.edges);
    var k := 0;
    while k < |entries|
      invariant 0 <= k <= |entries|
      invariant g.Valid() && g.vertices == old(g.vertices) && g.attributes == old(g.attributes)
      invariant ResolveUpTo(steps, k, g.vertices.Keys)
      invariant DrawsExactly(old(g.edges), g.edges, DrawingUpTo(steps, k))
    {
      ghost var before := g.edges;
      var res := DrawConfig(g, service, entries[k]);
      if res.Err? {
        return Fail(res.error);
      }
      ResolveSnoc(steps, k, g.vertices.Keys);
      DrawsExactlyChain(old(g.edges), before, g.edges, DrawingUpTo(steps, k), [steps[k].value]);
      k := k + 1;
    }
    r := Pass;
  }

  function SecretSteps(service: string, entries: seq<Grant>): (steps: seq<Step>)
    ensures |steps| == |entries| && forall k :: 0 <= k < |entries| ==> steps[k] == SecretStep(service, entries[k])
  {
    seq(|entries|, k requires 0 <= k < |entries| => SecretStep(service, entries[k]))
  }

  method WalkSecrets(g: Graph, service: string, entries: seq<Grant>) returns (r: Outcome<Failure>)
    requires g.Valid()
    modifies g
    ensures g.Valid() && g.vertices == old(g.vertices) && g.attributes == old(g.attributes)
    ensures EdgesGrow(old(g.edges), g.edges)
    ensures r.Pass? <==> AllResolve(SecretSteps(service, entries), old(g.vertices).Keys)
    ensures r.Pass? ==> DrawsExactly(old(g.edges), g.edges, Drawing(SecretSteps(service, entries)))
  {
    ghost var steps := SecretSteps(service, entries);
    DrawsNothing(g.edges);
    var k := 0;
    while k < |entries|
      invariant 0 <= k <= |entries|
      invariant g.Valid() && g.vertices == old(g.vertices) && g.attributes == old(g.attributes)
      invariant ResolveUpTo(steps, k, g.vertices.Keys)
      invariant DrawsExactly(old(g.edges), g.edges, DrawingUpTo(steps, k))
    {
      ghost var before := g.edges;
      var res := DrawSecret(g, service, entries[k]);
      if res.Err? {
        return Fail(res.error);
      }
      ResolveSnoc(steps, k, g.vertices.Keys);
      DrawsExactlyChain(old(g.edges), before, g.edges, DrawingUpTo(steps, k), [steps[k].value]);
      k := k + 1;
    }
    r := Pass;
  }
}
