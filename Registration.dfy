/** Registration: before any relation is drawn, every top-level volume, network, config
    and secret whose kind is switched on, and then every service, is looked up or
    created in declaration order. A registration is an id and the attributes its vertex
    gets when the id is new; the first registration of an id wins. */
module Registration {
  import opened Wrappers
  import opened Graphs
  import opened Compose
  import opened Flags
  import opened Service
  import opened Port
  import opened Volume
  import opened Network
  import opened Config
  import opened Secret
  import opened Namespaces

  type Registration = (string, Attributes)

  /** The vertices after the first `n` registrations, in order. */
  function RegisterUpTo(vertices: map<string, Attributes>, regs: seq<Registration>, n: nat): map<string, Attributes>
    requires n <= |regs|
  {
    if n == 0 then vertices else Registered(RegisterUpTo(vertices, regs, n - 1), regs[n - 1].0, regs[n - 1].1)
  }

  function RegisterAll(vertices: map<string, Attributes>, regs: seq<Registration>): map<string, Attributes> {
    RegisterUpTo(vertices, regs, |regs|)
  }

  /** One more registration. */
  lemma RegisterNext(vertices: map<string, Attributes>, regs: seq<Registration>, k: nat, id: string, attrs: Attributes)
    requires k < |regs| && regs[k] == (id, attrs)
    ensures RegisterUpTo(vertices, regs, k + 1) == Registered(RegisterUpTo(vertices, regs, k), id, attrs)
  {
  }

  /** Registering only adds vertices, and exactly the registered ids. */
  lemma {:induction false} RegisterUpToKeys(vertices: map<string, Attributes>, regs: seq<Registration>, n: nat)
    requires n <= |regs|
    ensures RegisterUpTo(vertices, regs, n).Keys == vertices.Keys + (set k | 0 <= k < n :: regs[k].0)
  {
    if n > 0 {
      RegisterUpToKeys(vertices, regs, n - 1);
      RegisterNext(vertices, regs, n - 1, regs[n - 1].0, regs[n - 1].1);
      var before := set k | 0 <= k < n - 1 :: regs[k].0;
      var after := set k | 0 <= k < n :: regs[k].0;
      assert after == before + {regs[n - 1].0} by {
        forall id | id in after ensures id in before + {regs[n - 1].0} {
          var k :| 0 <= k < n && regs[k].0 == id;
          if k < n - 1 {
            assert id in before;
          }
        }
      }
    }
  }

  /** Registering keeps every existing vertex as it was. */
  lemma {:induction false} RegisterGrows(vertices: map<string, Attributes>, regs: seq<Registration>, n: nat)
    requires n <= |regs|
    ensures Grows(vertices, RegisterUpTo(vertices, regs, n))
  {
    if n > 0 {
      RegisterGrows(vertices, regs, n - 1);
    }
  }

  /** A new id gets the attributes of its first registration; later registrations of
      the same id change nothing. */
  lemma {:induction false} FirstRegistrationWins(vertices: map<string, Attributes>, regs: seq<Registration>, n: nat, k: nat)
    requires k < n <= |regs| && regs[k].0 !in vertices
    requires forall j :: 0 <= j < k ==> regs[j].0 != regs[k].0
    ensures regs[k].0 in RegisterUpTo(vertices, regs, n)
    ensures RegisterUpTo(vertices, regs, n)[regs[k].0] == regs[k].1
  {
    if n == k + 1 {
      NotYetRegistered(vertices, regs, k, regs[k].0);
    } else {
      FirstRegistrationWins(vertices, regs, n - 1, k);
    }
  }

  /** An id none of the first `n` registrations names is untouched by them. */
  lemma {:induction false} NotYetRegistered(vertices: map<string, Attributes>, regs: seq<Registration>, n: nat, id: string)
    requires n <= |regs| && forall j :: 0 <= j < n ==> regs[j].0 != id
    ensures id in RegisterUpTo(vertices, regs, n) <==> id in vertices
    ensures id in vertices ==> RegisterUpTo(vertices, regs, n)[id] == vertices[id]
  {
    if n > 0 {
      NotYetRegistered(vertices, regs, n - 1, id);
    }
  }

  lemma {:induction false} RegisterPrefix(vertices: map<string, Attributes>, a: seq<Registration>, b: seq<Registration>, n: nat)
    requires n <= |a|
    ensures RegisterUpTo(vertices, a + b, n) == RegisterUpTo(vertices, a, n)
  {
    if n > 0 {
      RegisterPrefix(vertices, a, b, n - 1);
    }
  }

  lemma {:induction false} RegisterSuffix(vertices: map<string, Attributes>, a: seq<Registration>, b: seq<Registration>, n: nat)
    requires n <= |b|
    ensures RegisterUpTo(vertices, a + b, |a| + n) == RegisterUpTo(RegisterAll(vertices, a), b, n)
  {
    if n == 0 {
      RegisterPrefix(vertices, a, b, |a|);
    } else {
      RegisterSuffix(vertices, a, b, n - 1);
      assert (a + b)[|a| + n - 1] == b[n - 1];
    }
  }

  /** Registering two lists one after the other is registering their concatenation. */
  lemma RegisterAppend(vertices: map<string, Attributes>, a: seq<Registration>, b: seq<Registration>)
    ensures RegisterAll(vertices, a + b) == RegisterAll(RegisterAll(vertices, a), b)
  {
    RegisterSuffix(vertices, a, b, |b|);
  }

  // ---- the registration lists of each kind ----

  /** Top-level volumes are registered as named volumes. */
  function VolumeRegistrations(volumes: Section<VolumeDecl>): (regs: seq<Registration>)
    ensures |regs| == |volumes|
    ensures forall k :: 0 <= k < |volumes| ==> regs[k] == (VolumeId(volumes[k].0), VolumeAttributes(volumes[k].0, Some(Volume)))
  {
    seq(|volumes|, k requires 0 <= k < |volumes| => (VolumeId(volumes[k].0), VolumeAttributes(volumes[k].0, Some(Volume))))
  }

  function NetworkRegistrations(networks: Section<NetworkDecl>): (regs: seq<Registration>)
    ensures |regs| == |networks|
    ensures forall k :: 0 <= k < |networks| ==> regs[k] == (NetworkId(networks[k].0), NetworkAttributes(networks[k].0, networks[k].1))
  {
    seq(|networks|, k requires 0 <= k < |networks| => (NetworkId(networks[k].0), NetworkAttributes(networks[k].0, networks[k].1)))
  }

  function ConfigRegistrations(configs: Section<Unread>): (regs: seq<Registration>)
    ensures |regs| == |configs|
    ensures forall k :: 0 <= k < |configs| ==> regs[k] == (ConfigId(configs[k].0), ConfigAttributes(configs[k].0))
  {
    seq(|configs|, k requires 0 <= k < |configs| => (ConfigId(configs[k].0), ConfigAttributes(configs[k].0)))
  }

  function SecretRegistrations(secrets: Section<Unread>): (regs: seq<Registration>)
    ensures |regs| == |secrets|
    ensures forall k :: 0 <= k < |secrets| ==> regs[k] == (SecretId(secrets[k].0), SecretAttributes())
  {
    seq(|secrets|, k requires 0 <= k < |secrets| => (SecretId(secrets[k].0), SecretAttributes()))
  }

  /** Services are registered without a type, so none is drawn as external. */
  function ServiceRegistrations(services: Section<ServiceDef>): (regs: seq<Registration>)
    ensures |regs| == |services|
    ensures forall k :: 0 <= k < |services| ==> regs[k] == (ServiceId(services[k].0), ServiceAttributes(None))
  {
    seq(|services|, k requires 0 <= k < |services| => (ServiceId(services[k].0), ServiceAttributes(None)))
  }

  /** The registrations made before the services: volumes, networks, configs and
      secrets, each only when its kind is on. */
  function DeclarationRegistrations(volumes: Section<VolumeDecl>, networks: Section<NetworkDecl>,
                                    configs: Section<Unread>, secrets: Section<Unread>, flags: bv64): seq<Registration>
  {
    (if Processes(flags, WithoutVolumes) then VolumeRegistrations(volumes) else [])
    + (if Processes(flags, WithoutNetworks) then NetworkRegistrations(networks) else [])
    + (if Processes(flags, WithoutConfigs) then ConfigRegistrations(configs) else [])
    + (if Processes(flags, WithoutSecrets) then SecretRegistrations(secrets) else [])
  }

  /** Every registration the construction makes, in order. */
  function Registrations(services: Section<ServiceDef>, volumes: Section<VolumeDecl>, networks: Section<NetworkDecl>,
                         configs: Section<Unread>, secrets: Section<Unread>, flags: bv64): seq<Registration>
  {
    DeclarationRegistrations(volumes, networks, configs, secrets, flags) + ServiceRegistrations(services)
  }

  /** The entry at `k` is the first of its name in the section. */
  predicate FirstDeclared<T>(s: Section<T>, k: nat)
    requires k < |s|
  {
    forall j :: 0 <= j < k ==> s[j].0 != s[k].0
  }

  /** No registration in `regs` names `id`. */
  ghost predicate Avoids(regs: seq<Registration>, id: string) {
    forall j :: 0 <= j < |regs| ==> regs[j].0 != id
  }

  lemma AvoidsAppend(a: seq<Registration>, b: seq<Registration>, id: string)
    requires Avoids(a, id) && Avoids(b, id)
    ensures Avoids(a + b, id)
  {
    forall j | 0 <= j < |a + b|
      ensures (a + b)[j].0 != id
    {
      if j < |a| {
        assert (a + b)[j] == a[j];
      } else {
        assert (a + b)[j] == b[j - |a|];
      }
    }
  }

  /** No volume, network, config or secret registration names a service. */
  lemma DeclarationsAvoidService(volumes: Section<VolumeDecl>, networks: Section<NetworkDecl>,
                                 configs: Section<Unread>, secrets: Section<Unread>, flags: bv64, name: string)
    ensures Avoids(DeclarationRegistrations(volumes, networks, configs, secrets, flags), ServiceId(name))
  {
    var id := ServiceId(name);
    var a := VolumeRegistrations(volumes);
    var b := NetworkRegistrations(networks);
    var c := ConfigRegistrations(configs);
    var d := SecretRegistrations(secrets);
    forall j | 0 <= j < |a| ensures a[j].0 != id { KindsDisjoint(name, volumes[j].0); }
    forall j | 0 <= j < |b| ensures b[j].0 != id { KindsDisjoint(name, networks[j].0); }
    forall j | 0 <= j < |c| ensures c[j].0 != id { KindsDisjoint(name, configs[j].0); }
    forall j | 0 <= j < |d| ensures d[j].0 != id { KindsDisjoint(name, secrets[j].0); }
    var a' := if Processes(flags, WithoutVolumes) then a else [];
    var b' := if Processes(flags, WithoutNetworks) then b else [];
    var c' := if Processes(flags, WithoutConfigs) then c else [];
    var d' := if Processes(flags, WithoutSecrets) then d else [];
    AvoidsAppend(a', b', id);
    AvoidsAppend(a' + b', c', id);
    AvoidsAppend(a' + b' + c', d', id);
  }

  /** Every service declared in the document has a vertex afterwards; one that did not
      exist before gets the untyped service attributes of its first declaration, whatever
      volumes, networks, configs or secrets were registered before it. */
  lemma ServicesRegistered(vertices: map<string, Attributes>, services: Section<ServiceDef>, volumes: Section<VolumeDecl>,
                           networks: Section<NetworkDecl>, configs: Section<Unread>, secrets: Section<Unread>, flags: bv64, k: nat)
    requires k < |services| && FirstDeclared(services, k) && ServiceId(services[k].0) !in vertices
    ensures var r := RegisterAll(vertices, Registrations(services, volumes, networks, configs, secrets, flags));
            ServiceId(services[k].0) in r && r[ServiceId(services[k].0)] == ServiceAttributes(None)
  {
    var name := services[k].0;
    var pre := DeclarationRegistrations(volumes, networks, configs, secrets, flags);
    var s := ServiceRegistrations(services);
    DeclarationsAvoidService(volumes, networks, configs, secrets, flags, name);
    NotYetRegistered(vertices, pre, |pre|, ServiceId(name));
    forall j | 0 <= j < k
      ensures s[j].0 != s[k].0
    {
      IdsInjective(services[j].0, name);
    }
    FirstRegistrationWins(RegisterAll(vertices, pre), s, |s|, k);
    RegisterAppend(vertices, pre, s);
  }

  /** With volumes switched on, a declared volume that did not exist before is registered
      as a named (blue) volume; mounts that name it later find it and leave it so. */
  lemma DeclaredVolumesRegistered(vertices: map<string, Attributes>, services: Section<ServiceDef>, volumes: Section<VolumeDecl>,
                                  networks: Section<NetworkDecl>, configs: Section<Unread>, secrets: Section<Unread>, flags: bv64, k: nat)
    requires Processes(flags, WithoutVolumes)
    requires k < |volumes| && FirstDeclared(volumes, k) && VolumeId(volumes[k].0) !in vertices
    ensures var r := RegisterAll(vertices, Registrations(services, volumes, networks, configs, secrets, flags));
            VolumeId(volumes[k].0) in r && r[VolumeId(volumes[k].0)] == VolumeAttributes(volumes[k].0, Some(Volume))
  {
    var name := volumes[k].0;
    var a := VolumeRegistrations(volumes);
    var rest := VolumesFirst(services, volumes, networks, configs, secrets, flags);
    forall j | 0 <= j < k
      ensures a[j].0 != a[k].0
    {
      IdsInjective(volumes[j].0, name);
    }
    FirstRegistrationWins(vertices, a, |a|, k);
    RegisterGrows(RegisterAll(vertices, a), rest, |rest|);
    RegisterAppend(vertices, a, rest);
  }

  /** With volumes switched on, the registrations are the volumes' followed by the rest;
      returns the rest. */
  lemma VolumesFirst(services: Section<ServiceDef>, volumes: Section<VolumeDecl>, networks: Section<NetworkDecl>,
                     configs: Section<Unread>, secrets: Section<Unread>, flags: bv64) returns (rest: seq<Registration>)
    requires Processes(flags, WithoutVolumes)
    ensures Registrations(services, volumes, networks, configs, secrets, flags) == VolumeRegistrations(volumes) + rest
  {
    var b := if Processes(flags, WithoutNetworks) then NetworkRegistrations(networks) else [];
    var c := if Processes(flags, WithoutConfigs) then ConfigRegistrations(configs) else [];
    var d := if Processes(flags, WithoutSecrets) then SecretRegistrations(secrets) else [];
    rest := b + c + d + ServiceRegistrations(services);
    RegroupFirst(VolumeRegistrations(volumes), b, c, d, ServiceRegistrations(services));
  }

  lemma RegroupFirst(a: seq<Registration>, b: seq<Registration>, c: seq<Registration>, d: seq<Registration>, e: seq<Registration>)
    ensures a + b + c + d + e == a + (b + c + d + e)
  {
  }

  /** With networks switched on, a declared network that did not exist before is
      registered with the attributes of its first declaration (its label and whether it
      is external). */
  lemma DeclaredNetworksRegistered(vertices: map<string, Attributes>, services: Section<ServiceDef>, volumes: Section<VolumeDecl>,
                                   networks: Section<NetworkDecl>, configs: Section<Unread>, secrets: Section<Unread>, flags: bv64, k: nat)
    requires Processes(flags, WithoutNetworks)
    requires k < |networks| && FirstDeclared(networks, k) && NetworkId(networks[k].0) !in vertices
    ensures var r := RegisterAll(vertices, Registrations(services, volumes, networks, configs, secrets, flags));
            NetworkId(networks[k].0) in r && r[NetworkId(networks[k].0)] == NetworkAttributes(networks[k].0, networks[k].1)
  {
    var name := networks[k].0;
    var b := NetworkRegistrations(networks);
    var pre, rest := NetworksSecond(services, volumes, networks, configs, secrets, flags);
    forall j | 0 <= j < |pre|
      ensures pre[j].0 != NetworkId(name)
    {
      KindsDisjoint(volumes[j].0, name);
    }
    NotYetRegistered(vertices, pre, |pre|, NetworkId(name));
    forall j | 0 <= j < k
      ensures b[j].0 != b[k].0
    {
      IdsInjective(networks[j].0, name);
    }
    FirstRegistrationWins(RegisterAll(vertices, pre), b, |b|, k);
    RegisterGrows(RegisterAll(RegisterAll(vertices, pre), b), rest, |rest|);
    RegisterAppend(RegisterAll(vertices, pre), b, rest);
    RegisterAppend(vertices, pre, b + rest);
  }

  /** With networks switched on, the registrations are the volumes' (or none), then the
      networks', then the rest. */
  lemma NetworksSecond(services: Section<ServiceDef>, volumes: Section<VolumeDecl>, networks: Section<NetworkDecl>,
                       configs: Section<Unread>, secrets: Section<Unread>, flags: bv64) returns (pre: seq<Registration>, rest: seq<Registration>)
    requires Processes(flags, WithoutNetworks)
    ensures Registrations(services, volumes, networks, configs, secrets, flags) == pre + (NetworkRegistrations(networks) + rest)
    ensures |pre| == 0 || |pre| == |volumes|
    ensures forall j :: 0 <= j < |pre| ==> pre[j].0 == VolumeId(volumes[j].0)
  {
    pre := if Processes(flags, WithoutVolumes) then VolumeRegistrations(volumes) else [];
    var c := if Processes(flags, WithoutConfigs) then ConfigRegistrations(configs) else [];
    var d := if Processes(flags, WithoutSecrets) then SecretRegistrations(secrets) else [];
    rest := c + d + ServiceRegistrations(services);
    RegroupSecond(pre, NetworkRegistrations(networks), c, d, ServiceRegistrations(services));
  }

  lemma RegroupSecond(a: seq<Registration>, b: seq<Registration>, c: seq<Registration>, d: seq<Registration>, e: seq<Registration>)
    ensures a + b + c + d + e == a + (b + (c + d + e))
  {
  }

  /** With volumes switched off, no declared volume gets a vertex: no other kind's
      registration can create a volume id. */
  lemma SwitchedOffVolumesNotRegistered(vertices: map<string, Attributes>, services: Section<ServiceDef>, volumes: Section<VolumeDecl>,
                                        networks: Section<NetworkDecl>, configs: Section<Unread>, secrets: Section<Unread>,
                                        flags: bv64, name: string)
    requires !Processes(flags, WithoutVolumes) && VolumeId(name) !in vertices
    ensures VolumeId(name) !in RegisterAll(vertices, Registrations(services, volumes, networks, configs, secrets, flags))
  {
    var id := VolumeId(name);
    var b := NetworkRegistrations(networks);
    var c := ConfigRegistrations(configs);
    var d := SecretRegistrations(secrets);
    var s := ServiceRegistrations(services);
    forall j | 0 <= j < |b| ensures b[j].0 != id { KindsDisjoint(name, networks[j].0); }
    forall j | 0 <= j < |c| ensures c[j].0 != id { KindsDisjoint(name, configs[j].0); }
    forall j | 0 <= j < |d| ensures d[j].0 != id { KindsDisjoint(name, secrets[j].0); }
    forall j | 0 <= j < |s| ensures s[j].0 != id { KindsDisjoint(services[j].0, name); }
    var b' := if Processes(flags, WithoutNetworks) then b else [];
    var c' := if Processes(flags, WithoutConfigs) then c else [];
    var d' := if Processes(flags, WithoutSecrets) then d else [];
    var regs := Registrations(services, volumes, networks, configs, secrets, flags);
    assert regs == [] + b' + c' + d' + s;
    AvoidsAppend(b', c', id);
    AvoidsAppend(b' + c', d', id);
    AvoidsAppend(b' + c' + d', s, id);
    NotYetRegistered(vertices, regs, |regs|, id);
  }

  // ---- the registration loops ----

  method RegisterVolumes(g: Graph, volumes: Section<VolumeDecl>)
    requires g.Valid()
    modifies g
    ensures g.Valid() && g.edges == old(g.edges) && g.attributes == old(g.attributes)
    ensures g.vertices == RegisterAll(old(g.vertices), VolumeRegistrations(volumes))
  {
    ghost var regs := VolumeRegistrations(volumes);
    var k := 0;
    while k < |volumes|
      invariant 0 <= k <= |volumes|
      invariant g.Valid() && g.edges == old(g.edges) && g.attributes == old(g.attributes)
      invariant g.vertices == RegisterUpTo(old(g.vertices), regs, k)
    {
      RegisterNext(old(g.vertices), regs, k, VolumeId(volumes[k].0), VolumeAttributes(volumes[k].0, Some(Volume)));
      AddVolume(g, volumes[k].0, Some(Volume));
      k := k + 1;
    }
  }

  method RegisterNetworks(g: Graph, networks: Section<NetworkDecl>)
    requires g.Valid()
    modifies g
    ensures g.Valid() && g.edges == old(g.edges) && g.attributes == old(g.attributes)
    ensures g.vertices == RegisterAll(old(g.vertices), NetworkRegistrations(networks))
  {
    ghost var regs := NetworkRegistrations(networks);
    var k := 0;
    while k < |networks|
      invariant 0 <= k <= |networks|
      invariant g.Valid() && g.edges == old(g.edges) && g.attributes == old(g.attributes)
      invariant g.vertices == RegisterUpTo(old(g.vertices), regs, k)
    {
      RegisterNext(old(g.vertices), regs, k, NetworkId(networks[k].0), NetworkAttributes(networks[k].0, networks[k].1));
      AddNetwork(g, networks[k].0, networks[k].1);
      k := k + 1;
    }
  }

  method RegisterConfigs(g: Graph, configs: Section<Unread>)
    requires g.Valid()
    modifies g
    ensures g.Valid() && g.edges == old(g.edges) && g.attributes == old(g.attributes)
    ensures g.vertices == RegisterAll(old(g.vertices), ConfigRegistrations(configs))
  {
    ghost var regs := ConfigRegistrations(configs);
    var k := 0;
    while k < |configs|
      invariant 0 <= k <= |configs|
      invariant g.Valid() && g.edges == old(g.edges) && g.attributes == old(g.attributes)
      invariant g.vertices == RegisterUpTo(old(g.vertices), regs, k)
    {
      RegisterNext(old(g.vertices), regs, k, ConfigId(configs[k].0), ConfigAttributes(configs[k].0));
      AddConfig(g, configs[k].0);
      k := k + 1;
    }
  }

  method RegisterSecrets(g: Graph, secrets: Section<Unread>)
    requires g.Valid()
    modifies g
    ensures g.Valid() && g.edges == old(g.edges) && g.attributes == old(g.attributes)
    ensures g.vertices == RegisterAll(old(g.vertices), SecretRegistrations(secrets))
  {
    ghost var regs := SecretRegistrations(secrets);
    var k := 0;
    while k < |secrets|
      invariant 0 <= k <= |secrets|
      invariant g.Valid() && g.edges == old(g.edges) && g.attributes == old(g.attributes)
      invariant g.vertices == RegisterUpTo(old(g.vertices), regs, k)
    {
      RegisterNext(old(g.vertices), regs, k, SecretId(secrets[k].0), SecretAttributes());
      AddSecret(g, secrets[k].0);
      k := k + 1;
    }
  }

  method RegisterServices(g: Graph, services: Section<ServiceDef>)
    requires g.Valid()
    modifies g
    ensures g.Valid() && g.edges == old(g.edges) && g.attributes == old(g.attributes)
    ensures g.vertices == RegisterAll(old(g.vertices), ServiceRegistrations(services))
  {
    ghost var regs := ServiceRegistrations(services);
    var k := 0;
    while k < |services|
      invariant 0 <= k <= |services|
      invariant g.Valid() && g.edges == old(g.edges) && g.attributes == old(g.attributes)
      invariant g.vertices == RegisterUpTo(old(g.vertices), regs, k)
    {
      RegisterNext(old(g.vertices), regs, k, ServiceId(services[k].0), ServiceAttributes(None));
      AddService(g, services[k].0, None);
      k := k + 1;
    }
  }

  /** The registration half of the construction. */
  method RegisterDeclared(g: Graph, services: Section<ServiceDef>, volumes: Section<VolumeDecl>, networks: Section<NetworkDecl>,
                          configs: Section<Unread>, secrets: Section<Unread>, flags: bv64)
    requires g.Valid()
    modifies g
    ensures g.Valid() && g.edges == old(g.edges) && g.attributes == old(g.attributes)
    ensures g.vertices == RegisterAll(old(g.vertices), Registrations(services, volumes, networks, configs, secrets, flags))
  {
    ghost var v0 := g.vertices;
    ghost var a := if Processes(flags, WithoutVolumes) then VolumeRegistrations(volumes) else [];
    ghost var b := if Processes(flags, WithoutNetworks) then NetworkRegistrations(networks) else [];
    ghost var c := if Processes(flags, WithoutConfigs) then ConfigRegistrations(configs) else [];
    ghost var d := if Processes(flags, WithoutSecrets) then SecretRegistrations(secrets) else [];
    if Processes(flags, WithoutVolumes) {
      RegisterVolumes(g, volumes);
    }
    assert g.vertices == RegisterAll(v0, a);
    if Processes(flags, WithoutNetworks) {
      RegisterNetworks(g, networks);
    }
    RegisterAppend(v0, a, b);
    assert g.vertices == RegisterAll(v0, a + b);
    if Processes(flags, WithoutConfigs) {
      RegisterConfigs(g, configs);
    }
    RegisterAppend(v0, a + b, c);
    assert g.vertices == RegisterAll(v0, a + b + c);
    if Processes(flags, WithoutSecrets) {
      RegisterSecrets(g, secrets);
    }
    RegisterAppend(v0, a + b + c, d);
    assert g.vertices == RegisterAll(v0, a + b + c + d);
    assert a + b + c + d == DeclarationRegistrations(volumes, networks, configs, secrets, flags);
    RegisterServices(g, services);
    RegisterAppend(v0, a + b + c + d, ServiceRegistrations(services));
  }

  /** Registration never creates a port vertex: ports exist only once a port pass
      draws them. */
  lemma PortsNeverRegistered(vertices: map<string, Attributes>, services: Section<ServiceDef>, volumes: Section<VolumeDecl>,
                             networks: Section<NetworkDecl>, configs: Section<Unread>, secrets: Section<Unread>,
                             flags: bv64, name: string)
    requires PortId(name) !in vertices
    ensures PortId(name) !in RegisterAll(vertices, Registrations(services, volumes, networks, configs, secrets, flags))
  {
    var id := PortId(name);
    var a := VolumeRegistrations(volumes);
    var b := NetworkRegistrations(networks);
    var c := ConfigRegistrations(configs);
    var d := SecretRegistrations(secrets);
    var s := ServiceRegistrations(services);
    forall j | 0 <= j < |a| ensures a[j].0 != id { KindsDisjoint(name, volumes[j].0); }
    forall j | 0 <= j < |b| ensures b[j].0 != id { KindsDisjoint(name, networks[j].0); }
    forall j | 0 <= j < |c| ensures c[j].0 != id { KindsDisjoint(name, configs[j].0); }
    forall j | 0 <= j < |d| ensures d[j].0 != id { KindsDisjoint(name, secrets[j].0); }
    forall j | 0 <= j < |s| ensures s[j].0 != id { KindsDisjoint(services[j].0, name); }
    var a' := if Processes(flags, WithoutVolumes) then a else [];
    var b' := if Processes(flags, WithoutNetworks) then b else [];
    var c' := if Processes(flags, WithoutConfigs) then c else [];
    var d' := if Processes(flags, WithoutSecrets) then d else [];
    AvoidsAppend(a', b', id);
    AvoidsAppend(a' + b', c', id);
    AvoidsAppend(a' + b' + c', d', id);
    AvoidsAppend(a' + b' + c' + d', s, id);
    var regs := Registrations(services, volumes, networks, configs, secrets, flags);
    NotYetRegistered(vertices, regs, |regs|, id);
  }
}
