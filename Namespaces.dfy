/** The vertex ids of the six kinds live in disjoint namespaces, and within a kind the
    id determines the name. */
module Namespaces {
  import opened Service
  import opened Port
  import opened Volume
  import opened Network
  import opened Config
  import opened Secret

  predicate HasPrefix(id: string, prefix: string) {
    |prefix| <= |id| && id[..|prefix|] == prefix
  }

  /** The ids a relation pass may create on the fly: ports and mounted volumes. */
  predicate Creatable(id: string) {
    HasPrefix(id, PortPrefix) || HasPrefix(id, VolumePrefix)
  }

  /** Services, networks, configs and secrets are only ever registered, never created by
      a relation pass. */
  lemma RegisteredKindsNotCreatable(name: string)
    ensures !Creatable(ServiceId(name)) && !Creatable(NetworkId(name))
    ensures !Creatable(ConfigId(name)) && !Creatable(SecretId(name))
  {
    assert ServiceId(name)[0] == 's' && NetworkId(name)[0] == 'n';
    assert ConfigId(name)[0] == 'c' && SecretId(name)[0] == 's';
  }

  lemma CreatableKinds(name: string)
    ensures Creatable(PortId(name)) && Creatable(VolumeId(name))
  {
  }

  /** Within a kind, different names give different ids. */
  lemma IdsInjective(a: string, b: string)
    requires a != b
    ensures ServiceId(a) != ServiceId(b) && PortId(a) != PortId(b) && VolumeId(a) != VolumeId(b)
    ensures NetworkId(a) != NetworkId(b) && ConfigId(a) != ConfigId(b) && SecretId(a) != SecretId(b)
  {
    assert ServiceId(a)[|ServicePrefix|..] == a && ServiceId(b)[|ServicePrefix|..] == b;
    assert PortId(a)[|PortPrefix|..] == a && PortId(b)[|PortPrefix|..] == b;
    assert VolumeId(a)[|VolumePrefix|..] == a && VolumeId(b)[|VolumePrefix|..] == b;
    assert NetworkId(a)[|NetworkPrefix|..] == a && NetworkId(b)[|NetworkPrefix|..] == b;
    assert ConfigId(a)[|ConfigPrefix|..] == a && ConfigId(b)[|ConfigPrefix|..] == b;
    assert SecretId(a)[|SecretPrefix|..] == a && SecretId(b)[|SecretPrefix|..] == b;
  }

  /** Ids of different kinds never coincide, whatever the names. */
  lemma KindsDisjoint(a: string, b: string)
    ensures ServiceId(a) != PortId(b) && ServiceId(a) != VolumeId(b) && ServiceId(a) != NetworkId(b)
    ensures ServiceId(a) != ConfigId(b) && ServiceId(a) != SecretId(b)
    ensures PortId(a) != VolumeId(b) && PortId(a) != NetworkId(b) && PortId(a) != ConfigId(b) && PortId(a) != SecretId(b)
    ensures VolumeId(a) != NetworkId(b) && VolumeId(a) != ConfigId(b) && VolumeId(a) != SecretId(b)
    ensures NetworkId(a) != ConfigId(b) && NetworkId(a) != SecretId(b)
    ensures ConfigId(a) != SecretId(b)
  {
    assert ServiceId(a)[0] == 's' && ServiceId(a)[2] == 'r';
    assert SecretId(b)[0] == 's' && SecretId(b)[2] == 'c';
    assert PortId(a)[0] == 'p' && VolumeId(a)[0] == 'v' && NetworkId(a)[0] == 'n' && ConfigId(a)[0] == 'c';
    assert PortId(b)[0] == 'p' && VolumeId(b)[0] == 'v' && NetworkId(b)[0] == 'n' && ConfigId(b)[0] == 'c';
  }
}
