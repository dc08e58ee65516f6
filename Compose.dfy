/** The already-decoded Compose document the engine consumes. A YAML mapping becomes a
    `Section`: its entries in document order, keyed by name. Absent keys, and keys whose
    value is null, are `None` (or an empty list for the per-service relation lists, which
    the engine reads with `?? []`). Scalars are strings: the integers YAML can also
    produce, which the engine rejects with type errors, are not modelled. */
module Compose {
  import opened Wrappers

  /** A YAML mapping from names to values, in document order. */
  type Section<T> = seq<(string, T)>

  /** The names of a section, in order. */
  function Keys<T>(s: Section<T>): (ks: seq<string>)
    ensures |ks| == |s|
    ensures forall k :: 0 <= k < |s| ==> ks[k] == s[k].0
  {
    seq(|s|, k requires 0 <= k < |s| => s[k].0)
  }

  /** The `extends` entry of a service: the service it extends (null when absent). The
      `file` key is not part of this model. */
  datatype Extends = Extends(service: Option<string>)

  /** One `depends_on` entry: a bare service name (list form), or a service name with
      its options (mapping form), of which only `condition` is read. */
  datatype DependsEntry =
    | DependsName(name: string)
    | DependsRecord(name: string, condition: Option<string>)

  /** The long form of a volume mount, and the record the short form normalises to. */
  datatype VolumeMapping = VolumeMapping(
    kind: Option<string>,
    source: Option<string>,
    target: Option<string>,
    readOnly: Option<bool>)

  /** One `volumes` entry of a service: a colon string or a record. */
  datatype VolumeEntry =
    | VolumeShort(text: string)
    | VolumeLong(mapping: VolumeMapping)

  /** The long form of a port, and the record the short form normalises to. */
  datatype PortMapping = PortMapping(
    hostIp: Option<string>,
    published: Option<string>,
    target: Option<string>,
    proto: Option<string>)

  /** One `ports` entry of a service: a colon string or a record. */
  datatype PortEntry =
    | PortShort(text: string)
    | PortLong(mapping: PortMapping)

  /** One `networks` entry of a service: a name in list form (integer key), or a name
      keyed to its options in mapping form, of which only `aliases` is read. */
  datatype NetworkEntry =
    | NetworkListed(name: string)
    | NetworkKeyed(name: string, aliases: seq<string>)

  /** One `configs` or `secrets` entry of a service: a bare name, or a record of which
      `source` and `target` are read. */
  datatype Grant =
    | GrantName(name: string)
    | GrantRecord(source: Option<string>, target: Option<string>)

  /** A service definition (`extended` is its `extends` key); a list the document
      leaves out is empty. */
  datatype ServiceDef = ServiceDef(
    extended: Option<Extends>,
    links: seq<string>,
    externalLinks: seq<string>,
    dependsOn: seq<DependsEntry>,
    volumesFrom: seq<string>,
    volumes: seq<VolumeEntry>,
    ports: seq<PortEntry>,
    networks: seq<NetworkEntry>,
    configs: seq<Grant>,
    secrets: seq<Grant>)

  /** The value of a top-level volume: only a plain string value is ever compared with
      a mount source; a null or a mapping never equals one. */
  datatype VolumeDecl = VolumeText(text: string) | VolumeOther

  /** The value of a top-level network, of which `name` and `external` are read (a null
      value reads as both absent). `external` is a boolean when present. */
  datatype NetworkDecl = NetworkDecl(name: Option<string>, external: Option<bool>)

  /** The value of a top-level config or secret, which the engine never reads. */
  datatype Unread = Unread

  datatype Document = Document(
    services: Option<Section<ServiceDef>>,
    volumes: Option<Section<VolumeDecl>>,
    networks: Option<Section<NetworkDecl>>,
    configs: Option<Section<Unread>>,
    secrets: Option<Section<Unread>>)
}
