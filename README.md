# docker-compose-viz graph engine, in Dafny

This project models the graph-building engine of docker-compose-viz. The engine turns an already-decoded Compose document into a typed directed multigraph. Its vertices are services, volumes, networks, ports, configs and secrets. Its edges are the relations between them: extends, links, external links, depends_on, volumes_from, volume mounts, published ports, networks, configs and secrets. It then styles the graph for Graphviz. The project also models how the engine chooses the Compose files to read: each given path, followed by its `.override.` file.

The model follows the code, one module per concept:

- `Wrappers`: the option and result types, and the failures the engine raises.
  - A vertex lookup that misses becomes `VertexNotFound(id)`. This is the graph library's out-of-bounds exception.
  - A strict-types call that receives null becomes `TypeError`.
  - A missing input file becomes `FileMissing(path)`.
- `Strings`: PHP's `explode`, `implode` and `array_values(array_filter(...))` on strings.
- `Compose`: the decoded document as ordered sections, and the shapes of service entries.
- `Graphs`: the part of the graph library the engine uses.
  - A `Graph` class holds a vertex map of attribute bags, a sequence of edges, and graph attributes.
  - Lookup-or-create of a typed edge is the scan every relation builder runs.
  - The store's invariants are stated here: one vertex per id, and at most one edge per (source, target, type).
- `Service`, `Port`, `Volume`, `Network`, `Config`, `Secret`: one module per source file.
  - Each has the id builder, the lookup-or-create of its vertex, its relation builder and its shorthand normaliser.
  - Each builder is a method on the `Graph` whose contract states the new vertices and edges, including the failure cases.
- `Flags`: the `WITHOUT_*` bitmask.
- `Namespaces`: the kinds' id prefixes are disjoint, and each id builder is injective.
- `Passes`: one entry of each per-service relation list.
  - The entry becomes a step: the relation it draws, or the type error its shape raises.
  - A method hands the normalised entry to its builder.
- `Walks`: the loop over one relation list.
  - A walk succeeds exactly when every step resolves.
  - A successful walk draws exactly the steps' relations.
- `Registration`: the lookup-or-create of every declared entity, in document order, before any relation is drawn.
- `Construction`: `makeVerticesAndEdges` and `createGraph`.
  - Registration comes first, then, service by service, the relation passes in the engine's order, each gated by its flag.
  - The result is stated against the document: which lookups must succeed, and which relations are drawn.
- `AsWritten`: the relation passes and the construction exactly as PHP runs them, which differ from the intended passes (see Findings). Each service is built by the intended passes over its as-written definition: the first entry of every list walked by `iterator_apply`, and the depends_on entry the volumes_from callback reads.
- `Style`: `applyGraphvizStyle`.
- `ConfigurationFiles`: `findOverride` and `findConfigurationFiles`, with file existence given as a set of existing paths.

Behaviours of the code that the model keeps:

- A port vertex's id depends only on the published port. The host address and the protocol do not affect it.
- `normalizePortMapping` has no `tcp` default, and the target keeps its `/proto` suffix.
- A port shorthand of more than three parts is a type error, not a record of nulls: `explode('/', null)` is rejected under strict types. A volume shorthand of more than three parts is accepted: the first three parts give source, target and modes, and the rest is ignored.
- Volume access modes are split on `", "` exactly, so `ro,z` is not read-only.
- Only networks are drawn gray when `external` is set. Declared volumes are drawn blue.
- Vertex styles are written when each vertex is created. Edge styles are written each time a relation is drawn, on a new edge or on the existing edge it reuses. The styling step only sets graph attributes.

## Model

| member | source | states |
|---|---|---|
| Strings.Explode | src/service.php:222 | explode gives at least one piece, the pieces rejoined with the delimiter give back the string, and no piece holds the delimiter |
| Strings.ExplodeImplode | src/service.php:222-224 | explode on one character undoes implode of pieces free of that character |
| Strings.ExplodeChar | src/service.php:222-224 | the first piece is a prefix of the string, and a string without the delimiter is its own single piece |
| Strings.ExplodeImplodeBy | src/volume.php:95 | explode undoes implode for any delimiter that each piece, followed by the delimiter, first contains right after the piece |
| Strings.ExplodeImplodeCommaSpace | src/volume.php:95 | explode on `", "` undoes implode of any pieces holding no `", "`, even pieces that end in a comma |
| Strings.ExplodeFirst | src/service.php:222 | on one character, the first piece is the longest prefix free of it, a second piece exists exactly when the character occurs, and the rest are the explode of what follows its first occurrence |
| Strings.ExplodeRuns | src/service.php:222-224 | the first two pieces are the runs of the string before and after the first occurrence of the character |
| Strings.ExplodeFirstThree | src/volume.php:93-95 | three pieces free of the delimiter character, joined by it and followed by nothing or by text starting with it, are the first three pieces of the explode |
| Strings.RunUnique | src/service.php:222-224 | a run is determined by where it starts, so the runs pin down the pieces |
| Strings.ExplodeCount | src/port.php:79-95 | an explode on one character gives one more piece than the string holds that character |
| Strings.FilterFalsy | src/port.php:97 | a piece is kept exactly when it is among the input and truthy (`""` and `"0"` are dropped); every kept piece is truthy |
| Strings.FilterFalsyAppend | src/port.php:97 | filtering keeps order and multiplicity: the filter of a concatenation is the concatenation of the filters |
| Strings.FilterFalsyOne | src/port.php:97 | a single piece is kept exactly when it is truthy; with the previous row this fixes the filter on every list |
| Graphs.FindFirst | src/service.php:57-67 | the scan finds the first edge, in creation order, that joins source to target under the wanted type, or reports that none does |
| Graphs.Graph.FindEdgeTo | src/service.php:57-67 | the edge scan loop returns the first matching edge or none |
| Graphs.Chosen | src/service.php:69-71 | the builder writes to an existing edge exactly when one already carries the relation, else to a new position at the end |
| Graphs.Ensured | src/service.php:69-71 | edges are only appended, at most one, and the chosen edge carries the relation |
| Graphs.ChosenAttributes | src/service.php:57-73 | a reused edge keeps its bag; a new edge starts with only its type |
| Graphs.Restyled | src/service.php:73-76 | restyling one edge leaves every other edge as it was |
| Graphs.KeepsType | src/service.php:73-76 | setting styles never changes the edge's type |
| Graphs.Missing | src/service.php:52-53 | a relation fails exactly when an endpoint is absent; the source is looked up first |
| Graphs.Registered | src/service.php:27-31 | lookup-or-create adds only the id, keeps every existing vertex, and gives a new id the given attributes |
| Graphs.RegisterTwiceKeepsFirst | src/volume.php:34-36 | a second lookup-or-create of an id changes nothing, whatever attributes it carries |
| Graphs.FirstSurvives | src/service.php:60-66 | once a relation is drawn, appending edges never changes which edge the scan finds |
| Graphs.EnsuredWellFormed | src/service.php:69-71 | finding or creating an edge keeps at most one edge per (source, target, type) |
| Graphs.RelatedDrawsExactly | src/service.php:57-76 | a builder call draws exactly its relation and keeps every other relation's edge |
| Graphs.RelateTwiceReuses | src/service.php:57-71 | a second identical builder call reuses the edge drawn by the first and adds none |
| Graphs.Graph.constructor | src/functions.php:83 | a new graph is empty |
| Graphs.Graph.GetVertex | src/port.php:42 | a vertex lookup succeeds exactly for a held id, and otherwise raises not-found for that id |
| Graphs.Graph.CreateVertex | src/service.php:31 | a new vertex with an empty bag; nothing else changes |
| Graphs.Graph.SetVertexAttribute | src/service.php:32 | sets one key on one vertex; nothing else changes |
| Graphs.Graph.CreateShapedVertex | src/service.php:31-33 | a new vertex with exactly its type and shape |
| Graphs.Graph.CreateLabelledVertex | src/config.php:32-35 | a new vertex with exactly its type, label and shape |
| Graphs.Graph.FindOrCreateEdge | src/service.php:57-71 | reuses the first edge of the same type between the endpoints, or appends one; an edge of another type does not count |
| Graphs.Graph.Relate | src/service.php:52-71 | both endpoints are looked up before any change; a failed lookup changes nothing and names the missing id |
| Graphs.Graph.SetEdgeAttribute | src/service.php:73 | sets one key on one edge; nothing else changes |
| Graphs.Graph.SetAttribute | src/functions.php:214 | sets one graph attribute; vertices and edges are unchanged |
| Graphs.Graph.Clone | src/functions.php:213 | a fresh graph with the same vertices, edges and attributes |
| Service.FetchServices | src/service.php:13-16 | the services section, or an empty one when the key is absent |
| Service.ServiceId | src/service.php:18-21 | the id is `service:` followed by the name, which it determines |
| Service.ServiceAttributes | src/service.php:31-37 | type `service`, shape `component`, and gray exactly for the `external_service` kind, nothing else |
| Service.AddService | src/service.php:23-40 | lookup-or-create: an existing vertex keeps its attributes; a new one gets the service attributes; edges are untouched |
| Service.FindServiceVertex | src/service.php:42-45 | the service's vertex, or not-found for its id |
| Service.ExtendsAttributes | src/service.php:73-76 | dir `both`, arrowhead `inv`, arrowtail `dot`; every other key is kept |
| Service.LinkAttributes | src/service.php:105-110 | style `solid`, and the label only when an alias is given; every other key is kept |
| Service.ExternalLinkAttributes | src/service.php:139-145 | style `solid`, color `gray`, and the label only when an alias is given |
| Service.DependsAttributes | src/service.php:174-184 | style `dotted`; a condition becomes the label, or is appended as ` (condition)` to an existing label |
| Service.VolumesFromAttributes | src/service.php:213-214 | style `dashed`; every other key is kept |
| Service.AddExtendsRelation | src/service.php:50-77 | fails with nothing changed when either service is missing; otherwise reuses or adds the extends edge and styles it |
| Service.AddLinkRelation | src/service.php:82-111 | the same, for a link edge with an optional alias |
| Service.AddExternalLinkRelation | src/service.php:116-146 | the same, for an external link edge; the linked service must exist |
| Service.AddDependsRelation | src/service.php:151-185 | the same, for a depends edge with an optional condition |
| Service.AddVolumesFromRelation | src/service.php:190-215 | the same, for a volumes_from edge |
| Service.NormalizeLinkMapping | src/service.php:220-225 | the name is the whole run before the first colon; when a colon occurs the alias is the whole run after it, up to the next colon or the end; a mapping without a colon is both name and alias |
| Service.LinkMappingRoundTrip | src/service.php:220-225 | `name:alias`, alone or followed by any text starting with a colon, normalises to its first two halves |
| Port.PortId | src/port.php:10-13 | the id is `port:` followed by the published port only |
| Port.PortLabel | src/port.php:17-22 | the published port, prefixed by `host_ip:` when a host address is set |
| Port.PortAttributes | src/port.php:28-35 | type `port`, the label, shape `circle`, and dashed exactly when the protocol is udp |
| Port.AddPort | src/port.php:15-38 | lookup-or-create of the published port's vertex; without a published port it is a type error and nothing changes |
| Port.PortEdgeAttributes | src/port.php:62-67 | style `solid`, and the label only when there is a target |
| Port.AddPortRelation | src/port.php:40-68 | fails with nothing changed when the service is missing; otherwise creates the port if needed and reuses or adds the port edge |
| Port.ProtoOf | src/port.php:97-101 | the protocol is a truthy piece without `/`; a target without `/` has none |
| Port.ProtoOfSuffix | src/port.php:97-101 | `port/proto` yields `proto` |
| Port.ProtoOfPieces | src/port.php:97-101 | for any target made of pieces free of `/`, the protocol is the second truthy piece, and there is none when fewer than two pieces are truthy |
| Port.NormalizePortMapping | src/port.php:73-108 | a record is kept; a string succeeds exactly when it has at most three colon parts, and then reads the protocol off the target |
| Port.PortShortOne | src/port.php:85-87 | one part is both published port and target |
| Port.PortShortTwo | src/port.php:88-90 | two parts are published port and target |
| Port.PortShortThree | src/port.php:91-94 | three parts are host address, published port and target |
| Port.PortShortTooMany | src/port.php:79-97 | four or more parts are a type error |
| Volume.FetchVolumes | src/volume.php:19-22 | the volumes section, or an empty one when the key is absent |
| Volume.VolumeId | src/volume.php:24-27 | the id is `volume:` followed by the name |
| Volume.VolumeAttributes | src/volume.php:38-45 | type `volume`, label the name, shape `pentagon`, and blue exactly for a declared volume |
| Volume.AddVolume | src/volume.php:29-48 | lookup-or-create: an existing vertex keeps its attributes whatever kind is passed later |
| Volume.VolumeEdgeAttributes | src/volume.php:72-81 | style `dashed`, dir `both` unless read-only, and the label only with a target; other keys are kept |
| Volume.AddVolumeRelation | src/volume.php:50-82 | service, then source, then volume are checked, and a failure changes nothing; otherwise the volume edge is reused or added |
| Volume.ReadOnlyOf | src/volume.php:95-103 | read-only exactly when `ro` is among the modes split on `", "`; the next row states what this means for every list of modes |
| Volume.ReadOnlyOfImplode | src/volume.php:95-103 | for every list of modes holding no `", "`, the modes joined with `", "` are read-only exactly when one of them is `ro` |
| Volume.NormalizeVolumeMapping | src/volume.php:87-105 | a record is kept; a string gives as source the whole run before the first colon, as target the whole run after it (or the source when there is no colon), writable when there is no colon (VolumeShortTwo and VolumeShortThree state read-only for one colon and for two or more), and `volume` exactly when the source is a top-level value, else `bind` |
| Volume.WritableByDefault | src/volume.php:95 | the default mode `rw` is not read-only |
| Volume.VolumeShortTwo | src/volume.php:93-103 | `source:target` splits into its two halves and is writable |
| Volume.VolumeShortThree | src/volume.php:93-103 | `source:target:modes`, alone or followed by any text starting with a colon, takes source, target and read-only (from the modes) from its first three parts; with the no-colon case of NormalizeVolumeMapping and VolumeShortTwo, this fixes source, target and read-only for every shorthand |
| Volume.ReadOnlyModes | src/volume.php:95-103 | `ro` and `z, ro` are read-only; `rw` and `ro,z` are not |
| Network.FetchNetworks | src/network.php:13-16 | the networks section, or an empty one when the key is absent |
| Network.NetworkId | src/network.php:18-21 | the id is `net:` followed by the name |
| Network.NetworkAttributes | src/network.php:26-39 | type `network`, label the declared `name` or else the key, shape `pentagon`, and gray whenever `external` is present |
| Network.AddNetwork | src/network.php:23-42 | lookup-or-create: an existing vertex keeps its attributes |
| Network.NetworkEdgeAttributes | src/network.php:69-75 | the label is the aliases joined by `", "` when there is at least one; otherwise it is untouched |
| Network.AddNetworkRelation | src/network.php:47-76 | fails with nothing changed when the service or network is missing; never creates the network |
| Config.FetchConfigs | src/config.php:13-16 | the configs section, or an empty one when the key is absent |
| Config.ConfigId | src/config.php:18-21 | the id is `config:` followed by the name |
| Config.ConfigAttributes | src/config.php:32-35 | exactly type `config`, label the name, and shape `note` |
| Config.AddConfig | src/config.php:23-38 | lookup-or-create: an existing vertex keeps its attributes |
| Config.FindConfigVertex | src/config.php:40-43 | the config's vertex, or not-found for its id |
| Config.ConfigEdgeAttributes | src/config.php:70-74 | the label only when the grant has a target |
| Config.AddConfigRelation | src/config.php:48-75 | fails with nothing changed when the service or config is missing; never creates the config |
| Secret.FetchSecrets | src/secret.php:13-16 | the secrets section, or an empty one when the key is absent |
| Secret.SecretId | src/secret.php:18-21 | the id is `secret:` followed by the name |
| Secret.SecretAttributes | src/secret.php:31-33 | type `secret`, shape `hexagon`, and no label |
| Secret.AddSecret | src/secret.php:23-36 | lookup-or-create: an existing vertex keeps its attributes |
| Secret.GrantSource | src/secret.php:45-49 | a bare name is the secret itself; a record names its `source` |
| Secret.GrantTarget | src/secret.php:71-73 | only a record's `target` labels the edge; a bare name never does |
| Secret.SecretEdgeAttributes | src/secret.php:69-73 | the label only when the grant is a record with a target |
| Secret.AddSecretRelation | src/secret.php:41-74 | service first, then a record without source is a type error, then the secret must exist; a failure changes nothing |
| Flags.FlagsAreDistinctBits | src/functions.php:14-18 | each flag is a single bit, and no two flags share it |
| Flags.FlagsIndependent | src/functions.php:88-108 | setting one flag switches off its own kind and no other |
| Flags.NoFlagsProcessesAll | src/functions.php:88 | with no flags, every kind is processed |
| Namespaces.IdsInjective | src/service.php:18-21 | within a kind, different names give different ids |
| Namespaces.KindsDisjoint | src/network.php:18-21 | ids of different kinds never coincide |
| Namespaces.RegisteredKindsNotCreatable | src/functions.php:166-178 | relation passes never create service, network, config or secret ids |
| Namespaces.CreatableKinds | src/port.php:43 | port and volume ids are the ones a relation pass may create |
| Passes.Drew | src/service.php:73 | a builder call whose styling keeps the type draws exactly its relation |
| Passes.ExtendsStep | src/functions.php:137 | the extends step never names a creatable id |
| Passes.DrawExtends | src/functions.php:137 | succeeds exactly when the step resolves against the vertices, and then draws exactly its relation; a failure leaves the edges unchanged |
| Passes.LinkStep | src/functions.php:140-144 | a link step never names a creatable id |
| Passes.DrawLink | src/functions.php:140-144 | the same, for one links entry |
| Passes.ExternalLinkStep | src/functions.php:146-150 | an external link step never names a creatable id |
| Passes.DrawExternalLink | src/functions.php:146-150 | the same, for one external_links entry |
| Passes.DependsStep | src/functions.php:152-157 | a depends step never names a creatable id |
| Passes.DrawDepends | src/functions.php:152-157 | the same, for one depends_on entry; a record's key is the target and its condition is passed |
| Passes.VolumesFromStep | src/functions.php:160-164 | a volumes_from step never names a creatable id |
| Passes.DrawVolumesFrom | src/functions.php:160-164 | the same, for one volumes_from entry |
| Passes.MountStep | src/functions.php:166-170 | a mount's source is never a creatable id |
| Passes.DrawMount | src/functions.php:166-170 | registers the source as a bind volume, adding only volume ids; succeeds exactly when the service exists and the mount has a source |
| Passes.PortStep | src/functions.php:174-178 | a port's source is never a creatable id |
| Passes.DrawPort | src/functions.php:174-178 | adds only port ids; succeeds exactly when the service exists and the entry is well formed |
| Passes.NetworkStep | src/functions.php:182-187 | a network step never names a creatable id |
| Passes.DrawNetwork | src/functions.php:182-187 | the same as DrawExtends, for one networks entry; a listed name carries no aliases |
| Passes.ConfigStep | src/functions.php:191-196 | a config step never names a creatable id |
| Passes.DrawConfig | src/functions.php:191-196 | the same, for one configs entry; a record's `source` is the config |
| Passes.SecretStep | src/functions.php:200-204 | a secret step never names a creatable id |
| Passes.DrawSecret | src/functions.php:200-204 | the same, for one secrets entry |
| Walks.DrawingNames | src/functions.php:140-144 | a relation is drawn by a walk exactly when one of its entries names it |
| Walks.ResolveStable | src/functions.php:166-178 | adding created volume or port ids never changes whether a walk resolves |
| Walks.WalkLinks | src/functions.php:140-144 | intended pass, every entry (as written: AsWritten.WalkLinksAsWritten): the loop over links succeeds exactly when every entry resolves, and then draws exactly their relations |
| Walks.WalkExtends | src/functions.php:115-138 | the extends relation is drawn only when the service has an `extends` key |
| Walks.WalkExternalLinks | src/functions.php:146-150 | intended pass, every entry (as written: AsWritten.WalkExternalLinksAsWritten): the same, over external_links |
| Walks.WalkDepends | src/functions.php:152-157 | intended pass, every entry (as written: AsWritten.WalkDependsAsWritten): the same, over depends_on |
| Walks.WalkVolumesFrom | src/functions.php:160-164 | intended pass, every entry (as written: AsWritten.WalkVolumesFromAsWritten): the same, over volumes_from |
| Walks.WalkMounts | src/functions.php:166-170 | the same, over volumes; only volume ids are added |
| Walks.WalkPorts | src/functions.php:174-178 | intended pass, every entry (as written: AsWritten.WalkPortsAsWritten): the same, over ports; only port ids are added |
| Walks.WalkNetworks | src/functions.php:182-187 | intended pass, every entry (as written: AsWritten.WalkNetworksAsWritten): the same, over networks |
| Walks.WalkConfigs | src/functions.php:191-196 | intended pass, every entry (as written: AsWritten.WalkConfigsAsWritten): the same, over configs |
| Walks.WalkSecrets | src/functions.php:200-204 | intended pass, every entry (as written: AsWritten.WalkSecretsAsWritten): the same, over secrets |
| Registration.RegisterUpToKeys | src/functions.php:88-112 | registering adds exactly the registered ids |
| Registration.RegisterGrows | src/functions.php:88-112 | registering keeps every existing vertex as it was |
| Registration.FirstRegistrationWins | src/functions.php:88-112 | a new id gets the attributes of its first registration; later ones change nothing |
| Registration.NotYetRegistered | src/functions.php:88-112 | an id no registration names is untouched |
| Registration.RegisterAppend | src/functions.php:88-112 | registering two lists in turn is registering their concatenation |
| Registration.VolumeRegistrations | src/functions.php:89-93 | every top-level volume is registered as a declared volume, in order |
| Registration.NetworkRegistrations | src/functions.php:97-101 | every top-level network is registered with its declaration, in order |
| Registration.ConfigRegistrations | src/functions.php:105 | every top-level config is registered, in order |
| Registration.SecretRegistrations | src/functions.php:109 | every top-level secret is registered, in order |
| Registration.ServiceRegistrations | src/functions.php:112 | every service is registered without a kind, so none is drawn external |
| Registration.DeclarationsAvoidService | src/functions.php:88-110 | no volume, network, config or secret registration names a service |
| Registration.ServicesRegistered | src/functions.php:112-114 | every declared service has its vertex, with the plain service attributes, before any relation is drawn |
| Registration.DeclaredVolumesRegistered | src/functions.php:88-94 | with volumes on, a declared volume is registered blue before any mount can register it as a bind |
| Registration.DeclaredNetworksRegistered | src/functions.php:96-102 | with networks on, a declared network gets the attributes of its first declaration |
| Registration.SwitchedOffVolumesNotRegistered | src/functions.php:88-94 | with volumes off, no volume vertex is registered |
| Registration.PortsNeverRegistered | src/functions.php:88-112 | registration never creates a port vertex |
| Registration.RegisterVolumes | src/functions.php:89-93 | the volume loop performs the volume registrations |
| Registration.RegisterNetworks | src/functions.php:97-101 | the network loop performs the network registrations |
| Registration.RegisterConfigs | src/functions.php:105 | the config loop performs the config registrations |
| Registration.RegisterSecrets | src/functions.php:109 | the secret loop performs the secret registrations |
| Registration.RegisterServices | src/functions.php:112 | the service loop performs the service registrations |
| Registration.RegisterDeclared | src/functions.php:88-112 | registration performs every registration, each kind only when its flag is clear, without drawing an edge |
| Construction.GrowsByKeepsSettled | src/functions.php:166-178 | the passes only ever add volume or port ids |
| Construction.LinkingPasses | src/functions.php:137-157 | intended passes, every entry (as written: AsWritten.AddServiceRelationsAsWritten): extends, links, external links and depends_on succeed exactly when their lookups do, and then draw exactly their relations |
| Construction.VolumePasses | src/functions.php:159-171 | intended passes, every entry (as written: AsWritten.AddServiceRelationsAsWritten): volumes_from then mounts, adding only volume ids |
| Construction.MountingPasses | src/functions.php:159-179 | intended passes, every entry (as written: AsWritten.AddServiceRelationsAsWritten): the volume passes and the port pass, each only when its flag is clear |
| Construction.JoiningPasses | src/functions.php:181-205 | intended passes, every entry (as written: AsWritten.AddServiceRelationsAsWritten): the network, config and secret passes, each only when its flag is clear |
| Construction.AttachingPasses | src/functions.php:159-205 | intended passes, every entry (as written: AsWritten.AddServiceRelationsAsWritten): every pass after the linking ones; later lookups are not affected by the ids the volume and port passes create |
| Construction.ServiceResolvesStable | src/functions.php:166-178 | whether a service's lookups succeed never depends on created ids |
| Construction.AddServiceRelations | src/functions.php:114-206 | intended passes, every entry (as written: AsWritten.AddServiceRelationsAsWritten): every relation pass of one service, in the engine's order |
| Construction.AddNextService | src/functions.php:114-206 | intended passes, every entry (as written: AsWritten.AddAllServiceRelationsAsWritten): one more service's passes extend the relations drawn so far |
| Construction.AddAllServiceRelations | src/functions.php:114-206 | intended passes, every entry (as written: AsWritten.AddAllServiceRelationsAsWritten): every service's passes in document order; the first failure stops the construction |
| Construction.MakeVerticesAndEdges | src/functions.php:86-209 | intended passes, every entry (as written: AsWritten.MakeVerticesAndEdgesAsWritten): registration, then the relation passes; a pass exactly when every service's lookups succeed, and then exactly the document's relations are drawn |
| Construction.CreateGraph | src/functions.php:81-84 | intended passes, every entry (as written: AsWritten.CreateGraphAsWritten): a fresh graph without attributes, whose drawn relations are exactly the document's |
| Construction.RelationsUpToIncludes | src/functions.php:114-206 | an earlier service's relations stay among the relations drawn later |
| Construction.LinksDrawn | src/functions.php:140-144 | intended passes, every entry (as written: AsWritten.AddServiceRelationsAsWritten): every links entry of every service is drawn as a link to the service it names |
| Construction.VolumesFromDrawn | src/functions.php:159-164 | intended passes, every entry (as written: AsWritten.AddServiceRelationsAsWritten): with volumes on, every volumes_from entry is drawn from the service it names to the service listing it |
| Construction.VolumesAbsentWhenOff | src/functions.php:159 | with volumes off, the graph has no volume vertex at all |
| Construction.PortsAbsentWhenOff | src/functions.php:173 | with ports off, the graph has no port vertex at all |
| Construction.ServicesStayPlain | src/functions.php:112 | every service keeps the plain attributes of its first declaration; relation passes never restyle a vertex |
| AsWritten.IteratorApplyCalls | src/functions.php:140-144 | iterator_apply makes at most one callback per entry, and at least one on a non-empty list |
| AsWritten.TruthyCallbacksVisitAll | src/functions.php:89-93 | callbacks that return the vertex (true) run for every entry |
| AsWritten.VoidCallbacksVisitFirst | src/functions.php:140-144 | callbacks that return nothing run for the first entry only |
| AsWritten.TruncatedSteps | src/functions.php:140-144 | as written, a relation pass takes only its first entry's step |
| AsWritten.VolumesFromStepsAsWritten | src/functions.php:160-164 | as written, volumes_from draws at most one relation, from the first depends_on entry; otherwise it is a type error |
| AsWritten.Visited | src/functions.php:140-144 | iterator_apply with callbacks that return nothing visits the first entry of a list, or none |
| AsWritten.AsWrittenDefSteps | src/functions.php:140-204 | the as-written definition's intended steps are exactly the first-entry steps of each list, and the stale volumes_from step whenever it is not a type error |
| AsWritten.WalkLinksAsWritten | src/functions.php:140-144 | as written, the links pass succeeds exactly when its first entry resolves, and then draws only that entry's relation |
| AsWritten.WalkExternalLinksAsWritten | src/functions.php:146-150 | the same, over external_links |
| AsWritten.WalkDependsAsWritten | src/functions.php:152-157 | the same, over depends_on |
| AsWritten.WalkVolumesFromAsWritten | src/functions.php:160-164 | as written, volumes_from draws at most one relation, from the first depends_on name; with no such name and a non-empty list it is a type error |
| AsWritten.WalkPortsAsWritten | src/functions.php:174-178 | the same as links, over ports; only port ids are added |
| AsWritten.WalkNetworksAsWritten | src/functions.php:182-187 | the same, over networks |
| AsWritten.WalkConfigsAsWritten | src/functions.php:191-196 | the same, over configs |
| AsWritten.WalkSecretsAsWritten | src/functions.php:200-204 | the same, over secrets |
| AsWritten.FailOnStaleIterator | src/functions.php:137-164 | a service whose volumes_from reads a stale iterator runs its linking passes and then fails with a type error |
| AsWritten.AddServiceRelationsAsWritten | src/functions.php:114-206 | one service as written: it passes exactly when the volumes_from callback does not fail (volumes are switched off, the volumes_from list is empty, or the first depends_on entry is a bare name) and the as-written definition's lookups succeed; a pass draws exactly that definition's relations |
| AsWritten.AddAllServiceRelationsAsWritten | src/functions.php:114-206 | every service as written, in document order; the first failure stops the construction, and a pass draws exactly the as-written definitions' relations |
| AsWritten.MakeVerticesAndEdgesAsWritten | src/functions.php:86-209 | registration, then the relation passes as written |
| AsWritten.CreateGraphAsWritten | src/functions.php:81-84 | the graph the engine builds: its drawn relations are exactly the as-written definitions' relations |
| AsWritten.SecondLinkDrawn | src/functions.php:140-144 | the intended pass draws the second link |
| AsWritten.SecondLinkDropped | src/functions.php:140-144 | as written, the second link is never drawn |
| AsWritten.VolumesFromWithoutDependencyFails | src/functions.php:160-164 | as written, volumes_from without depends_on fails, where the intended pass draws the relation |
| AsWritten.VolumesFromReadsDependency | src/functions.php:160-164 | as written, volumes_from draws from the dependency instead of the named service |
| Style.GraphvizStyle | src/functions.php:214-222 | bgcolor, pad `0.5`, ratio `fill`, splines `true`, overlap `false`; rankdir `LR` only when horizontal; every other attribute is kept |
| Style.RankdirOnlyWhenHorizontal | src/functions.php:220-222 | the rank direction is set exactly for a horizontal layout |
| Style.StyleIdempotent | src/functions.php:213-222 | styling twice with the same options is styling once |
| Style.RestyleOverrides | src/functions.php:214 | restyling with another background gives what styling with that background alone would |
| Style.ApplyGraphvizStyle | src/functions.php:211-225 | the input is cloned; only the fresh clone gets the style, with the same vertices and edges |
| ConfigurationFiles.LastIndexFinds | src/functions.php:30 | the last position of a character, found exactly when it occurs |
| ConfigurationFiles.StripSuffix | src/functions.php:30 | the suffix is dropped only when the name ends with it and is longer than it |
| ConfigurationFiles.SplitAtLastSlash | src/functions.php:30 | basename is what follows the last slash, and dirname is what precedes it |
| ConfigurationFiles.SplitAtLastDot | src/functions.php:29-30 | the extension follows the last dot, and stripping it gives back the stem |
| ConfigurationFiles.OverrideInDirectory | src/functions.php:29-30 | `dir/stem.ext` has its override at `dir/stem.override.ext` |
| ConfigurationFiles.OverrideOfBareName | src/functions.php:29-30 | `stem.ext` has its override at `./stem.override.ext` |
| ConfigurationFiles.OverrideWithoutExtension | src/functions.php:29-30 | a name without a dot has its override at `dir/name.override.` |
| ConfigurationFiles.FindOverride | src/functions.php:27-37 | the override path exactly when that file exists, else none |
| ConfigurationFiles.ExpandAppend | src/functions.php:43-57 | the files for `a + b` are those for `a` followed by those for `b`, or the first failure |
| ConfigurationFiles.ExpandFailsOnFirstMissing | src/functions.php:43-46 | the collection fails exactly when some path is missing, and then names the first missing one |
| ConfigurationFiles.ExpandOnlyFound | src/functions.php:43-57 | after success, every path exists and every file is a path or a path's override |
| ConfigurationFiles.FilesExist | src/functions.php:39-60 | every file collected exists, and is a given path or its override path |
| ConfigurationFiles.ExpandIgnoringOverrides | src/functions.php:48-50 | with overrides ignored, the files are exactly the paths, in order |
| ConfigurationFiles.ExpandPairsOverrides | src/functions.php:48-56 | when every path has an override, each path is immediately followed by its override |
| ConfigurationFiles.Contribute | src/functions.php:48-56 | one path adds itself, then its override unless overrides are ignored or it has none |
| ConfigurationFiles.FindConfigurationFiles | src/functions.php:39-60 | the loop computes the collection: the files in order, or the first missing path |

## Left out

- `extends.file`: loading another file and recursing into it is left out because it needs file and YAML I/O. Only the in-document `addExtendsRelation` call is modelled.
- `readConfigurations`: YAML parsing, file reads and `array_merge_recursive` are foreign code. The document enters the model already decoded.
- `logger` (clock and console output) and `src/application.php` (command line, rendering, output files, the service filter) are I/O.
- The version-dependent fetching under `spec/` does not match the current `fetch*` functions and is not modelled.
- The graph library is reduced to what the engine uses:
  - vertex ids with attribute bags;
  - edges in creation order with attribute bags;
  - graph attributes;
  - a deep clone.
- Vertex insertion order is not kept, because vertices are a map. Edge order is kept.
- The exceptions are modelled as results. A failure's PHP class, message and stack are not.
  - After a failure, the model states only that edges and vertices grew.
  - The partial graph is not described further, because the engine abandons it.
- File existence is a set of existing paths, and the path separator is `/`.
- `dirname` and `basename` are modelled on paths without trailing or doubled slashes. The normalisation PHP applies to those is left out.
- Construction.MakeVerticesAndEdges: states which vertices exist and which relations are drawn, not the attribute bag each edge ends with. The bags are stated per builder call, by the builders' contracts.
- Construction.CreateGraph: the same. It states the drawn relations as a set of (source, target, type), not the edge order.
- Graphs.Graph.CreateLabelledVertex and Graphs.Graph.CreateShapedVertex group the engine's consecutive `setAttribute` calls on a new vertex. The intermediate states are not stated.
- Walks.WalkLinks, Walks.WalkExternalLinks, Walks.WalkDepends, Walks.WalkVolumesFrom, Walks.WalkPorts, Walks.WalkNetworks, Walks.WalkConfigs, Walks.WalkSecrets and the Construction passes built on them (LinkingPasses, VolumePasses, MountingPasses, JoiningPasses, AttachingPasses, AddServiceRelations, AddNextService, AddAllServiceRelations, MakeVerticesAndEdges, CreateGraph, LinksDrawn, VolumesFromDrawn): they model the passes as evidently intended, walking every entry (see Findings). The construction the code runs is AsWritten.CreateGraphAsWritten and the members under it, which run these intended passes over each service's as-written definition (the first entry of each `iterator_apply` list, and the stale volumes_from read). The as-written construction states the drawn relations but has no `LinksDrawn`-style lemmas of its own.
- Integer scalars: the decoded document holds strings only. YAML can give integers, and under strict types an integer passed where a string is declared raises a TypeError. Examples: `ports: [80]` reaches `normalizePortMapping` (src/port.php:73) with an int, and a long-form port with `published: 8080` reaches `getPortVertexId` (src/port.php:10, called at line 18) with an int. A service whose name YAML reads as an integer fails the same way. These TypeErrors are not modelled.
- Walks.WalkLinks and the other walks: on failure, they state only that edges grew and the failure is reported, not which entries were drawn before it.
- Service.AddService: the `type` argument is never passed by the construction. The `external_service` colouring is modelled but unreachable from `CreateGraph`.

## Findings

| source | as written | input that shows it | evidently intended | confidence | as-written member | corrected member |
|---|---|---|---|---|---|---|
| src/functions.php:140-204 | each per-service relation list is walked with `iterator_apply`, whose callbacks return nothing; iterator_apply stops after the first callback that does not return true, so only the first entry of links, external_links, depends_on, volumes_from, ports, networks, configs and secrets is drawn | a service with `links: [db, cache]`: no link to `cache` is drawn | every entry of every list is drawn, as for the `volumes` list walked by `foreach` | high, not executed | AsWritten.SecondLinkDropped | Construction.LinksDrawn |
| src/functions.php:160-164 | the volumes_from callback receives the depends_on iterator `$it`, which still rests on its first entry, instead of an iterator over volumes_from | a service `app` with `volumes_from: [data]` and no depends_on fails with a type error; with `depends_on: [db]`, the edge drawn is from `db` instead of `data` | a volumes_from edge from each named service to the service listing it | high, not executed | AsWritten.VolumesFromReadsDependency | Construction.VolumesFromDrawn |
