/** Volumes: the `volume:` vertices, the edge from a service to each volume it mounts,
    and the mount shorthand. */
module Volume {
  import opened Wrappers
  import opened Strings
  import opened Graphs
  import opened Compose
  import opened Service

  /** How a volume vertex came to be: declared in the top-level volumes section, or
      mounted by a service without being declared. */
  datatype VolumeKind = Bind | Volume

  const VolumePrefix := "volume:"

  /** The top-level volumes section, or none when the document has no `volumes` key. */
  function FetchVolumes(doc: Document): (s: Section<VolumeDecl>)
    ensures doc.volumes.Some? ==> s == doc.volumes.value
    ensures doc.volumes.None? ==> s == []
  {
    doc.volumes.GetOr([])
  }

  /** The vertex id of a volume: its name under the `volume:` prefix. */
  function VolumeId(name: string): (id: string)
    ensures |id| == |VolumePrefix| + |name|
    ensures id[..|VolumePrefix|] == VolumePrefix && id[|VolumePrefix|..] == name
  {
    VolumePrefix + name
  }

  /** The attributes a new volume vertex gets: typed `volume`, labelled with its name,
      drawn as a pentagon, and blue exactly when it is a declared volume. */
  function VolumeAttributes(name: string, kind: Option<VolumeKind>): (a: Attributes)
    ensures TypeAttribute in a && a[TypeAttribute] == "volume"
    ensures LabelAttribute in a && a[LabelAttribute] == name
    ensures ShapeAttribute in a && a[ShapeAttribute] == "pentagon"
    ensures ColorAttribute in a <==> kind == Some(Volume)
    ensures ColorAttribute in a ==> a[ColorAttribute] == "blue"
    ensures a.Keys <= {TypeAttribute, LabelAttribute, ShapeAttribute, ColorAttribute}
  {
    var a := map[TypeAttribute := "volume", LabelAttribute := name, ShapeAttribute := "pentagon"];
    if kind == Some(Volume) then a[ColorAttribute := "blue"] else a
  }

  /** Looks up a volume vertex, or creates it; an existing vertex keeps its attributes
      whatever kind is passed later. */
  method AddVolume(g: Graph, name: string, kind: Option<VolumeKind>)
    requires g.Valid()
    modifies g
    ensures g.Valid() && g.edges == old(g.edges) && g.attributes == old(g.attributes)
    ensures g.vertices == Registered(old(g.vertices), VolumeId(name), VolumeAttributes(name, kind))
  {
    var id := VolumeId(name);
    if id in g.vertices {
      return;
    }
    g.CreateLabelledVertex(id, "volume", name, "pentagon");
    if kind == Some(Volume) {
      g.SetVertexAttribute(id, ColorAttribute, "blue");
    }
  }

  function VolumeRelation(service: string, source: string): Relation {
    Relation(ServiceId(service), VolumeId(source), "volume")
  }

  /** A mount edge is dashed, drawn both ways unless the mount is read-only, and
      labelled with the mount target when there is one. */
  function VolumeEdgeAttributes(prior: Attributes, m: VolumeMapping): (a: Attributes)
    ensures StyleAttribute in a && a[StyleAttribute] == "dashed"
    ensures m.readOnly != Some(true) ==> DirAttribute in a && a[DirAttribute] == "both"
    ensures m.target.Some? ==> LabelAttribute in a && a[LabelAttribute] == m.target.value
    ensures KeepsOthers(prior, a,
              {StyleAttribute} + (if m.readOnly != Some(true) then {DirAttribute} else {})
              + (if m.target.Some? then {LabelAttribute} else {}))
  {
    var styled := prior[StyleAttribute := "dashed"];
    var directed := if m.readOnly != Some(true) then styled[DirAttribute := "both"] else styled;
    if m.target.Some? then directed[LabelAttribute := m.target.value] else directed
  }

  /** Draws the edge from a service to the volume a mount names. The service is looked
      up first, then the mount's source, which must be set (a type error otherwise), then
      the volume; a failure changes nothing. */
  method AddVolumeRelation(g: Graph, service: string, m: VolumeMapping) returns (r: Result<nat, Failure>)
    requires g.Valid()
    modifies g
    ensures g.Valid() && g.vertices == old(g.vertices) && g.attributes == old(g.attributes)
    ensures ServiceId(service) !in old(g.vertices) ==>
              r == Err(VertexNotFound(ServiceId(service))) && g.edges == old(g.edges)
    ensures ServiceId(service) in old(g.vertices) && m.source.None? ==>
              r == Err(TypeError) && g.edges == old(g.edges)
    ensures ServiceId(service) in old(g.vertices) && m.source.Some? && VolumeId(m.source.value) !in old(g.vertices) ==>
              r == Err(VertexNotFound(VolumeId(m.source.value))) && g.edges == old(g.edges)
    ensures ServiceId(service) in old(g.vertices) && m.source.Some? && VolumeId(m.source.value) in old(g.vertices) ==>
              var rel := VolumeRelation(service, m.source.value);
              r.Ok? && RelatedAs(old(g.edges), g.edges, r.value, rel, VolumeEdgeAttributes(ChosenAttributes(old(g.edges), rel), m))
  {
    var serviceVertex := g.GetVertex(ServiceId(service));
    if serviceVertex.Err? {
      return Err(serviceVertex.error);
    }
    if m.source.None? {
      return Err(TypeError);
    }
    r := g.Relate(VolumeRelation(service, m.source.value));
    if r.Ok? {
      var i := r.value;
      g.SetEdgeAttribute(i, StyleAttribute, "dashed");
      if m.readOnly != Some(true) {
        g.SetEdgeAttribute(i, DirAttribute, "both");
      }
      if m.target.Some? {
        g.SetEdgeAttribute(i, LabelAttribute, m.target.value);
      }
    }
  }

  /** `source` is one of the top-level volume values, compared strictly: only a plain
      string value can match, never a volume's name. */
  predicate DeclaredAsValue(volumes: Section<VolumeDecl>, source: string) {
    exists k :: 0 <= k < |volumes| && volumes[k].1 == VolumeText(source)
  }

  /** The access modes of a mount shorthand, split on ", ", hold `ro`. */
  function ReadOnlyOf(modes: string): (ro: bool)
    ensures ro <==> "ro" in Explode(", ", modes)
  {
    "ro" in Explode(", ", modes)
  }

  /** The mount shorthand: a record is kept as it is; a string is split on `:` into
      source, target (defaulting to the source) and access modes (defaulting to `rw`),
      it is read-only when the modes hold `ro`, and it is a named volume exactly when the
      source is one of the top-level volume values. */
  function NormalizeVolumeMapping(entry: VolumeEntry, volumes: Section<VolumeDecl>): (m: VolumeMapping)
    ensures entry.VolumeLong? ==> m == entry.mapping
    ensures entry.VolumeShort? ==>
              && m.source.Some? && m.target.Some? && m.readOnly.Some? && m.kind.Some?
              && ':' !in m.source.value && ':' !in m.target.value
              && RunAt(entry.text, ':', 0, m.source.value)
              && (m.kind.value == "volume" <==> DeclaredAsValue(volumes, m.source.value))
              && (m.kind.value == "bind" <==> !DeclaredAsValue(volumes, m.source.value))
    ensures entry.VolumeShort? && ':' in entry.text ==>
              m.source.Some? && m.target.Some? && RunAt(entry.text, ':', |m.source.value| + 1, m.target.value)
    ensures entry.VolumeShort? && ':' !in entry.text ==>
              m.source == Some(entry.text) && m.target == Some(entry.text) && m.readOnly == Some(false)
  {
    match entry
    case VolumeLong(mapping) => mapping
    case VolumeShort(text) =>
      var parts := Explode(":", text);
      ExplodeChar(':', text);
      ExplodeRuns(':', text);
      WritableByDefault();
      var source := parts[0];
      var target := if |parts| > 1 then parts[1] else parts[0];
      var modes := if |parts| > 2 then parts[2] else "rw";
      var kind := if DeclaredAsValue(volumes, source) then "volume" else "bind";
      VolumeMapping(Some(kind), Some(source), Some(target), Some(ReadOnlyOf(modes)))
  }

  lemma WritableByDefault()
    ensures !ReadOnlyOf("rw")
  {
    IndexOfMissingChar("rw", ", ", 1);
  }

  /** Any list of modes that hold no ", ", joined with ", ", is read-only exactly when
      one of the modes is `ro`. */
  lemma ReadOnlyOfImplode(modes: seq<string>)
    requires forall k :: 0 <= k < |modes| ==> IndexOf(modes[k], ", ").None?
    ensures ReadOnlyOf(Implode(", ", modes)) <==> "ro" in modes
  {
    if |modes| == 0 {
      assert Explode(", ", "") == [""];
    } else {
      ExplodeImplodeCommaSpace(modes);
    }
  }

  /** `source:target` splits into its two halves and is writable. */
  lemma VolumeShortTwo(volumes: Section<VolumeDecl>, source: string, target: string)
    requires ':' !in source && ':' !in target
    ensures var m := NormalizeVolumeMapping(VolumeShort(source + ":" + target), volumes);
            m.source == Some(source) && m.target == Some(target) && m.readOnly == Some(false)
  {
    assert Implode(":", [source, target]) == source + ":" + target;
    ExplodeImplode(':', [source, target]);
    WritableByDefault();
  }

  /** `source:target:modes`, alone or followed by further `:`-separated text, takes its
      source, target and access modes from its first three parts. */
  lemma VolumeShortThree(volumes: Section<VolumeDecl>, source: string, target: string, modes: string, rest: string)
    requires ':' !in source && ':' !in target && ':' !in modes
    requires rest == "" || rest[0] == ':'
    ensures var m := NormalizeVolumeMapping(VolumeShort(source + ":" + target + ":" + modes + rest), volumes);
            m.source == Some(source) && m.target == Some(target) && m.readOnly == Some(ReadOnlyOf(modes))
  {
    assert source + ":" + target + ":" + modes + rest == source + [':'] + target + [':'] + modes + rest;
    ExplodeFirstThree(':', source, target, modes, rest);
  }

  /** The modes separator is ", " exactly: `ro` alone or after ", " is read-only; `rw`
      and `ro,z` are not. */
  lemma ReadOnlyModes()
    ensures ReadOnlyOf("ro")
    ensures ReadOnlyOf("z, ro")
    ensures !ReadOnlyOf("rw")
    ensures !ReadOnlyOf("ro,z")
  {
    IndexOfMissingChar("ro", ", ", 1);
    IndexOfMissingChar("rw", ", ", 1);
    IndexOfMissingChar("ro,z", ", ", 1);
    assert "z, ro"[..2] == "z,";
    assert "z, ro"[1..] == ", ro";
    assert ", ro"[..2] == ", ";
    assert IndexOf("z, ro", ", ") == Some(1);
    assert "z, ro"[..1] == "z";
    assert "z, ro"[1 + 2..] == "ro";
    assert Explode(", ", "z, ro") == ["z", "ro"];
  }
}
