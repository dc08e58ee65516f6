/** The part of the graph library the engine relies on: vertices looked up by id, each
    with a string-keyed attribute bag; directed edges in creation order, each with its own
    attribute bag; graph-level attributes; and a deep clone. Edges are named by their
    position in creation order. */
module Graphs {
  import opened Wrappers

  type Attributes = map<string, string>

  const TypeAttribute := "docker_compose_viz.type"
  const LabelAttribute := "graphviz.label"
  const ShapeAttribute := "graphviz.shape"
  const StyleAttribute := "graphviz.style"
  const ColorAttribute := "graphviz.color"
  const DirAttribute := "graphviz.dir"
  const ArrowheadAttribute := "graphviz.arrowhead"
  const ArrowtailAttribute := "graphviz.arrowtail"

  datatype Edge = Edge(src: string, dst: string, attrs: Attributes)

  /** A relation the engine draws: an edge from vertex `src` to vertex `dst` whose
      type attribute is `kind`. */
  datatype Relation = Relation(src: string, dst: string, kind: string)

  predicate Carries(e: Edge, rel: Relation) {
    e.src == rel.src && e.dst == rel.dst && TypeAttribute in e.attrs && e.attrs[TypeAttribute] == rel.kind
  }

  /** The first edge, in creation order, that carries `rel`: what the relation builders'
      scan over the edges from source to target, stopping at the first edge of the
      wanted type, finds. */
  function FindFirst(edges: seq<Edge>, rel: Relation): (r: Option<nat>)
    ensures r.Some? ==> r.value < |edges| && Carries(edges[r.value], rel)
    ensures forall j :: 0 <= j < |edges| && (r.None? || j < r.value) ==> !Carries(edges[j], rel)
    decreases |edges|
  {
    if |edges| == 0 then None
    else
      match FindFirst(edges[..|edges| - 1], rel)
      case Some(k) => Some(k)
      case None => if Carries(edges[|edges| - 1], rel) then Some(|edges| - 1) else None
  }

  /** Some edge carries `rel`. */
  predicate Drawn(edges: seq<Edge>, rel: Relation) {
    FindFirst(edges, rel).Some?
  }

  /** The position of the edge a relation builder writes to: the first edge carrying
      `rel`, or the position a new edge takes. */
  function Chosen(edges: seq<Edge>, rel: Relation): (i: nat)
    ensures i <= |edges|
    ensures i < |edges| <==> Drawn(edges, rel)
  {
    match FindFirst(edges, rel)
    case Some(k) => k
    case None => |edges|
  }

  /** The edges once `rel` is sure to be drawn: unchanged when an edge already carries
      it, otherwise with one new edge, tagged with the relation's type, at the end. */
  function Ensured(edges: seq<Edge>, rel: Relation): (r: seq<Edge>)
    ensures Chosen(edges, rel) < |r| && Carries(r[Chosen(edges, rel)], rel)
    ensures |r| == |edges| + (if Drawn(edges, rel) then 0 else 1)
    ensures r[..|edges|] == edges
  {
    if Drawn(edges, rel) then edges
    else edges + [Edge(rel.src, rel.dst, map[TypeAttribute := rel.kind])]
  }

  /** The attributes of the chosen edge before the builder restyles it. */
  function ChosenAttributes(edges: seq<Edge>, rel: Relation): (a: Attributes)
    ensures TypeAttribute in a && a[TypeAttribute] == rel.kind
    ensures Drawn(edges, rel) ==> a == edges[Chosen(edges, rel)].attrs
    ensures !Drawn(edges, rel) ==> a == map[TypeAttribute := rel.kind]
  {
    Ensured(edges, rel)[Chosen(edges, rel)].attrs
  }

  /** Edge `i` with its attribute bag replaced. */
  function Restyled(edges: seq<Edge>, i: nat, attrs: Attributes): (r: seq<Edge>)
    requires i < |edges|
    ensures |r| == |edges| && r[i] == Edge(edges[i].src, edges[i].dst, attrs)
    ensures forall j :: 0 <= j < |edges| && j != i ==> r[j] == edges[j]
  {
    edges[i := edges[i].(attrs := attrs)]
  }

  /** `after` is `before` once a relation builder has drawn `rel` on edge `i` and given
      that edge the attribute bag `attrs`. */
  ghost predicate RelatedAs(before: seq<Edge>, after: seq<Edge>, i: nat, rel: Relation, attrs: Attributes) {
    i == Chosen(before, rel) && after == Restyled(Ensured(before, rel), i, attrs)
  }

  /** `a` agrees with `prior` on every key outside `keys`: attributes are only ever set,
      never removed. */
  ghost predicate KeepsOthers(prior: Attributes, a: Attributes, keys: set<string>) {
    forall k :: k !in keys ==> (k in a <==> k in prior) && (k in a ==> a[k] == prior[k])
  }

  /** A relation builder's styling never touches the type key, so the edge keeps the
      type its relation gave it. */
  lemma KeepsType(prior: Attributes, a: Attributes, keys: set<string>, kind: string)
    requires KeepsOthers(prior, a, keys) && TypeAttribute !in keys
    requires TypeAttribute in prior && prior[TypeAttribute] == kind
    ensures TypeAttribute in a && a[TypeAttribute] == kind
  {
  }

  /** The endpoint of `rel` a relation builder fails on: the source is looked up first,
      then the target. */
  function Missing(vertices: map<string, Attributes>, rel: Relation): (r: Option<string>)
    ensures r.None? <==> rel.src in vertices && rel.dst in vertices
    ensures r.Some? ==> r.value !in vertices && (r.value == rel.src || (rel.src in vertices && r.value == rel.dst))
  {
    if rel.src !in vertices then Some(rel.src)
    else if rel.dst !in vertices then Some(rel.dst)
    else None
  }

  /** Two edges join the same ordered pair of vertices under the same type. */
  predicate SameSlot(a: Edge, b: Edge) {
    && a.src == b.src && a.dst == b.dst
    && (TypeAttribute in a.attrs <==> TypeAttribute in b.attrs)
    && (TypeAttribute in a.attrs ==> a.attrs[TypeAttribute] == b.attrs[TypeAttribute])
  }

  /** The store's invariant: every edge joins two existing vertices and has a type, and
      no two edges join the same ordered pair under the same type. */
  ghost predicate WellFormed(vertices: map<string, Attributes>, edges: seq<Edge>) {
    && (forall j :: 0 <= j < |edges| ==>
          edges[j].src in vertices && edges[j].dst in vertices && TypeAttribute in edges[j].attrs)
    && (forall j, k :: 0 <= j < k < |edges| ==> !SameSlot(edges[j], edges[k]))
  }

  /** Edges are only appended, and existing ones keep their endpoints and type. */
  ghost predicate EdgesGrow(before: seq<Edge>, after: seq<Edge>) {
    |before| <= |after| && forall j :: 0 <= j < |before| ==> SameSlot(before[j], after[j])
  }

  /** Vertices are only added: every existing vertex keeps its attributes. */
  ghost predicate Grows(before: map<string, Attributes>, after: map<string, Attributes>) {
    forall id :: id in before ==> id in after && after[id] == before[id]
  }

  /** The vertices after a lookup-or-create of `id`: unchanged when the id exists,
      otherwise with the id added under `attrs`. */
  function Registered(vertices: map<string, Attributes>, id: string, attrs: Attributes): (r: map<string, Attributes>)
    ensures id in r && Grows(vertices, r)
    ensures r.Keys == vertices.Keys + {id}
    ensures id !in vertices ==> r[id] == attrs
  {
    if id in vertices then vertices else vertices[id := attrs]
  }

  /** Registering an id a second time, with any attributes, changes nothing: the first
      registration's attributes stay. */
  lemma RegisterTwiceKeepsFirst(vertices: map<string, Attributes>, id: string, first: Attributes, second: Attributes)
    ensures Registered(Registered(vertices, id, first), id, second) == Registered(vertices, id, first)
  {
  }

  /** Going from `before` to `after` draws exactly the relations `rels`: edges only grow,
      and a relation is drawn afterwards iff it was drawn before or is one of `rels`. */
  ghost predicate DrawsExactly(before: seq<Edge>, after: seq<Edge>, rels: seq<Relation>) {
    EdgesGrow(before, after) && forall rel :: Drawn(after, rel) <==> Drawn(before, rel) || rel in rels
  }

  /** Once a relation is drawn, growing the edges never moves its first edge. */
  lemma FirstSurvives(before: seq<Edge>, after: seq<Edge>, rel: Relation)
    requires EdgesGrow(before, after) && Drawn(before, rel)
    ensures FindFirst(after, rel) == FindFirst(before, rel)
  {
    var i := FindFirst(before, rel).value;
    assert SameSlot(before[i], after[i]);
    assert Carries(after[i], rel);
    forall j | 0 <= j < i ensures !Carries(after[j], rel) {
      assert SameSlot(before[j], after[j]);
    }
  }

  /** A newly appended edge keeps the store's invariant: it is only appended when no
      edge carries the relation yet. */
  lemma EnsuredWellFormed(vertices: map<string, Attributes>, edges: seq<Edge>, rel: Relation)
    requires WellFormed(vertices, edges) && rel.src in vertices && rel.dst in vertices
    ensures WellFormed(vertices, Ensured(edges, rel))
  {
    if !Drawn(edges, rel) {
      var r := Ensured(edges, rel);
      forall j | 0 <= j < |edges| ensures !SameSlot(r[j], r[|edges|]) {
        assert r[j] == edges[j];
        assert !Carries(edges[j], rel);
      }
    }
  }

  /** Drawing `rel` on the chosen edge and giving it a bag that keeps its type draws
      exactly `rel`: at most one edge per source, target and type ever results. */
  lemma RelatedDrawsExactly(before: seq<Edge>, rel: Relation, attrs: Attributes)
    requires TypeAttribute in attrs && attrs[TypeAttribute] == rel.kind
    ensures DrawsExactly(before, Restyled(Ensured(before, rel), Chosen(before, rel), attrs), [rel])
  {
    var e1 := Ensured(before, rel);
    var i := Chosen(before, rel);
    var after := Restyled(e1, i, attrs);
    forall j | 0 <= j < |before| ensures SameSlot(before[j], after[j]) {
      assert e1[j] == before[j];
    }
    assert EdgesGrow(before, after);
    assert Carries(after[i], rel);
    forall r | Drawn(after, r) ensures Drawn(before, r) || r == rel {
      var m := FindFirst(after, r).value;
      if m < |before| {
        assert SameSlot(before[m], after[m]);
        assert Carries(before[m], r);
      } else {
        assert m == i;
      }
    }
    forall r | Drawn(before, r) ensures Drawn(after, r) {
      FirstSurvives(before, after, r);
    }
  }

  /** Running the same relation builder twice adds no second edge: the second run finds
      and reuses the edge the first one drew. */
  lemma RelateTwiceReuses(before: seq<Edge>, rel: Relation, attrs: Attributes)
    requires TypeAttribute in attrs && attrs[TypeAttribute] == rel.kind
    ensures var after := Restyled(Ensured(before, rel), Chosen(before, rel), attrs);
            Chosen(after, rel) == Chosen(before, rel) && Ensured(after, rel) == after
  {
    var i := Chosen(before, rel);
    var after := Restyled(Ensured(before, rel), i, attrs);
    RelatedDrawsExactly(before, rel, attrs);
    if Drawn(before, rel) {
      FirstSurvives(before, after, rel);
    } else {
      assert i == |before|;
      assert Carries(after[i], rel);
      forall j | 0 <= j < i ensures !Carries(after[j], rel) {
        assert SameSlot(before[j], after[j]);
      }
    }
  }

  lemma DrawsExactlyChain(a: seq<Edge>, b: seq<Edge>, c: seq<Edge>, r1: seq<Relation>, r2: seq<Relation>)
    requires DrawsExactly(a, b, r1) && DrawsExactly(b, c, r2)
    ensures DrawsExactly(a, c, r1 + r2)
  {
    forall j | 0 <= j < |a| ensures SameSlot(a[j], c[j]) {
      assert SameSlot(a[j], b[j]) && SameSlot(b[j], c[j]);
    }
  }

  lemma EdgesGrowTrans(a: seq<Edge>, b: seq<Edge>, c: seq<Edge>)
    requires EdgesGrow(a, b) && EdgesGrow(b, c)
    ensures EdgesGrow(a, c)
  {
    forall j | 0 <= j < |a| ensures SameSlot(a[j], c[j]) {
      assert SameSlot(a[j], b[j]) && SameSlot(b[j], c[j]);
    }
  }

  /** The vertex attribute names set on creation are pairwise different. */
  lemma CreationKeysDistinct()
    ensures TypeAttribute != LabelAttribute && TypeAttribute != ShapeAttribute && LabelAttribute != ShapeAttribute
  {
    assert TypeAttribute[0] != LabelAttribute[0] && TypeAttribute[0] != ShapeAttribute[0];
    assert LabelAttribute[9] != ShapeAttribute[9];
  }

  class Graph {
    var vertices: map<string, Attributes>
    var edges: seq<Edge>
    var attributes: Attributes

    ghost predicate Valid()
      reads this
    {
      WellFormed(vertices, edges)
    }

    constructor ()
      ensures Valid() && vertices == map[] && edges == [] && attributes == map[]
    {
      vertices := map[];
      edges := [];
      attributes := map[];
    }

    /** Vertex lookup by id; the library raises an out-of-bounds exception for an id it
        does not hold. */
    function GetVertex(id: string): (r: Result<string, Failure>)
      reads this
      ensures r.Ok? <==> id in vertices
      ensures r.Ok? ==> r.value == id
      ensures r.Err? ==> r.error == VertexNotFound(id)
    {
      if id in vertices then Ok(id) else Err(VertexNotFound(id))
    }

    /** A new vertex with an empty attribute bag; every caller checks first that the id
        is free. */
    method CreateVertex(id: string)
      requires Valid() && id !in vertices
      modifies this
      ensures Valid()
      ensures vertices == old(vertices)[id := map[]]
      ensures edges == old(edges) && attributes == old(attributes)
    {
      vertices := vertices[id := map[]];
    }

    method SetVertexAttribute(id: string, key: string, value: string)
      requires Valid() && id in vertices
      modifies this
      ensures Valid()
      ensures vertices == old(vertices)[id := old(vertices)[id][key := value]]
      ensures edges == old(edges) && attributes == old(attributes)
    {
      vertices := vertices[id := vertices[id][key := value]];
    }

    /** A new vertex typed `kind` and drawn as `shape`, without a label: how services
        and secrets start. */
    method CreateShapedVertex(id: string, kind: string, shape: string)
      requires Valid() && id !in vertices
      modifies this
      ensures Valid()
      ensures vertices == old(vertices)[id := map[TypeAttribute := kind, ShapeAttribute := shape]]
      ensures edges == old(edges) && attributes == old(attributes)
    {
      CreateVertex(id);
      SetVertexAttribute(id, TypeAttribute, kind);
      SetVertexAttribute(id, ShapeAttribute, shape);
    }

    /** A new vertex typed `kind`, labelled `caption` and drawn as `shape`, the attributes
        set in that order: how volumes, networks, ports and configs start. */
    method CreateLabelledVertex(id: string, kind: string, caption: string, shape: string)
      requires Valid() && id !in vertices
      modifies this
      ensures Valid()
      ensures vertices == old(vertices)[id := map[TypeAttribute := kind, LabelAttribute := caption, ShapeAttribute := shape]]
      ensures edges == old(edges) && attributes == old(attributes)
    {
      CreationKeysDistinct();
      CreateVertex(id);
      SetVertexAttribute(id, TypeAttribute, kind);
      SetVertexAttribute(id, LabelAttribute, caption);
      SetVertexAttribute(id, ShapeAttribute, shape);
    }

    /** The scan every relation builder runs over the edges from source to target,
        stopping at the first one whose type is the wanted one. */
    method FindEdgeTo(rel: Relation) returns (found: Option<nat>)
      ensures found == FindFirst(edges, rel)
    {
      found := None;
      var k := 0;
      while k < |edges| && found.None?
        invariant 0 <= k <= |edges|
        invariant found.None? ==> forall j :: 0 <= j < k ==> !Carries(edges[j], rel)
        invariant found.Some? ==> found.value < |edges| && Carries(edges[found.value], rel)
        invariant found.Some? ==> forall j :: 0 <= j < found.value ==> !Carries(edges[j], rel)
      {
        if Carries(edges[k], rel) {
          found := Some(k);
        }
        k := k + 1;
      }
    }

    /** The first edge from `rel.src` to `rel.dst` of type `rel.kind`, or a new edge tagged
        with that type when there is none (an edge of another type does not count). */
    method FindOrCreateEdge(rel: Relation) returns (i: nat)
      requires Valid() && rel.src in vertices && rel.dst in vertices
      modifies this
      ensures Valid()
      ensures edges == Ensured(old(edges), rel) && i == Chosen(old(edges), rel)
      ensures vertices == old(vertices) && attributes == old(attributes)
    {
      var found := FindEdgeTo(rel);
      EnsuredWellFormed(vertices, edges, rel);
      if found.Some? {
        i := found.value;
      } else {
        i := |edges|;
        edges := edges + [Edge(rel.src, rel.dst, map[TypeAttribute := rel.kind])];
      }
    }

    /** What every relation builder does before styling: both endpoints are looked up,
        the source first, and only then is the edge found or created; a failed lookup
        changes nothing. */
    method Relate(rel: Relation) returns (r: Result<nat, Failure>)
      requires Valid()
      modifies this
      ensures Valid() && vertices == old(vertices) && attributes == old(attributes)
      ensures Missing(old(vertices), rel).Some? ==>
                r == Err(VertexNotFound(Missing(old(vertices), rel).value)) && edges == old(edges)
      ensures Missing(old(vertices), rel).None? ==>
                r == Ok(Chosen(old(edges), rel)) && edges == Ensured(old(edges), rel)
    {
      var source := GetVertex(rel.src);
      if source.Err? {
        return Err(source.error);
      }
      var target := GetVertex(rel.dst);
      if target.Err? {
        return Err(target.error);
      }
      var i := FindOrCreateEdge(rel);
      r := Ok(i);
    }

    /** Sets an attribute other than the type on edge `i`. */
    method SetEdgeAttribute(i: nat, key: string, value: string)
      requires Valid() && i < |edges| && key != TypeAttribute
      modifies this
      ensures Valid()
      ensures edges == Restyled(old(edges), i, old(edges)[i].attrs[key := value])
      ensures vertices == old(vertices) && attributes == old(attributes)
    {
      ghost var before := edges;
      edges := Restyled(edges, i, edges[i].attrs[key := value]);
      forall j | 0 <= j < |edges| ensures SameSlot(before[j], edges[j]) {
      }
    }

    /** Sets a graph-level attribute. */
    method SetAttribute(key: string, value: string)
      modifies this
      ensures attributes == old(attributes)[key := value]
      ensures vertices == old(vertices) && edges == old(edges)
    {
      attributes := attributes[key := value];
    }

    /** A deep copy: a new graph with the same attributes, vertices and edges. */
    method Clone() returns (copy: Graph)
      requires Valid()
      ensures fresh(copy) && copy.Valid()
      ensures copy.vertices == vertices && copy.edges == edges && copy.attributes == attributes
    {
      copy := new Graph();
      copy.vertices := vertices;
      copy.edges := edges;
      copy.attributes := attributes;
    }
  }
}
