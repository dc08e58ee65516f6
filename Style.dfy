/** The graph-level Graphviz attributes the engine puts on a finished graph before it is
    rendered. */
module Style {
  import opened Graphs

  const BackgroundKey := "graphviz.graph.bgcolor"
  const PadKey := "graphviz.graph.pad"
  const RatioKey := "graphviz.graph.ratio"
  const SplinesKey := "graphviz.graph.splines"
  const OverlapKey := "graphviz.graph.overlap"
  const RankdirKey := "graphviz.graph.rankdir"

  /** The keys the style always writes. */
  function FixedStyleKeys(): set<string> {
    {BackgroundKey, PadKey, RatioKey, SplinesKey, OverlapKey}
  }

  /** The graph attributes after styling: the five fixed ones are (over)written, the rank
      direction only for a horizontal layout, and every other attribute is kept. */
  function GraphvizStyle(attrs: Attributes, horizontal: bool, background: string): (r: Attributes)
    ensures r.Keys == attrs.Keys + FixedStyleKeys() + (if horizontal then {RankdirKey} else {})
    ensures r[BackgroundKey] == background
    ensures r[PadKey] == "0.5" && r[RatioKey] == "fill"
    ensures r[SplinesKey] == "true" && r[OverlapKey] == "false"
    ensures horizontal ==> r[RankdirKey] == "LR"
    ensures forall k :: k in attrs && k !in FixedStyleKeys() && (k != RankdirKey || !horizontal) ==> r[k] == attrs[k]
  {
    var fixed := attrs[BackgroundKey := background][PadKey := "0.5"][RatioKey := "fill"]
                      [SplinesKey := "true"][OverlapKey := "false"];
    if horizontal then fixed[RankdirKey := "LR"] else fixed
  }

  /** The rank direction is set iff the layout is horizontal, on a graph that had none. */
  lemma RankdirOnlyWhenHorizontal(attrs: Attributes, horizontal: bool, background: string)
    requires RankdirKey !in attrs
    ensures RankdirKey in GraphvizStyle(attrs, horizontal, background) <==> horizontal
  {
    assert RankdirKey !in FixedStyleKeys();
  }

  /** Styling a styled graph again with the same options changes nothing. */
  lemma StyleIdempotent(attrs: Attributes, horizontal: bool, background: string)
    ensures GraphvizStyle(GraphvizStyle(attrs, horizontal, background), horizontal, background)
            == GraphvizStyle(attrs, horizontal, background)
  {
    var once := GraphvizStyle(attrs, horizontal, background);
    var twice := GraphvizStyle(once, horizontal, background);
    assert twice.Keys == once.Keys;
    forall k | k in once ensures twice[k] == once[k] {
      if k !in FixedStyleKeys() && (k != RankdirKey || !horizontal) {
        assert k in attrs;
      }
    }
  }

  /** A later call's background wins: restyling with another background gives what
      styling the original attributes with that background would. */
  lemma RestyleOverrides(attrs: Attributes, h1: bool, b1: string, b2: string)
    ensures GraphvizStyle(GraphvizStyle(attrs, h1, b1), h1, b2) == GraphvizStyle(attrs, h1, b2)
  {
    var a := GraphvizStyle(GraphvizStyle(attrs, h1, b1), h1, b2);
    var b := GraphvizStyle(attrs, h1, b2);
    assert a.Keys == b.Keys;
    forall k | k in a ensures a[k] == b[k] {
      if k !in FixedStyleKeys() && (k != RankdirKey || !h1) {
        assert k in attrs;
      }
    }
  }

  /** The styling step: the input graph is cloned, only the clone receives the graph
      attributes, and its vertices and edges are those of the input. */
  method ApplyGraphvizStyle(g: Graph, horizontal: bool, background: string) returns (styled: Graph)
    requires g.Valid()
    ensures fresh(styled) && styled.Valid()
    ensures styled.vertices == g.vertices && styled.edges == g.edges
    ensures styled.attributes == GraphvizStyle(g.attributes, horizontal, background)
  {
    styled := g.Clone();
    styled.SetAttribute(BackgroundKey, background);
    styled.SetAttribute(PadKey, "0.5");
    styled.SetAttribute(RatioKey, "fill");
    styled.SetAttribute(SplinesKey, "true");
    styled.SetAttribute(OverlapKey, "false");
    if horizontal {
      styled.SetAttribute(RankdirKey, "LR");
    }
  }
}
