/** The subgraph handed to the render surface (the `filteredData` memo of app.js): first the
    medium filter over the loaded graph, then, when a node is focused, its neighbourhood. */
module View {
  import opened Wrappers
  import opened Seqs
  import opened Graph

  /** The filter value that switches the medium filter off. */
  const AllMedia := "all"

  // ---------------------------------------------------------------- medium filter

  /** `validWorks`: the ids of the works whose medium is `m`. */
  function ValidWorks(nodes: seq<Node>, m: string): set<Endpoint> {
    set n | n in nodes && n.kind == Work && n.medium == Some(m) :: Id(n.id)
  }

  /** Some work of medium `m` in `nodes` has the id `k`. */
  ghost predicate IsWorkOf(nodes: seq<Node>, m: string, k: Endpoint) {
    exists w :: w in nodes && w.kind == Work && w.medium == Some(m) && k == Id(w.id)
  }

  /** The resolved source ids of `links` (`connectedActors`). */
  function Sources(links: seq<Link>): set<Endpoint> {
    set l | l in links :: Resolve(l.source)
  }

  /** The resolved target ids of `links`. */
  function Targets(links: seq<Link>): set<Endpoint> {
    set l | l in links :: Resolve(l.target)
  }

  function TargetIn(ks: set<Endpoint>): Link -> bool {
    (l: Link) => Resolve(l.target) in ks
  }

  function KeptByMedium(valid: set<Endpoint>, actors: set<Endpoint>): Node -> bool {
    (n: Node) => (n.kind == Work && Id(n.id) in valid) || (n.kind == Actor && Id(n.id) in actors)
  }

  /** The medium filter (app.js, filter other than "all"): the links whose target is a work of
      medium `m`, the works of medium `m`, and the actors that are the source of a kept link. */
  function ByMedium(g: Graph, m: string): (r: Graph)
    ensures forall l {:trigger l in r.links} :: l in r.links <==> l in g.links && IsWorkOf(g.nodes, m, Resolve(l.target))
    ensures forall n {:trigger n in r.nodes} :: n in r.nodes <==>
      && n in g.nodes
      && (|| (n.kind == Work && IsWorkOf(g.nodes, m, Id(n.id)))
          || (n.kind == Actor && Id(n.id) in Sources(r.links)))
  {
    var valid := ValidWorks(g.nodes, m);
    var links := Filter(g.links, TargetIn(valid));
    Graph(Filter(g.nodes, KeptByMedium(valid, Sources(links))), links)
  }

  /** The medium filter is stable: both lists keep their input order, and every copy of a kept
      element is kept. */
  lemma ByMediumOrder(g: Graph, m: string) returns (nodeIdx: seq<nat>, linkIdx: seq<nat>)
    ensures Embeds(ByMedium(g, m).nodes, g.nodes, nodeIdx)
    ensures Embeds(ByMedium(g, m).links, g.links, linkIdx)
    ensures forall j :: 0 <= j < |g.nodes| && g.nodes[j] in ByMedium(g, m).nodes ==> j in nodeIdx
    ensures forall j :: 0 <= j < |g.links| && g.links[j] in ByMedium(g, m).links ==> j in linkIdx
  {
    var valid := ValidWorks(g.nodes, m);
    var links := Filter(g.links, TargetIn(valid));
    nodeIdx := FilterEmbeds(g.nodes, KeptByMedium(valid, Sources(links)));
    linkIdx := FilterEmbeds(g.links, TargetIn(valid));
  }

  /** A medium that no work has filters everything away, without error. */
  lemma ByMediumNoWorks(g: Graph, m: string)
    requires forall n :: n in g.nodes ==> !(n.kind == Work && n.medium == Some(m))
    ensures ByMedium(g, m) == Graph([], [])
  {
    var valid := ValidWorks(g.nodes, m);
    assert valid == {};
    var links := Filter(g.links, TargetIn(valid));
    FilterKeepsNone(g.links, TargetIn(valid));
    assert Sources(links) == {};
    FilterKeepsNone(g.nodes, KeptByMedium(valid, Sources(links)));
  }

  /** A graph in which every link ends at a work of medium `m`, and every node is such a work
      or the source of a link, passes the medium filter `m` unchanged. */
  lemma ByMediumKeepsAll(g: Graph, m: string)
    requires forall l :: l in g.links ==> IsWorkOf(g.nodes, m, Resolve(l.target))
    requires forall n :: n in g.nodes ==>
      (n.kind == Work && n.medium == Some(m)) || (n.kind == Actor && Id(n.id) in Sources(g.links))
    ensures ByMedium(g, m) == g
  {
    var valid := ValidWorks(g.nodes, m);
    FilterKeepsAll(g.links, TargetIn(valid));
    FilterKeepsAll(g.nodes, KeptByMedium(valid, Sources(g.links)));
  }

  // ---------------------------------------------------------------- focus view

  /** The id app.js:41 collects for a link touching the focus id `fid`. It asks whether the
      source is a node object with id `fid` (with no `|| l.source` fallback): for a raw id
      string that test fails and the source itself, the focus id, is taken. */
  function Other(l: Link, fid: string): Endpoint {
    if l.source.Ref? && l.source.node.id == fid then Resolve(l.target) else Resolve(l.source)
  }

  /** The other endpoint of a link touching `fid`, as the comment at app.js:39 describes it. */
  function OppositeEnd(l: Link, fid: string): Endpoint {
    if Resolve(l.source) == Id(fid) then Resolve(l.target) else Resolve(l.source)
  }

  function TouchesId(fid: string): Link -> bool {
    (l: Link) => Touches(l, fid)
  }

  /** `workIds`: built only from the links of the (medium-filtered) list `links` that touch
      the focus id, one `Other` per such link. */
  function WorkIds(links: seq<Link>, fid: string): set<Endpoint> {
    set l | l in Filter(links, TouchesId(fid)) :: Other(l, fid)
  }

  /** Every member of `workIds` comes from a link of the filtered list that touches the focus
      id, and every such link contributes one. */
  lemma WorkIdsFromFocusLinks(links: seq<Link>, fid: string)
    ensures forall k :: k in WorkIds(links, fid) <==> exists l :: l in links && Touches(l, fid) && k == Other(l, fid)
  {
  }

  function TouchesSome(ks: set<Endpoint>): Link -> bool {
    (l: Link) => Resolve(l.target) in ks || Resolve(l.source) in ks
  }

  /** `neighbors`: the focus id, the work ids, and both ends of every secondary link. */
  function Neighbors(fid: string, ws: set<Endpoint>, secondary: seq<Link>): set<Endpoint> {
    {Id(fid)} + ws + Sources(secondary) + Targets(secondary)
  }

  function IdIn(ks: set<Endpoint>): Node -> bool {
    (n: Node) => Id(n.id) in ks
  }

  /** The focus view (app.js:37-54). `links` is the output of the medium filter; the secondary
      links and the output nodes are taken from the full graph `data`. */
  function Expand(data: Graph, links: seq<Link>, focus: Node): (r: Graph)
    ensures forall l {:trigger l in r.links} :: l in r.links <==>
      l in data.links && (Resolve(l.source) in WorkIds(links, focus.id) || Resolve(l.target) in WorkIds(links, focus.id))
    ensures forall n {:trigger n in r.nodes} :: n in r.nodes <==>
      && n in data.nodes
      && (|| n.id == focus.id
          || Id(n.id) in WorkIds(links, focus.id)
          || Id(n.id) in Sources(r.links) + Targets(r.links))
    ensures focus in data.nodes ==> focus in r.nodes
  {
    var ws := WorkIds(links, focus.id);
    var secondary := Filter(data.links, TouchesSome(ws));
    Graph(Filter(data.nodes, IdIn(Neighbors(focus.id, ws, secondary))), secondary)
  }

  /** The focus view keeps the full graph's order of nodes and of links, and every copy of a
      kept element. */
  lemma ExpandOrder(data: Graph, links: seq<Link>, focus: Node) returns (nodeIdx: seq<nat>, linkIdx: seq<nat>)
    ensures Embeds(Expand(data, links, focus).nodes, data.nodes, nodeIdx)
    ensures Embeds(Expand(data, links, focus).links, data.links, linkIdx)
    ensures forall j :: 0 <= j < |data.nodes| && data.nodes[j] in Expand(data, links, focus).nodes ==> j in nodeIdx
    ensures forall j :: 0 <= j < |data.links| && data.links[j] in Expand(data, links, focus).links ==> j in linkIdx
  {
    var ws := WorkIds(links, focus.id);
    var secondary := Filter(data.links, TouchesSome(ws));
    nodeIdx := FilterEmbeds(data.nodes, IdIn(Neighbors(focus.id, ws, secondary)));
    linkIdx := FilterEmbeds(data.links, TouchesSome(ws));
  }

  /** When a link's source is a node object with a non-empty id, as the render surface leaves
      it, the test at app.js:41 takes the endpoint opposite the focus. */
  lemma OtherIsOppositeWhenResolved(l: Link, fid: string)
    requires l.source.Ref? && l.source.node.id != ""
    ensures Other(l, fid) == OppositeEnd(l, fid)
  {
  }

  /** With a raw id string as source, a link from the focus actor contributes the focus id
      itself to `workIds`, not the work it points to. */
  lemma OtherOfRawSource(l: Link, fid: string)
    requires l.source == Id(fid)
    ensures Other(l, fid) == Id(fid)
  {
  }

  /** When the focus is an actor (no link of `links` ends at it) and the sources are raw id
      strings, the focus view stops after one hop: `workIds` holds at most the focus id, so
      only the full graph's links touching the focus are shown. */
  lemma RawLinksGiveOneHop(data: Graph, links: seq<Link>, focus: Node)
    requires forall l :: l in links ==> l.source.Id? && Resolve(l.target) != Id(focus.id)
    ensures WorkIds(links, focus.id) <= {Id(focus.id)}
    ensures forall l :: l in Expand(data, links, focus).links ==> Touches(l, focus.id)
  {
    WorkIdsFromFocusLinks(links, focus.id);
    forall k | k in WorkIds(links, focus.id) ensures k == Id(focus.id) {
      var l :| l in links && Touches(l, focus.id) && k == Other(l, focus.id);
    }
  }

  /** Focusing an actor shows each work it is credited in (through a link whose source the
      render surface has resolved) and every actor credited in that work anywhere in the full
      graph, with the link between them. */
  lemma ExpandReachesCoStars(data: Graph, links: seq<Link>, focus: Node, l: Link, l2: Link, w: Node, a: Node)
    requires l in links && l.source == Ref(focus) && focus.id != ""
    requires l2 in data.links && Resolve(l2.target) == Resolve(l.target)
    requires w in data.nodes && Id(w.id) == Resolve(l.target)
    requires a in data.nodes && Id(a.id) == Resolve(l2.source)
    ensures l2 in Expand(data, links, focus).links
    ensures w in Expand(data, links, focus).nodes && a in Expand(data, links, focus).nodes
  {
    assert Touches(l, focus.id);
    WorkIdsFromFocusLinks(links, focus.id);
    assert Other(l, focus.id) in WorkIds(links, focus.id);
  }

  // ---------------------------------------------------------------- the memo

  /** `filteredData`: the medium filter unless it is "all", then the focus view when a node is
      focused. */
  function Derive(data: Graph, filter: string, focus: Option<Node>): (r: Graph)
    ensures filter == AllMedia && focus == None ==> r == data
    ensures forall n :: n in r.nodes ==> n in data.nodes
    ensures forall l :: l in r.links ==> l in data.links
    ensures focus.Some? && focus.value in data.nodes ==> focus.value in r.nodes
  {
    var filtered := if filter == AllMedia then data else ByMedium(data, filter);
    if focus.Some? then Expand(data, filtered.links, focus.value) else filtered
  }

  /** Whatever the filter and focus, the rendered lists keep the loaded graph's order, and every
      copy of a kept element. */
  lemma DeriveOrder(data: Graph, filter: string, focus: Option<Node>) returns (nodeIdx: seq<nat>, linkIdx: seq<nat>)
    ensures Embeds(Derive(data, filter, focus).nodes, data.nodes, nodeIdx)
    ensures Embeds(Derive(data, filter, focus).links, data.links, linkIdx)
    ensures forall j :: 0 <= j < |data.nodes| && data.nodes[j] in Derive(data, filter, focus).nodes ==> j in nodeIdx
    ensures forall j :: 0 <= j < |data.links| && data.links[j] in Derive(data, filter, focus).links ==> j in linkIdx
  {
    var filtered := if filter == AllMedia then data else ByMedium(data, filter);
    if focus.Some? {
      nodeIdx, linkIdx := ExpandOrder(data, filtered.links, focus.value);
    } else if filter == AllMedia {
      nodeIdx := Identity(|data.nodes|);
      linkIdx := Identity(|data.links|);
    } else {
      nodeIdx, linkIdx := ByMediumOrder(data, filter);
    }
  }

  /** The positions `0 .. n-1`. */
  function Identity(n: nat): (idx: seq<nat>)
    ensures |idx| == n && forall i :: 0 <= i < n ==> idx[i] == i
  {
    seq(n, i => i)
  }

  // ---------------------------------------------------------------- a worked example

  /** Actor `a1` voices works `w1` and `w2`; actor `a2` voices `w2` only. With `live`, link
      endpoints are node objects, as the render surface leaves them; otherwise they are raw id
      strings, as in the JSON file. */
  function Sample(a1: Node, a2: Node, w1: Node, w2: Node, live: bool): Graph {
    if live then
      Graph([a1, a2, w1, w2], [Link(Ref(a1), Ref(w1)), Link(Ref(a1), Ref(w2)), Link(Ref(a2), Ref(w2))])
    else
      Graph([a1, a2, w1, w2], [Link(Id(a1.id), Id(w1.id)), Link(Id(a1.id), Id(w2.id)), Link(Id(a2.id), Id(w2.id))])
  }

  /** The four sample nodes have the distinct non-empty ids A1, A2, W1, W2. */
  predicate SampleIds(a1: Node, a2: Node, w1: Node, w2: Node) {
    a1.id == "A1" && a2.id == "A2" && w1.id == "W1" && w2.id == "W2"
  }

  /** With node objects as endpoints, focusing A1 brings in its co-star A2 through W2. */
  lemma LiveSampleFocus(a1: Node, a2: Node, w1: Node, w2: Node)
    requires SampleIds(a1, a2, w1, w2)
    ensures a2 in Derive(Sample(a1, a2, w1, w2, true), AllMedia, Some(a1)).nodes
  {
    var g := Sample(a1, a2, w1, w2, true);
    ExpandReachesCoStars(g, g.links, a1, g.links[1], g.links[2], w2, a2);
  }

  /** With raw id strings as endpoints, the test at app.js:41 never succeeds: focusing A1 shows
      A1 and its works but not its co-star A2. */
  lemma RawSampleFocus(a1: Node, a2: Node, w1: Node, w2: Node)
    requires SampleIds(a1, a2, w1, w2)
    ensures a2 !in Derive(Sample(a1, a2, w1, w2, false), AllMedia, Some(a1)).nodes
  {
    var g := Sample(a1, a2, w1, w2, false);
    RawSampleLinks(a1, a2, w1, w2);
    RawLinksGiveOneHop(g, g.links, a1);
    var r := Expand(g, g.links, a1);
    assert Derive(g, AllMedia, Some(a1)) == r;
    assert Id(a2.id) !in Sources(r.links) + Targets(r.links);
  }

  /** The raw sample's links: no source is a node object, none ends at A1, and those touching
      A1 do not touch A2. */
  lemma RawSampleLinks(a1: Node, a2: Node, w1: Node, w2: Node)
    requires SampleIds(a1, a2, w1, w2)
    ensures forall l :: l in Sample(a1, a2, w1, w2, false).links ==> l.source.Id? && Resolve(l.target) != Id(a1.id)
    ensures forall l :: l in Sample(a1, a2, w1, w2, false).links && Touches(l, a1.id) ==>
      Resolve(l.source) != Id(a2.id) && Resolve(l.target) != Id(a2.id)
  {
    var ls := Sample(a1, a2, w1, w2, false).links;
    assert forall l :: l in ls ==> l == ls[0] || l == ls[1] || l == ls[2];
  }

  /** In the sample with anime works, filtering by "game" leaves nothing. */
  lemma LiveSampleOtherMedium(a1: Node, a2: Node, w1: Node, w2: Node)
    requires w1.medium == Some("anime") && w2.medium == Some("anime")
    requires a1.kind == Actor && a2.kind == Actor
    ensures Derive(Sample(a1, a2, w1, w2, true), "game", None) == Graph([], [])
  {
    ByMediumNoWorks(Sample(a1, a2, w1, w2, true), "game");
  }
}
