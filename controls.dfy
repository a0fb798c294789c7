/** The event handlers' decisions (app.js:83-152): what a node click shows and which camera
    commands it issues, the focus toggle, and the search box's match. */
module Controls {
  import opened Wrappers
  import opened Text
  import opened Graph
  import opened Details

  /** Zoom level after a click, and the one a search match asks for first. */
  const ClickZoom := 2
  const SearchZoom := 3

  const FocusLabel := "Focus View"
  const ExitFocusLabel := "Exit Focus View"

  /** A camera command. Centering reads the node's simulated position, which belongs to the
      render surface; the model records only which node is centred. */
  datatype Camera = CenterOn(node: Node) | Zoom(level: int)

  /** The outcome of `handleNodeClick`: the new selection, the panel texts and the camera
      commands. */
  datatype Click = Click(selected: Node, name: string, typeText: string, detail: Detail, focusButton: string, camera: seq<Camera>)

  /** A click selects the node, fills the panel from the full graph, labels the focus button by
      the current focus and, when the render surface is mounted, centres on the node and zooms
      to 2. */
  function OnClick(data: Graph, node: Node, focus: Option<Node>, surfaceReady: bool): (c: Click)
    ensures c.selected == node && c.name == node.name
    ensures c.typeText == TypeText(node) && c.detail == DetailOf(data, node)
    ensures c.focusButton == (if focus.Some? then ExitFocusLabel else FocusLabel)
    ensures c.camera == if surfaceReady then [CenterOn(node), Zoom(ClickZoom)] else []
  {
    Click(node, node.name, TypeText(node), DetailOf(data, node),
          if focus.Some? then ExitFocusLabel else FocusLabel,
          if surfaceReady then [CenterOn(node), Zoom(ClickZoom)] else [])
  }

  /** The new focus and, when the handler sets it, the focus button's new text. */
  datatype Toggle = Toggle(focus: Option<Node>, button: Option<string>)

  /** `onFocus`: leave the focus view when one is set; otherwise enter it on the selected node;
      with neither, nothing changes. */
  function OnFocus(focus: Option<Node>, selected: Option<Node>): (t: Toggle)
    ensures focus.Some? ==> t.focus.None?
    ensures focus.None? ==> t.focus == selected
    ensures t.button.Some? <==> t.focus != focus
    ensures t.button.Some? ==> t.button.value == if t.focus.Some? then ExitFocusLabel else FocusLabel
  {
    if focus.Some? then Toggle(None, Some(FocusLabel))
    else if selected.Some? then Toggle(selected, Some(ExitFocusLabel))
    else Toggle(focus, None)
  }

  /** Entering the focus view and toggling again returns to the unfocused view. */
  lemma OnFocusTwice(selected: Option<Node>)
    ensures OnFocus(OnFocus(None, selected).focus, selected).focus.None?
  {
  }

  /** `n`'s lower-cased label contains the lower-cased query `q`. */
  predicate Matches(n: Node, q: string) {
    Contains(Lower(n.name), q)
  }

  /** `nodes[i]` is the first node whose label matches `q`. */
  predicate FirstMatchAt(nodes: seq<Node>, q: string, i: int) {
    0 <= i < |nodes| && Matches(nodes[i], q) && forall j :: 0 <= j < i ==> !Matches(nodes[j], q)
  }

  /** The position of the first node, from `from` on, whose label matches `q`. */
  function FirstMatchFrom(nodes: seq<Node>, q: string, from: nat): (r: Option<nat>)
    requires from <= |nodes|
    ensures r.Some? ==> from <= r.value < |nodes| && Matches(nodes[r.value], q)
    ensures r.Some? ==> forall j :: from <= j < r.value ==> !Matches(nodes[j], q)
    ensures r.None? ==> forall j :: from <= j < |nodes| ==> !Matches(nodes[j], q)
    decreases |nodes| - from
  {
    if from == |nodes| then None
    else if Matches(nodes[from], q) then Some(from)
    else FirstMatchFrom(nodes, q, from + 1)
  }

  /** The search match (`nodes.find(n => n.label.toLowerCase().includes(query))` for a
      lower-cased, non-empty query): the first node in graph order whose label contains the
      query, ignoring ASCII case; none for an empty query. */
  function SearchMatch(nodes: seq<Node>, query: string): (r: Option<Node>)
    ensures query == "" ==> r.None?
    ensures r.Some? ==> exists i :: FirstMatchAt(nodes, Lower(query), i) && nodes[i] == r.value
    ensures r.None? && query != "" ==> forall n :: n in nodes ==> !Matches(n, Lower(query))
  {
    var q := Lower(query);
    if q == "" then None
    else match FirstMatchFrom(nodes, q, 0)
      case Some(i) => assert FirstMatchAt(nodes, q, i); Some(nodes[i])
      case None => None
  }

  /** `onSearch`: nothing happens for an empty query, without a match, or before the render
      surface is mounted; otherwise the match is centred and zoomed to 3, then clicked, which
      fills the panel as a click on it does, centres it again and zooms to 2. */
  function OnSearch(data: Graph, query: string, focus: Option<Node>, surfaceReady: bool): (r: Option<Click>)
    ensures r.None? <==> query == "" || SearchMatch(data.nodes, query).None? || !surfaceReady
    ensures r.Some? ==>
      var m := SearchMatch(data.nodes, query).value;
      && r.value.selected == m
      && r.value.camera == [CenterOn(m), Zoom(SearchZoom), CenterOn(m), Zoom(ClickZoom)]
    ensures r.Some? ==>
      r.value.(camera := []) == OnClick(data, SearchMatch(data.nodes, query).value, focus, true).(camera := [])
  {
    match SearchMatch(data.nodes, query)
    case Some(m) =>
      if surfaceReady then
        var click := OnClick(data, m, focus, true);
        Some(click.(camera := [CenterOn(m), Zoom(SearchZoom)] + click.camera))
      else None
    case None => None
  }

  /** A successful search ends at the click's zoom level, not at the search's own. */
  lemma SearchEndsAtClickZoom(data: Graph, query: string, focus: Option<Node>)
    requires OnSearch(data, query, focus, true).Some?
    ensures var c := OnSearch(data, query, focus, true).value.camera; c[|c| - 1] == Zoom(ClickZoom) && Zoom(SearchZoom) in c
  {
  }
}
