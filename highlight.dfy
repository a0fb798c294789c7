/** The hover highlight (`handleNodeHover`, app.js:68-81): two shared sets, cleared and refilled
    on every hover event, that only drive link width and particle count. */
module Highlight {
  import opened Wrappers
  import opened Graph

  /** The positions below `n` of the links touching the id `id`. */
  function Touching(links: seq<Link>, id: string, n: nat): set<nat> {
    set i | 0 <= i < n && i < |links| && Touches(links[i], id)
  }

  /** Both endpoints, exactly as stored in the link (an id string or a node object), of the
      links at the positions `at`. */
  function Ends(links: seq<Link>, at: set<nat>): set<Endpoint> {
    (set i | i in at && i < |links| :: links[i].source) + (set i | i in at && i < |links| :: links[i].target)
  }

  /** The positions in `links` of the links touching the hovered node's id. JS compares link
      objects by identity; a position in the loaded list stands for that identity. */
  function HoverLinks(links: seq<Link>, hovered: Option<Node>): set<nat> {
    if hovered.None? then {} else Touching(links, hovered.value.id, |links|)
  }

  /** The hovered node, then both endpoints of each link touching it. */
  function HoverNodes(links: seq<Link>, hovered: Option<Node>): set<Endpoint> {
    if hovered.None? then {} else {Ref(hovered.value)} + Ends(links, HoverLinks(links, hovered))
  }

  /** One more position: it joins when its link touches the id. */
  lemma TouchingStep(links: seq<Link>, id: string, n: nat)
    requires n < |links|
    ensures Touching(links, id, n + 1) == Touching(links, id, n) + (if Touches(links[n], id) then {n} else {})
  {
  }

  /** One more position adds its link's two endpoints. */
  lemma EndsAdd(links: seq<Link>, at: set<nat>, n: nat)
    requires n < |links|
    ensures Ends(links, at + {n}) == Ends(links, at) + {links[n].source, links[n].target}
  {
  }

  /** The render state shared with the link-styling callbacks. */
  class Highlighter {
    var nodes: set<Endpoint>
    var links: set<nat>

    constructor ()
      ensures nodes == {} && links == {}
    {
      nodes := {};
      links := {};
    }

    /** Clear both sets, then, for a hovered node, add it and walk the full link list adding
        each touching link and both its endpoints. Nothing from an earlier hover survives. */
    method Hover(data: Graph, hovered: Option<Node>)
      modifies this
      ensures links == HoverLinks(data.links, hovered)
      ensures nodes == HoverNodes(data.links, hovered)
    {
      nodes := {};
      links := {};
      if hovered.Some? {
        var node := hovered.value;
        nodes := nodes + {Ref(node)};
        var i := 0;
        while i < |data.links|
          invariant 0 <= i <= |data.links|
          invariant links == Touching(data.links, node.id, i)
          invariant nodes == {Ref(node)} + Ends(data.links, links)
        {
          var link := data.links[i];
          TouchingStep(data.links, node.id, i);
          if Resolve(link.source) == Id(node.id) || Resolve(link.target) == Id(node.id) {
            EndsAdd(data.links, links, i);
            links := links + {i};
            nodes := nodes + {link.source};
            nodes := nodes + {link.target};
          }
          i := i + 1;
        }
      }
    }
  }

  /** Hovering nothing leaves both sets empty. */
  lemma HoverNothing(data: Graph)
    ensures HoverLinks(data.links, None) == {} && HoverNodes(data.links, None) == {}
  {
  }

  /** Local closure: every highlighted link touches the hovered node, the hovered node is
      highlighted, and every other highlighted node is an endpoint of a highlighted link. */
  lemma HoverIsLocal(data: Graph, n: Node)
    ensures forall i :: i in HoverLinks(data.links, Some(n)) ==> i < |data.links| && Touches(data.links[i], n.id)
    ensures Ref(n) in HoverNodes(data.links, Some(n))
    ensures forall e :: e in HoverNodes(data.links, Some(n)) && e != Ref(n) ==>
      exists i :: i in HoverLinks(data.links, Some(n)) && (e == data.links[i].source || e == data.links[i].target)
  {
  }

  /** Completeness: every link of the full graph touching the hovered node is highlighted,
      with both endpoints. */
  lemma HoverIsComplete(data: Graph, n: Node, i: nat)
    requires i < |data.links| && Touches(data.links[i], n.id)
    ensures i in HoverLinks(data.links, Some(n))
    ensures data.links[i].source in HoverNodes(data.links, Some(n))
    ensures data.links[i].target in HoverNodes(data.links, Some(n))
  {
  }
}
