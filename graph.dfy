/** The graph the view code receives: nodes (actors and works) and actor-to-work links whose
    endpoints are either a raw id string or a node object the render surface put in its place. */
module Graph {
  import opened Wrappers

  datatype Kind = Actor | Work

  /** A node as it appears in the JSON graph; `name` holds its `label` field (`label` is a
      reserved word in Dafny). Actors carry no medium; the render surface's position fields
      are not part of the model. */
  datatype Node = Node(id: string, name: string, kind: Kind, medium: Option<string>, val: int)

  /** A link endpoint: a raw id string, or a reference to a node object. */
  datatype Endpoint = Id(key: string) | Ref(node: Node)

  datatype Link = Link(source: Endpoint, target: Endpoint)

  datatype Graph = Graph(nodes: seq<Node>, links: seq<Link>)

  /** The key an endpoint stands for, `x.id || x`: a node object becomes its id, unless that
      id is the empty (falsy) string, in which case the object itself is the key. */
  function Resolve(e: Endpoint): (r: Endpoint)
    ensures forall s :: r == Id(s) <==> e == Id(s) || (e.Ref? && e.node.id == s && s != "")
    ensures r.Ref? ==> r == e && e.node.id == ""
  {
    match e
    case Id(_) => e
    case Ref(n) => if n.id != "" then Id(n.id) else e
  }

  /** A resolved key resolves to itself. */
  lemma ResolveIdempotent(e: Endpoint)
    ensures Resolve(Resolve(e)) == Resolve(e)
  {
  }

  /** One endpoint of `l` resolves to the id `id`. */
  predicate Touches(l: Link, id: string) {
    Resolve(l.source) == Id(id) || Resolve(l.target) == Id(id)
  }
}
