/** `process_data` of scripts/extract_data.py: turns query-result rows into the graph's node
    and link lists. It fills insertion-ordered dicts in four loops; here each dict is a map
    together with the sequence of its keys in insertion order. */
module Extract {
  import opened Wrappers
  import opened Seqs
  import opened Text
  import opened Graph

  /** One query-result row: the `value`s of its `actor`, `actorLabel`, `work` and `workLabel`
      fields and, when present, of `mediumLabel`. */
  datatype Binding = Binding(actorUri: string, actorLabel: string, workUri: string, workLabel: string, medium: Option<string>)

  const UnknownMedium := "Unknown"
  const ActorVal := 5
  const WorkVal := 3

  function ActorIdOf(b: Binding): string {
    LastSegment(b.actorUri)
  }

  function WorkIdOf(b: Binding): string {
    LastSegment(b.workUri)
  }

  /** The row's medium, "Unknown" when the row has none. */
  function MediumOf(b: Binding): string {
    match b.medium
    case Some(m) => m
    case None => UnknownMedium
  }

  function ActorNode(id: string, name: string): Node {
    Node(id, name, Actor, None, ActorVal)
  }

  function WorkNode(id: string, name: string, medium: string): Node {
    Node(id, name, Work, Some(medium), WorkVal)
  }

  // ---------------------------------------------------------------- what the first loop builds

  /** Keys of `actor_id_to_label`, in insertion order: actor ids in first-seen order. */
  function ActorOrder(bs: seq<Binding>): seq<string> {
    Dedup(Map(ActorIdOf, bs))
  }

  /** Keys of `work_id_to_label`, in insertion order: work ids in first-seen order. */
  function WorkOrder(bs: seq<Binding>): seq<string> {
    Dedup(Map(WorkIdOf, bs))
  }

  /** `actor_id_to_label`: each actor id's label from the last row that names it. */
  function ActorLabels(bs: seq<Binding>): (m: map<string, string>)
    ensures forall a :: a in m <==> a in Map(ActorIdOf, bs)
  {
    if bs == [] then map[]
    else
      var init := bs[..|bs| - 1];
      MapLast(ActorIdOf, bs);
      ActorLabels(init)[ActorIdOf(bs[|bs| - 1]) := bs[|bs| - 1].actorLabel]
  }

  /** `work_id_to_label`: each work id's label from the last row that names it. */
  function WorkLabels(bs: seq<Binding>): (m: map<string, string>)
    ensures forall w :: w in m <==> w in Map(WorkIdOf, bs)
  {
    if bs == [] then map[]
    else
      var init := bs[..|bs| - 1];
      MapLast(WorkIdOf, bs);
      WorkLabels(init)[WorkIdOf(bs[|bs| - 1]) := bs[|bs| - 1].workLabel]
  }

  /** `work_id_to_medium`: each work id's medium from the last row that names it. */
  function WorkMedia(bs: seq<Binding>): (m: map<string, string>)
    ensures forall w :: w in m <==> w in Map(WorkIdOf, bs)
  {
    if bs == [] then map[]
    else
      var init := bs[..|bs| - 1];
      MapLast(WorkIdOf, bs);
      WorkMedia(init)[WorkIdOf(bs[|bs| - 1]) := MediumOf(bs[|bs| - 1])]
  }

  /** Some row pairs actor `a` with work `w`. */
  ghost predicate Credited(bs: seq<Binding>, a: string, w: string) {
    exists i :: 0 <= i < |bs| && ActorIdOf(bs[i]) == a && WorkIdOf(bs[i]) == w
  }

  /** `work_to_actors`: each work id's set of distinct actor ids. */
  function WorkActors(bs: seq<Binding>): (m: map<string, set<string>>)
    ensures forall w :: w in m <==> w in Map(WorkIdOf, bs)
    ensures forall w, a :: w in m ==> (a in m[w] <==> Credited(bs, a, w))
  {
    if bs == [] then map[]
    else
      var init := bs[..|bs| - 1];
      var b := bs[|bs| - 1];
      assert init + [b] == bs;
      var prev := WorkActors(init);
      var w := WorkIdOf(b);
      WorkActorsSnoc(init, b, prev);
      prev[w := (if w in prev then prev[w] else {}) + {ActorIdOf(b)}]
  }

  /** `WorkActors`' contract carries over from `init` to one more row. */
  lemma WorkActorsSnoc(init: seq<Binding>, b: Binding, prev: map<string, set<string>>)
    requires forall w :: w in prev <==> w in Map(WorkIdOf, init)
    requires forall w, a :: w in prev ==> (a in prev[w] <==> Credited(init, a, w))
    ensures var w := WorkIdOf(b);
      var m := prev[w := (if w in prev then prev[w] else {}) + {ActorIdOf(b)}];
      && (forall k :: k in m <==> k in Map(WorkIdOf, init + [b]))
      && (forall k, a :: k in m ==> (a in m[k] <==> Credited(init + [b], a, k)))
  {
    MapSnoc(WorkIdOf, init, b);
    CreditedSnoc(init, b);
  }

  lemma CreditedSnoc(init: seq<Binding>, b: Binding)
    ensures forall a, w :: Credited(init + [b], a, w) <==> Credited(init, a, w) || (a == ActorIdOf(b) && w == WorkIdOf(b))
  {
    var bs := init + [b];
    forall a, w ensures Credited(bs, a, w) <==> Credited(init, a, w) || (a == ActorIdOf(b) && w == WorkIdOf(b)) {
      if Credited(bs, a, w) {
        var i :| 0 <= i < |bs| && ActorIdOf(bs[i]) == a && WorkIdOf(bs[i]) == w;
        if i < |init| {
          assert init[i] == bs[i];
        }
      }
      if Credited(init, a, w) {
        var i :| 0 <= i < |init| && ActorIdOf(init[i]) == a && WorkIdOf(init[i]) == w;
        assert bs[i] == init[i];
      }
      if a == ActorIdOf(b) && w == WorkIdOf(b) {
        assert bs[|init|] == b;
      }
    }
  }

  /** The four dicts of the first loop, each key-ordered dict given by its key order and its map. */
  datatype Dicts = Dicts(actorOrder: seq<string>, actorLabel: map<string, string>,
                         workOrder: seq<string>, workLabel: map<string, string>,
                         workMedium: map<string, string>, workActors: map<string, set<string>>)

  /** The dicts the first loop builds from `bs`. */
  function Scanned(bs: seq<Binding>): Dicts {
    Dicts(ActorOrder(bs), ActorLabels(bs), WorkOrder(bs), WorkLabels(bs), WorkMedia(bs), WorkActors(bs))
  }

  /** What the first loop guarantees of its dicts: the key orders list each key once, the three
      work dicts share their keys, and every credited actor is an actor key. */
  ghost predicate WellFormed(d: Dicts) {
    && Distinct(d.actorOrder) && Distinct(d.workOrder)
    && (forall a :: a in d.actorOrder <==> a in d.actorLabel)
    && (forall w :: w in d.workOrder <==> w in d.workLabel)
    && (forall w :: w in d.workOrder <==> w in d.workMedium)
    && (forall w :: w in d.workOrder <==> w in d.workActors)
    && (forall w, a :: w in d.workActors && a in d.workActors[w] ==> a in d.actorOrder)
  }

  lemma ScannedWellFormed(bs: seq<Binding>)
    ensures WellFormed(Scanned(bs))
  {
    var d := Scanned(bs);
    forall w, a | w in d.workActors && a in d.workActors[w] ensures a in d.actorOrder {
      var i :| 0 <= i < |bs| && ActorIdOf(bs[i]) == a && WorkIdOf(bs[i]) == w;
      assert Map(ActorIdOf, bs)[i] == a;
    }
  }

  // ---------------------------------------------------------------- what process_data returns

  /** A work with at least two distinct credited actors (the test at scripts/extract_data.py:86). */
  predicate Shared(workActors: map<string, set<string>>, w: string) {
    w in workActors && |workActors[w]| >= 2
  }

  /** A work is emitted when at least two distinct actors are credited in it. */
  predicate Emitted(bs: seq<Binding>, w: string) {
    Shared(WorkActors(bs), w)
  }

  /** `{source: a, target: w}` for a shared work `w` among `works` and an actor `a` credited in it. */
  predicate LinkOf(workActors: map<string, set<string>>, works: seq<string>, l: Link) {
    && l.source.Id? && l.target.Id?
    && l.target.key in works && Shared(workActors, l.target.key)
    && l.source.key in workActors[l.target.key]
  }

  /** A link `process_data` returns: actor `a` to emitted work `w` where some row credits `a` in `w`. */
  ghost predicate ExpectedLink(bs: seq<Binding>, l: Link) {
    && l.source.Id? && l.target.Id?
    && Emitted(bs, l.target.key)
    && Credited(bs, l.source.key, l.target.key)
  }

  /** Keeps a shared work that is not one of `keys` already. */
  function NewKey(workActors: map<string, set<string>>, keys: seq<string>): string -> bool {
    (w: string) => Shared(workActors, w) && w !in keys
  }

  /** The key order of the `nodes` dict: the actors, then each shared work not already a key. */
  function DictOrder(d: Dicts): seq<string> {
    d.actorOrder + Filter(d.workOrder, NewKey(d.workActors, d.actorOrder))
  }

  /** The final value of `nodes[k]`: the work node when `k` is a shared work (it overwrites
      an actor of the same id), the actor node otherwise. */
  function DictValue(d: Dicts, k: string): (n: Node)
    requires WellFormed(d)
    requires Shared(d.workActors, k) || k in d.actorLabel
    ensures n.id == k
    ensures n.kind == Work <==> Shared(d.workActors, k)
  {
    if Shared(d.workActors, k) then WorkNode(k, d.workLabel[k], d.workMedium[k])
    else ActorNode(k, d.actorLabel[k])
  }

  /** The `nodes` dict after the actor and work loops. */
  function DictTable(d: Dicts): (t: map<string, Node>)
    requires WellFormed(d)
    ensures forall k :: k in t <==> k in DictOrder(d)
  {
    map k | k in DictOrder(d) :: DictValue(d, k)
  }

  /** The values of `table` at `keys`, in that order. */
  function Values(table: map<string, Node>, keys: seq<string>): (ns: seq<Node>)
    requires forall k :: k in keys ==> k in table
    ensures |ns| == |keys| && forall i :: 0 <= i < |keys| ==> ns[i] == table[keys[i]]
  {
    if keys == [] then [] else Values(table, keys[..|keys| - 1]) + [table[keys[|keys| - 1]]]
  }

  /** Actor `a` is credited in some shared work, so some link leaves it. */
  ghost predicate Linked(d: Dicts, a: string) {
    exists w :: Shared(d.workActors, w) && a in d.workActors[w]
  }

  /** A key survives the final comprehension when it is a shared work, or an actor that is
      the source of some link. */
  ghost function Survives(d: Dicts): string -> bool {
    (k: string) => Shared(d.workActors, k) || Linked(d, k)
  }

  /** The node list built from the first loop's dicts. */
  ghost function NodesOut(d: Dicts): seq<Node>
    requires WellFormed(d)
  {
    Values(DictTable(d), Filter(DictOrder(d), Survives(d)))
  }

  /** The node list `process_data` returns. */
  ghost function ExpectedNodes(bs: seq<Binding>): seq<Node> {
    ScannedWellFormed(bs);
    NodesOut(Scanned(bs))
  }

  // ---------------------------------------------------------------- process_data

  /** The first loop (lines 55-72): one pass over the rows filling the four dicts. A dict's
      insertion order is kept beside it as the sequence of its keys. */
  method ScanRows(results: seq<Binding>)
    returns (actorOrder: seq<string>, actorLabel: map<string, string>,
             workOrder: seq<string>, workLabel: map<string, string>,
             workMedium: map<string, string>, workActors: map<string, set<string>>)
    ensures Dicts(actorOrder, actorLabel, workOrder, workLabel, workMedium, workActors) == Scanned(results)
  {
    actorOrder, actorLabel := [], map[];
    workOrder, workLabel, workMedium, workActors := [], map[], map[], map[];
    var i := 0;
    while i < |results|
      invariant 0 <= i <= |results|
      invariant Dicts(actorOrder, actorLabel, workOrder, workLabel, workMedium, workActors) == Replay(results[..i])
    {
      var item := results[i];
      var actorId := ActorIdOf(item);
      var workId := WorkIdOf(item);
      var medium := MediumOf(item);
      ReplayStep(results, i);
      if actorId !in actorLabel {
        actorOrder := actorOrder + [actorId];
      }
      actorLabel := actorLabel[actorId := item.actorLabel];
      if workId !in workLabel {
        workOrder := workOrder + [workId];
      }
      workLabel := workLabel[workId := item.workLabel];
      workMedium := workMedium[workId := medium];
      var credited := if workId in workActors then workActors[workId] else {};
      workActors := workActors[workId := credited + {actorId}];
      i := i + 1;
    }
    PrefixAll(results);
    ReplayIsScanned(results);
  }

  /** One row's effect on the first loop's dicts: each takes the row's values under its ids,
      and a key order grows when its id is new. */
  function Step(d: Dicts, b: Binding): Dicts {
    var a := ActorIdOf(b);
    var w := WorkIdOf(b);
    Dicts(if a in d.actorLabel then d.actorOrder else d.actorOrder + [a],
          d.actorLabel[a := b.actorLabel],
          if w in d.workLabel then d.workOrder else d.workOrder + [w],
          d.workLabel[w := b.workLabel],
          d.workMedium[w := MediumOf(b)],
          d.workActors[w := (if w in d.workActors then d.workActors[w] else {}) + {a}])
  }

  /** The dicts after stepping through the rows of `bs` in order, from empty dicts. */
  function Replay(bs: seq<Binding>): Dicts {
    if bs == [] then Dicts([], map[], [], map[], map[], map[])
    else Step(Replay(bs[..|bs| - 1]), bs[|bs| - 1])
  }

  lemma ReplayStep(results: seq<Binding>, i: nat)
    requires i < |results|
    ensures Replay(results[..i + 1]) == Step(Replay(results[..i]), results[i])
  {
    assert results[..i + 1][..i] == results[..i];
  }

  /** Stepping through the rows builds the dicts `Scanned` defines from the whole row list. */
  lemma {:induction false} ReplayIsScanned(bs: seq<Binding>)
    ensures Replay(bs) == Scanned(bs)
  {
    if bs != [] {
      var init := bs[..|bs| - 1];
      ReplayIsScanned(init);
      ScannedLast(bs);
    }
  }

  lemma ScannedLast(bs: seq<Binding>)
    requires bs != []
    ensures Scanned(bs) == Step(Scanned(bs[..|bs| - 1]), bs[|bs| - 1])
  {
    assert bs[..|bs| - 1] + [bs[|bs| - 1]] == bs;
    ScannedSnoc(bs[..|bs| - 1], bs[|bs| - 1]);
  }

  /** One more row changes the dicts `Scanned` defines as one `Step` does. */
  lemma ScannedSnoc(init: seq<Binding>, b: Binding)
    ensures Scanned(init + [b]) == Step(Scanned(init), b)
  {
    OrdersSnoc(init, b);
    TablesSnoc(init, b);
  }

  /** How the key orders of the first loop's dicts grow by one row. */
  lemma OrdersSnoc(init: seq<Binding>, b: Binding)
    ensures ActorOrder(init + [b]) == if ActorIdOf(b) in ActorLabels(init) then ActorOrder(init) else ActorOrder(init) + [ActorIdOf(b)]
    ensures WorkOrder(init + [b]) == if WorkIdOf(b) in WorkLabels(init) then WorkOrder(init) else WorkOrder(init) + [WorkIdOf(b)]
  {
    MapSnoc(ActorIdOf, init, b);
    MapSnoc(WorkIdOf, init, b);
    DedupSnoc(Map(ActorIdOf, init), ActorIdOf(b));
    DedupSnoc(Map(WorkIdOf, init), WorkIdOf(b));
  }

  /** How the first loop's dicts grow by one row: the row's values overwrite. */
  lemma TablesSnoc(init: seq<Binding>, b: Binding)
    ensures ActorLabels(init + [b]) == ActorLabels(init)[ActorIdOf(b) := b.actorLabel]
    ensures WorkLabels(init + [b]) == WorkLabels(init)[WorkIdOf(b) := b.workLabel]
    ensures WorkMedia(init + [b]) == WorkMedia(init)[WorkIdOf(b) := MediumOf(b)]
    ensures WorkActors(init + [b]) ==
      var w := WorkIdOf(b); WorkActors(init)[w := (if w in WorkActors(init) then WorkActors(init)[w] else {}) + {ActorIdOf(b)}]
    ensures WorkIdOf(b) in WorkActors(init) <==> WorkIdOf(b) in WorkLabels(init)
  {
    assert (init + [b])[..|init + [b]| - 1] == init;
  }

  /** The second loop (lines 74-81): an actor node under each key of `actor_id_to_label`. */
  method AddActorNodes(actorOrder: seq<string>, actorLabel: map<string, string>)
    returns (order: seq<string>, table: map<string, Node>)
    requires Distinct(actorOrder)
    requires forall a :: a in actorOrder ==> a in actorLabel
    ensures order == actorOrder
    ensures forall k :: k in table <==> k in actorOrder
    ensures forall k :: k in table ==> table[k] == ActorNode(k, actorLabel[k])
  {
    order, table := [], map[];
    for j := 0 to |actorOrder|
      invariant order == actorOrder[..j]
      invariant forall k :: k in table <==> k in actorOrder[..j]
      invariant forall k :: k in table ==> table[k] == ActorNode(k, actorLabel[k])
    {
      var a := actorOrder[j];
      PrefixSnoc(actorOrder, j);
      assert a !in actorOrder[..j];
      if a !in table {
        order := order + [a];
      }
      table := table[a := ActorNode(a, actorLabel[a])];
    }
    PrefixAll(actorOrder);
  }

  /** The innermost loop (lines 95-99): one link from each actor credited in work `w`. The
      set's iteration order is left open: any element may come next. */
  method LinkActors(w: string, actors: set<string>, links0: seq<Link>) returns (links: seq<Link>)
    requires Distinct(links0)
    requires forall l :: l in links0 ==> l.target != Id(w)
    ensures Distinct(links)
    ensures |links| >= |links0| && links[..|links0|] == links0
    ensures forall l :: l in links <==> l in links0 || (l.source.Id? && l.source.key in actors && l.target == Id(w))
  {
    links := links0;
    var rest := actors;
    while rest != {}
      invariant rest <= actors
      invariant Distinct(links)
      invariant |links| >= |links0| && links[..|links0|] == links0
      invariant forall l :: l in links <==> l in links0 || (l.source.Id? && l.source.key in actors - rest && l.target == Id(w))
      decreases |rest|
    {
      var a :| a in rest;
      var link := Link(Id(a), Id(w));
      assert link !in links;
      links := links + [link];
      rest := rest - {a};
    }
  }

  /** The third loop (lines 84-99): for each key of `work_id_to_label` in order, a shared work
      gets its node in `nodes` (appended as a new key unless an actor has that id) and its links. */
  method AddWorkNodes(workOrder: seq<string>, workLabel: map<string, string>, workMedium: map<string, string>,
                      workActors: map<string, set<string>>, order0: seq<string>, table0: map<string, Node>)
    returns (order: seq<string>, table: map<string, Node>, links: seq<Link>)
    requires Distinct(workOrder)
    requires forall w :: w in workOrder ==> w in workLabel && w in workMedium && w in workActors
    requires forall k :: k in table0 <==> k in order0
    ensures order == order0 + Filter(workOrder, NewKey(workActors, order0))
    ensures forall k :: k in table <==> k in order
    ensures WorksAdded(table, table0, workOrder, workLabel, workMedium, workActors)
    ensures forall l :: l in links <==> LinkOf(workActors, workOrder, l)
    ensures Distinct(links)
  {
    order, table, links := order0, table0, [];
    for j := 0 to |workOrder|
      invariant order == order0 + Filter(workOrder[..j], NewKey(workActors, order0))
      invariant forall k :: k in table <==> k in order
      invariant WorksAdded(table, table0, workOrder[..j], workLabel, workMedium, workActors)
      invariant forall l :: l in links <==> LinkOf(workActors, workOrder[..j], l)
      invariant Distinct(links)
    {
      var w := workOrder[j];
      PrefixSnoc(workOrder, j);
      assert w !in workOrder[..j];
      OrderStep(order0, order, workOrder, j, workActors);
      WorksAddedSnoc(table, table0, workOrder[..j], w, workLabel, workMedium, workActors);
      ghost var links0 := links;
      if |workActors[w]| >= 2 {
        if w !in table {
          order := order + [w];
        }
        table := table[w := WorkNode(w, workLabel[w], workMedium[w])];
        NoLinkTo(workActors, workOrder[..j], w, links);
        links := LinkActors(w, workActors[w], links);
      }
      LinksStep(workActors, workOrder[..j], w, links0, links);
    }
    PrefixAll(workOrder);
  }

  /** The links of one more work: those of `works`, and, when `w` is shared, one from each of its actors. */
  lemma LinkOfSnoc(workActors: map<string, set<string>>, works: seq<string>, w: string)
    ensures forall l :: LinkOf(workActors, works + [w], l) <==>
      LinkOf(workActors, works, l) || (Shared(workActors, w) && l.source.Id? && l.source.key in workActors[w] && l.target == Id(w))
  {
  }

  /** The key order after one more work: it grows by the work when `NewKey` keeps it. */
  lemma OrderStep(order0: seq<string>, order: seq<string>, workOrder: seq<string>, j: nat, workActors: map<string, set<string>>)
    requires j < |workOrder| && workOrder[j] !in workOrder[..j]
    requires order == order0 + Filter(workOrder[..j], NewKey(workActors, order0))
    ensures workOrder[j] in order <==> workOrder[j] in order0
    ensures order0 + Filter(workOrder[..j + 1], NewKey(workActors, order0)) ==
      if NewKey(workActors, order0)(workOrder[j]) then order + [workOrder[j]] else order
  {
    var p := NewKey(workActors, order0);
    PrefixSnoc(workOrder, j);
    FilterSnoc(workOrder[..j], workOrder[j], p);
    if p(workOrder[j]) {
      assert order0 + (Filter(workOrder[..j], p) + [workOrder[j]]) == order + [workOrder[j]];
    }
  }

  /** No link built for `works` ends at a work outside them. */
  lemma NoLinkTo(workActors: map<string, set<string>>, works: seq<string>, w: string, links: seq<Link>)
    requires forall l :: l in links <==> LinkOf(workActors, works, l)
    requires w !in works
    ensures forall l :: l in links ==> l.target != Id(w)
  {
  }

  /** The links after one more work are those `LinkOf` gives for it. */
  lemma LinksStep(workActors: map<string, set<string>>, works: seq<string>, w: string, links0: seq<Link>, links: seq<Link>)
    requires forall l :: l in links0 <==> LinkOf(workActors, works, l)
    requires forall l :: l in links <==>
      (l in links0 || (Shared(workActors, w) && l.source.Id? && l.source.key in workActors[w] && l.target == Id(w)))
    ensures forall l :: l in links <==> LinkOf(workActors, works + [w], l)
  {
    LinkOfSnoc(workActors, works, w);
  }

  /** `table` holds the work node of each shared work of `works` and the entry of `table0` at every other key. */
  predicate WorksAdded(table: map<string, Node>, table0: map<string, Node>, works: seq<string>,
                       workLabel: map<string, string>, workMedium: map<string, string>, workActors: map<string, set<string>>)
  {
    forall k :: k in table ==>
      if k in works && Shared(workActors, k) && k in workLabel && k in workMedium
      then table[k] == WorkNode(k, workLabel[k], workMedium[k])
      else k in table0 && table[k] == table0[k]
  }

  lemma WorksAddedSnoc(table: map<string, Node>, table0: map<string, Node>, works: seq<string>, w: string,
                       workLabel: map<string, string>, workMedium: map<string, string>, workActors: map<string, set<string>>)
    requires WorksAdded(table, table0, works, workLabel, workMedium, workActors)
    requires w !in works && w in workLabel && w in workMedium
    ensures Shared(workActors, w) ==>
      WorksAdded(table[w := WorkNode(w, workLabel[w], workMedium[w])], table0, works + [w], workLabel, workMedium, workActors)
    ensures !Shared(workActors, w) ==> WorksAdded(table, table0, works + [w], workLabel, workMedium, workActors)
  {
  }

  /** `a` is the id of an endpoint of `l`. */
  predicate EndOf(l: Link, a: string) {
    l.source == Id(a) || l.target == Id(a)
  }

  /** The fourth loop (lines 101-107): the link endpoints whose entry in `nodes` is an actor. */
  method FinalActorIds(links: seq<Link>, table: map<string, Node>) returns (ids: set<string>)
    requires forall l :: l in links ==> l.source.Id? && l.target.Id? && l.source.key in table && l.target.key in table
    ensures forall a :: a in ids <==> a in table && table[a].kind == Actor && exists l :: l in links && EndOf(l, a)
  {
    ids := {};
    for i := 0 to |links|
      invariant forall a :: a in ids <==> a in table && table[a].kind == Actor && exists l :: l in links[..i] && EndOf(l, a)
    {
      var link := links[i];
      PrefixSnoc(links, i);
      ghost var before := ids;
      if table[link.source.key].kind == Actor {
        ids := ids + {link.source.key};
      }
      if table[link.target.key].kind == Actor {
        ids := ids + {link.target.key};
      }
      forall a ensures a in ids <==> a in table && table[a].kind == Actor && exists l :: l in links[..i + 1] && EndOf(l, a) {
        if a in ids && a !in before {
          assert link in links[..i + 1] && EndOf(link, a);
        }
        if a in table && table[a].kind == Actor && exists l :: l in links[..i + 1] && EndOf(l, a) {
          var l :| l in links[..i + 1] && EndOf(l, a);
          if l != link {
            assert l in links[..i];
          }
        }
      }
    }
    PrefixAll(links);
  }

  /** The filter of the final comprehension (line 109): a collected actor id, or a work node. */
  function Kept(table: map<string, Node>, ids: set<string>): string -> bool {
    (k: string) => k in ids || (k in table && table[k].kind == Work)
  }

  /** The final comprehension (line 109): the entries of `nodes`, in key order, that pass `Kept`. */
  method KeepNodes(order: seq<string>, table: map<string, Node>, ids: set<string>) returns (final: seq<Node>)
    requires forall k :: k in order ==> k in table
    ensures final == Values(table, Filter(order, Kept(table, ids)))
  {
    final := [];
    for q := 0 to |order|
      invariant final == Values(table, Filter(order[..q], Kept(table, ids)))
    {
      var k := order[q];
      KeepStep(order, q, table, ids);
      if k in ids || table[k].kind == Work {
        final := final + [table[k]];
      }
    }
    PrefixAll(order);
  }

  /** One more key of `order` adds its value when it passes `Kept`. */
  lemma KeepStep(order: seq<string>, q: nat, table: map<string, Node>, ids: set<string>)
    requires q < |order|
    requires forall k :: k in order ==> k in table
    ensures Values(table, Filter(order[..q + 1], Kept(table, ids))) ==
      Values(table, Filter(order[..q], Kept(table, ids))) + (if Kept(table, ids)(order[q]) then [table[order[q]]] else [])
  {
    var p := Kept(table, ids);
    PrefixSnoc(order, q);
    FilterSnoc(order[..q], order[q], p);
    var ks := Filter(order[..q], p);
    if p(order[q]) {
      ValuesSnoc(table, ks, order[q]);
    }
  }

  /** `Values` of one more key. */
  lemma ValuesSnoc(table: map<string, Node>, keys: seq<string>, k: string)
    requires forall j :: j in keys ==> j in table
    requires k in table
    ensures Values(table, keys + [k]) == Values(table, keys) + [table[k]]
  {
    assert (keys + [k])[..|keys|] == keys;
  }

  /** `process_data` (lines 45-114). */
  method ProcessData(results: seq<Binding>) returns (nodes: seq<Node>, links: seq<Link>)
    ensures nodes == ExpectedNodes(results)
    ensures forall l :: l in links <==> ExpectedLink(results, l)
    ensures Distinct(links)
  {
    var actorOrder, actorLabel, workOrder, workLabel, workMedium, workActors := ScanRows(results);
    ghost var d := Scanned(results);
    ScannedWellFormed(results);
    ExpectedLinkOf(results);
    var order, table := AddActorNodes(actorOrder, actorLabel);
    ghost var table0 := table;
    order, table, links := AddWorkNodes(workOrder, workLabel, workMedium, workActors, order, table);
    BuiltTable(d, table0, table);
    var ids := FinalActorIds(links, table);
    nodes := KeepNodes(order, table, ids);
    KeptSurvives(d, links, ids);
  }

  /** The links built from the first loop's dicts are the expected links. */
  lemma ExpectedLinkOf(bs: seq<Binding>)
    ensures forall l :: LinkOf(WorkActors(bs), WorkOrder(bs), l) <==> ExpectedLink(bs, l)
  {
  }

  /** The `nodes` dict the actor and work loops build is `DictTable`. */
  lemma BuiltTable(d: Dicts, table0: map<string, Node>, table: map<string, Node>)
    requires WellFormed(d)
    requires forall k :: k in table0 <==> k in d.actorOrder
    requires forall k :: k in table0 ==> table0[k] == ActorNode(k, d.actorLabel[k])
    requires forall k :: k in table <==> k in DictOrder(d)
    requires WorksAdded(table, table0, d.workOrder, d.workLabel, d.workMedium, d.workActors)
    ensures table == DictTable(d)
  {
    forall k | k in table ensures table[k] == DictTable(d)[k] {
      BuiltAt(d, table0, table, k);
    }
  }

  /** `BuiltTable` at one key. */
  lemma BuiltAt(d: Dicts, table0: map<string, Node>, table: map<string, Node>, k: string)
    requires WellFormed(d)
    requires forall k :: k in table0 <==> k in d.actorOrder
    requires forall k :: k in table0 ==> table0[k] == ActorNode(k, d.actorLabel[k])
    requires forall k :: k in table <==> k in DictOrder(d)
    requires WorksAdded(table, table0, d.workOrder, d.workLabel, d.workMedium, d.workActors)
    requires k in table
    ensures table[k] == DictTable(d)[k]
  {
    if Shared(d.workActors, k) {
      assert k in d.workOrder;
    }
  }

  /** On the keys of `nodes`, the final comprehension's filter is `Survives`. */
  lemma KeptSurvives(d: Dicts, links: seq<Link>, ids: set<string>)
    requires WellFormed(d)
    requires forall l :: l in links <==> LinkOf(d.workActors, d.workOrder, l)
    requires forall a :: a in ids <==> a in DictTable(d) && DictTable(d)[a].kind == Actor && exists l :: l in links && EndOf(l, a)
    ensures Filter(DictOrder(d), Kept(DictTable(d), ids)) == Filter(DictOrder(d), Survives(d))
  {
    forall k | k in DictOrder(d) ensures Kept(DictTable(d), ids)(k) == Survives(d)(k) {
      KeptAt(d, links, ids, k);
    }
    FilterCongruent(DictOrder(d), Kept(DictTable(d), ids), Survives(d));
  }

  /** `KeptSurvives` at one key. */
  lemma KeptAt(d: Dicts, links: seq<Link>, ids: set<string>, k: string)
    requires WellFormed(d)
    requires forall l :: l in links <==> LinkOf(d.workActors, d.workOrder, l)
    requires forall a :: a in ids <==> a in DictTable(d) && DictTable(d)[a].kind == Actor && exists l :: l in links && EndOf(l, a)
    requires k in DictOrder(d)
    ensures Kept(DictTable(d), ids)(k) == Survives(d)(k)
  {
    var table := DictTable(d);
    assert table[k] == DictValue(d, k);
    if !Shared(d.workActors, k) {
      if k in ids {
        var l :| l in links && EndOf(l, k);
        assert LinkOf(d.workActors, d.workOrder, l);
        assert Linked(d, k);
      }
      if Linked(d, k) {
        var w :| Shared(d.workActors, w) && k in d.workActors[w];
        var l := Link(Id(k), Id(w));
        assert LinkOf(d.workActors, d.workOrder, l);
        assert l in links && EndOf(l, k);
      }
    }
  }

  // ---------------------------------------------------------------- properties of the output

  function NodeId(n: Node): string {
    n.id
  }

  /** Some link leaves actor `a`: a row credits it in an emitted work. */
  ghost predicate HasLink(bs: seq<Binding>, a: string) {
    exists w :: Emitted(bs, w) && Credited(bs, a, w)
  }

  function EmittedWork(bs: seq<Binding>): string -> bool {
    (w: string) => Emitted(bs, w)
  }

  ghost function LinkedActor(bs: seq<Binding>): string -> bool {
    (a: string) => HasLink(bs, a)
  }

  /** The output lists the surviving keys of `nodes`, in key order, each under its own id. */
  lemma NodesOutIds(d: Dicts)
    requires WellFormed(d)
    ensures Map(NodeId, NodesOut(d)) == Filter(DictOrder(d), Survives(d))
  {
    var keys := Filter(DictOrder(d), Survives(d));
    var ids := Map(NodeId, NodesOut(d));
    forall i | 0 <= i < |keys| ensures ids[i] == keys[i] {
      assert keys[i] in DictOrder(d);
      assert DictTable(d)[keys[i]] == DictValue(d, keys[i]);
    }
  }

  /** An actor has a link in the output exactly when it is credited in a shared work. */
  lemma LinkedScanned(bs: seq<Binding>)
    ensures forall a :: Linked(Scanned(bs), a) <==> HasLink(bs, a)
  {
  }

  /** Each node id occurs once in the output (they are the keys of a dict). */
  lemma NodeIdsDistinct(bs: seq<Binding>)
    ensures Distinct(Map(NodeId, ExpectedNodes(bs)))
  {
    var d := Scanned(bs);
    ScannedWellFormed(bs);
    NodesOutIds(d);
    FilterDistinct(d.workOrder, NewKey(d.workActors, d.actorOrder));
    DistinctConcat(d.actorOrder, Filter(d.workOrder, NewKey(d.workActors, d.actorOrder)));
    FilterDistinct(DictOrder(d), Survives(d));
  }

  /** A surviving key of `nodes` has its entry in the output. */
  lemma NodeOfKey(d: Dicts, k: string) returns (i: nat)
    requires WellFormed(d) && k in DictOrder(d) && Survives(d)(k)
    ensures i < |NodesOut(d)| && NodesOut(d)[i] == DictValue(d, k)
  {
    var keys := Filter(DictOrder(d), Survives(d));
    assert k in keys;
    i :| i < |keys| && keys[i] == k;
  }

  /** An output node is the entry of a surviving key of `nodes`, its own id. */
  lemma KeyOfNode(d: Dicts, n: Node)
    requires WellFormed(d) && n in NodesOut(d)
    ensures n.id in DictOrder(d) && Survives(d)(n.id) && n == DictValue(d, n.id)
  {
    var keys := Filter(DictOrder(d), Survives(d));
    var i :| 0 <= i < |NodesOut(d)| && NodesOut(d)[i] == n;
    assert keys[i] in keys;
    assert n == DictTable(d)[keys[i]];
  }

  /** A shared work is a key of `nodes`. */
  lemma SharedIsKey(d: Dicts, w: string)
    requires WellFormed(d) && Shared(d.workActors, w)
    ensures w in DictOrder(d)
  {
    assert w in d.workOrder;
    if w !in d.actorOrder {
      assert w in Filter(d.workOrder, NewKey(d.workActors, d.actorOrder));
    }
  }

  /** Both ends of a link built from the dicts are ids of surviving nodes. */
  lemma LinksClosedIn(d: Dicts, l: Link)
    requires WellFormed(d) && LinkOf(d.workActors, d.workOrder, l)
    ensures exists n :: n in NodesOut(d) && l.source == Id(n.id)
    ensures exists n :: n in NodesOut(d) && l.target == Id(n.id)
  {
    var a, w := l.source.key, l.target.key;
    assert Linked(d, a);
    SharedIsKey(d, w);
    var i := NodeOfKey(d, a);
    var j := NodeOfKey(d, w);
    assert NodesOut(d)[i] in NodesOut(d) && NodesOut(d)[j] in NodesOut(d);
  }

  /** Every link's source and target are ids of output nodes. */
  lemma LinksClosed(bs: seq<Binding>, l: Link)
    requires ExpectedLink(bs, l)
    ensures exists n :: n in ExpectedNodes(bs) && l.source == Id(n.id)
    ensures exists n :: n in ExpectedNodes(bs) && l.target == Id(n.id)
  {
    ScannedWellFormed(bs);
    ExpectedLinkOf(bs);
    LinksClosedIn(Scanned(bs), l);
  }

  /** The work nodes built from the dicts are exactly the shared works' nodes. */
  lemma WorkNodesIn(d: Dicts)
    requires WellFormed(d)
    ensures forall n :: n in NodesOut(d) && n.kind == Work ==>
      Shared(d.workActors, n.id) && n.id in d.workLabel && n.id in d.workMedium &&
      n == WorkNode(n.id, d.workLabel[n.id], d.workMedium[n.id])
    ensures forall w :: Shared(d.workActors, w) ==>
      w in d.workLabel && w in d.workMedium && WorkNode(w, d.workLabel[w], d.workMedium[w]) in NodesOut(d)
  {
    forall n | n in NodesOut(d) && n.kind == Work
      ensures Shared(d.workActors, n.id) && n.id in d.workLabel && n.id in d.workMedium &&
        n == WorkNode(n.id, d.workLabel[n.id], d.workMedium[n.id])
    {
      KeyOfNode(d, n);
    }
    forall w | Shared(d.workActors, w)
      ensures w in d.workLabel && w in d.workMedium && WorkNode(w, d.workLabel[w], d.workMedium[w]) in NodesOut(d)
    {
      SharedIsKey(d, w);
      var i := NodeOfKey(d, w);
    }
  }

  /** The work nodes of the output are exactly the emitted works, each with the label and medium
      of the last row naming it, type work and val 3. */
  lemma WorkNodesExact(bs: seq<Binding>)
    ensures forall n :: n in ExpectedNodes(bs) && n.kind == Work ==>
      Emitted(bs, n.id) && n == WorkNode(n.id, WorkLabels(bs)[n.id], WorkMedia(bs)[n.id])
    ensures forall w :: Emitted(bs, w) ==> WorkNode(w, WorkLabels(bs)[w], WorkMedia(bs)[w]) in ExpectedNodes(bs)
  {
    ScannedWellFormed(bs);
    WorkNodesIn(Scanned(bs));
  }

  /** The actor nodes built from the dicts are the linked actors that are not shared works. */
  lemma ActorNodesIn(d: Dicts)
    requires WellFormed(d)
    ensures forall n :: n in NodesOut(d) && n.kind == Actor ==>
      Linked(d, n.id) && !Shared(d.workActors, n.id) && n.id in d.actorLabel && n == ActorNode(n.id, d.actorLabel[n.id])
    ensures forall a :: Linked(d, a) && !Shared(d.workActors, a) ==>
      a in d.actorLabel && ActorNode(a, d.actorLabel[a]) in NodesOut(d)
  {
    forall n | n in NodesOut(d) && n.kind == Actor
      ensures Linked(d, n.id) && !Shared(d.workActors, n.id) && n.id in d.actorLabel && n == ActorNode(n.id, d.actorLabel[n.id])
    {
      KeyOfNode(d, n);
    }
    forall a | Linked(d, a) && !Shared(d.workActors, a) ensures a in d.actorLabel && ActorNode(a, d.actorLabel[a]) in NodesOut(d) {
      assert a in d.actorOrder;
      var i := NodeOfKey(d, a);
    }
  }

  /** The actor nodes of the output are exactly the actors some link leaves (and whose id no
      emitted work takes over), each with the label of the last row naming it, type actor,
      val 5 and no medium. */
  lemma ActorNodesExact(bs: seq<Binding>)
    ensures forall n :: n in ExpectedNodes(bs) && n.kind == Actor ==>
      HasLink(bs, n.id) && !Emitted(bs, n.id) && n.id in ActorLabels(bs) && n == ActorNode(n.id, ActorLabels(bs)[n.id])
    ensures forall a :: HasLink(bs, a) && !Emitted(bs, a) ==>
      a in ActorLabels(bs) && ActorNode(a, ActorLabels(bs)[a]) in ExpectedNodes(bs)
  {
    ScannedWellFormed(bs);
    LinkedScanned(bs);
    ActorNodesIn(Scanned(bs));
  }

  /** When no actor id is also a work id, the output lists the linked actors in first-seen
      order, then the emitted works in first-seen order. */
  lemma NodeOrder(bs: seq<Binding>)
    requires forall a :: a in ActorOrder(bs) ==> a !in WorkOrder(bs)
    ensures Map(NodeId, ExpectedNodes(bs)) == Filter(ActorOrder(bs), LinkedActor(bs)) + Filter(WorkOrder(bs), EmittedWork(bs))
  {
    var d := Scanned(bs);
    ScannedWellFormed(bs);
    LinkedScanned(bs);
    NodesOutIds(d);
    var works := Filter(d.workOrder, NewKey(d.workActors, d.actorOrder));
    FilterConcat(d.actorOrder, works, Survives(d));
    FilterCongruent(d.actorOrder, Survives(d), LinkedActor(bs));
    FilterCongruent(d.workOrder, NewKey(d.workActors, d.actorOrder), EmittedWork(bs));
    FilterKeepsAll(works, Survives(d));
  }

  /** An actor's label is the one on the last row that names the actor. */
  lemma {:induction false} ActorLabelLastWrite(bs: seq<Binding>, i: nat)
    requires i < |bs|
    requires forall j :: i < j < |bs| ==> ActorIdOf(bs[j]) != ActorIdOf(bs[i])
    ensures ActorIdOf(bs[i]) in ActorLabels(bs) && ActorLabels(bs)[ActorIdOf(bs[i])] == bs[i].actorLabel
  {
    var init, last := bs[..|bs| - 1], bs[|bs| - 1];
    assert ActorLabels(bs) == ActorLabels(init)[ActorIdOf(last) := last.actorLabel];
    if i < |init| {
      assert ActorIdOf(last) != ActorIdOf(bs[i]);
      assert init[i] == bs[i];
      forall j | i < j < |init| ensures ActorIdOf(init[j]) != ActorIdOf(init[i]) {
        assert init[j] == bs[j];
      }
      ActorLabelLastWrite(init, i);
    }
  }

  /** A work's label is the one on the last row that names the work. */
  lemma {:induction false} WorkLabelLastWrite(bs: seq<Binding>, i: nat)
    requires i < |bs|
    requires forall j :: i < j < |bs| ==> WorkIdOf(bs[j]) != WorkIdOf(bs[i])
    ensures WorkIdOf(bs[i]) in WorkLabels(bs) && WorkLabels(bs)[WorkIdOf(bs[i])] == bs[i].workLabel
  {
    var init, last := bs[..|bs| - 1], bs[|bs| - 1];
    assert WorkLabels(bs) == WorkLabels(init)[WorkIdOf(last) := last.workLabel];
    if i < |init| {
      assert WorkIdOf(last) != WorkIdOf(bs[i]);
      assert init[i] == bs[i];
      forall j | i < j < |init| ensures WorkIdOf(init[j]) != WorkIdOf(init[i]) {
        assert init[j] == bs[j];
      }
      WorkLabelLastWrite(init, i);
    }
  }

  /** A work's medium is the one on the last row that names the work, and "Unknown" when that
      row has none. */
  lemma {:induction false} WorkMediumLastWrite(bs: seq<Binding>, i: nat)
    requires i < |bs|
    requires forall j :: i < j < |bs| ==> WorkIdOf(bs[j]) != WorkIdOf(bs[i])
    ensures WorkIdOf(bs[i]) in WorkMedia(bs) &&
      WorkMedia(bs)[WorkIdOf(bs[i])] == if bs[i].medium.Some? then bs[i].medium.value else "Unknown"
  {
    var init, last := bs[..|bs| - 1], bs[|bs| - 1];
    assert WorkMedia(bs) == WorkMedia(init)[WorkIdOf(last) := MediumOf(last)];
    if i < |init| {
      assert WorkIdOf(last) != WorkIdOf(bs[i]);
      assert init[i] == bs[i];
      forall j | i < j < |init| ensures WorkIdOf(init[j]) != WorkIdOf(init[i]) {
        assert init[j] == bs[j];
      }
      WorkMediumLastWrite(init, i);
    }
  }
}
