/** The detail panel of a clicked node (app.js:93-106): its type text and its "Credits" (for
    an actor) or "Cast" (for a work) list. */
module Details {
  import opened Wrappers
  import opened Seqs
  import opened Graph

  /** At most this many credits are listed. */
  const CreditsCap := 15

  /** The panel's type line: "Voice Actor" for an actor, otherwise the work's medium, or "Work"
      when the medium is missing or empty (`node.medium || 'Work'`). */
  function TypeText(n: Node): (t: string)
    ensures t != ""
    ensures n.kind == Actor ==> t == "Voice Actor"
    ensures n.kind == Work && n.medium.Some? && n.medium.value != "" ==> t == n.medium.value
    ensures n.kind == Work && (n.medium.None? || n.medium == Some("")) ==> t == "Work"
  {
    if n.kind == Actor then "Voice Actor"
    else match n.medium
      case Some(m) => if m != "" then m else "Work"
      case None => "Work"
  }

  /** The node at position `i` is the first one whose id is the key `key`. */
  predicate FirstWithKey(nodes: seq<Node>, key: Endpoint, i: int) {
    0 <= i < |nodes| && Id(nodes[i].id) == key && forall j :: 0 <= j < i ==> Id(nodes[j].id) != key
  }

  /** `data.nodes.find(n => n.id === key)?.label`: the label of the first node whose id is
      `key`, or nothing when no node has it (a dangling link end). */
  function LabelOf(nodes: seq<Node>, key: Endpoint): (r: Option<string>)
    ensures r.None? <==> forall i :: 0 <= i < |nodes| ==> Id(nodes[i].id) != key
    ensures r.Some? ==> exists i :: FirstWithKey(nodes, key, i) && r.value == nodes[i].name
  {
    if nodes == [] then None
    else if Id(nodes[0].id) == key then
      assert FirstWithKey(nodes, key, 0);
      Some(nodes[0].name)
    else
      var r := LabelOf(nodes[1..], key);
      assert forall i :: FirstWithKey(nodes[1..], key, i) ==> FirstWithKey(nodes, key, i + 1);
      r
  }

  /** `keys.map(k => find(k)?.label).filter(Boolean)`: the labels found for the keys, in order,
      with missing and empty labels dropped. */
  function FoundLabels(nodes: seq<Node>, keys: seq<Endpoint>): (r: seq<string>)
    ensures |r| <= |keys|
    ensures forall s :: s in r <==> s != "" && exists k :: k in keys && LabelOf(nodes, k) == Some(s)
  {
    if keys == [] then []
    else
      var head := match LabelOf(nodes, keys[0]) case Some(s) => if s != "" then [s] else [] case None => [];
      var rest := FoundLabels(nodes, keys[1..]);
      assert forall k :: k in keys <==> k == keys[0] || k in keys[1..];
      head + rest
  }

  /** What `find(k)?.label` gives for the key `k`, with a missing node read as the empty
      label: `filter(Boolean)` drops both alike. */
  function FoundText(nodes: seq<Node>): Endpoint -> string {
    (k: Endpoint) => match LabelOf(nodes, k) case Some(s) => s case None => ""
  }

  /** The test `filter(Boolean)` applies to a string. */
  predicate NonEmpty(s: string) {
    s != ""
  }

  /** `FoundLabels` is `keys.map(...)` followed by `filter(Boolean)`: one label per key whose
      node is found with a non-empty label, in key order, repeats kept. */
  lemma {:induction false} FoundLabelsMapFilter(nodes: seq<Node>, keys: seq<Endpoint>)
    ensures FoundLabels(nodes, keys) == Filter(Map(FoundText(nodes), keys), NonEmpty)
  {
    if keys != [] {
      var texts := Map(FoundText(nodes), keys);
      MapCons(FoundText(nodes), keys);
      assert texts[1..] == Map(FoundText(nodes), keys[1..]);
      FoundLabelsMapFilter(nodes, keys[1..]);
    }
  }

  function SourceIs(id: string): Link -> bool {
    (l: Link) => Resolve(l.source) == Id(id)
  }

  function TargetIs(id: string): Link -> bool {
    (l: Link) => Resolve(l.target) == Id(id)
  }

  function TargetKey(l: Link): Endpoint {
    Resolve(l.target)
  }

  function SourceKey(l: Link): Endpoint {
    Resolve(l.source)
  }

  /** `works`: the labels of the targets of the links leaving the actor, in link order, with
      repeats. */
  function CreditLabels(data: Graph, actor: Node): seq<string> {
    FoundLabels(data.nodes, Map(TargetKey, Filter(data.links, SourceIs(actor.id))))
  }

  /** `actors`: the labels of the sources of the links ending at the work, in link order. */
  function CastLabels(data: Graph, work: Node): seq<string> {
    FoundLabels(data.nodes, Map(SourceKey, Filter(data.links, TargetIs(work.id))))
  }

  /** The labels found at the ends `end` of the links passing `p` come one per such link whose
      end has a found, non-empty label, in link order: `idx` lists the positions in `links`
      they come from, increasing, and misses none of those links. */
  lemma LinkLabels(nodes: seq<Node>, links: seq<Link>, p: Link -> bool, end: Link -> Endpoint) returns (idx: seq<nat>)
    ensures |idx| == |FoundLabels(nodes, Map(end, Filter(links, p)))|
    ensures forall i :: 0 <= i < |idx| ==>
      idx[i] < |links| && p(links[idx[i]]) && LabelOf(nodes, end(links[idx[i]])) == Some(FoundLabels(nodes, Map(end, Filter(links, p)))[i])
    ensures forall i, j :: 0 <= i < j < |idx| ==> idx[i] < idx[j]
    ensures forall j :: 0 <= j < |links| && p(links[j]) && FoundText(nodes)(end(links[j])) != "" ==> j in idx
  {
    var texts := Map(FoundText(nodes), Map(end, Filter(links, p)));
    FoundLabelsMapFilter(nodes, Map(end, Filter(links, p)));
    var outer := FilterEmbeds(links, p);
    var inner := FilterEmbeds(texts, NonEmpty);
    idx := Compose(outer, inner);
    forall i | 0 <= i < |idx|
      ensures idx[i] < |links| && p(links[idx[i]]) && LabelOf(nodes, end(links[idx[i]])) == Some(Filter(texts, NonEmpty)[i])
    {
      LinkLabelAt(nodes, links, p, end, outer, inner, i);
    }
    ComposeIncreasing(outer, inner);
    forall j | 0 <= j < |links| && p(links[j]) && FoundText(nodes)(end(links[j])) != "" ensures j in idx {
      LinkLabelsComplete(nodes, links, p, end, outer, inner, j);
      var i :| 0 <= i < |inner| && inner[i] < |outer| && outer[inner[i]] == j;
      assert idx[i] == j;
    }
  }

  /** Every link passing `p` whose end has a shown label is reached through both embeddings. */
  lemma LinkLabelsComplete(nodes: seq<Node>, links: seq<Link>, p: Link -> bool, end: Link -> Endpoint,
                           outer: seq<nat>, inner: seq<nat>, j: nat)
    requires Embeds(Filter(links, p), links, outer)
    requires forall j :: 0 <= j < |links| && p(links[j]) ==> j in outer
    requires Embeds(Filter(Map(FoundText(nodes), Map(end, Filter(links, p))), NonEmpty),
                    Map(FoundText(nodes), Map(end, Filter(links, p))), inner)
    requires forall m ::
      (0 <= m < |Map(FoundText(nodes), Map(end, Filter(links, p)))| &&
       NonEmpty(Map(FoundText(nodes), Map(end, Filter(links, p)))[m])) ==> m in inner
    requires j < |links| && p(links[j]) && FoundText(nodes)(end(links[j])) != ""
    ensures exists i :: 0 <= i < |inner| && inner[i] < |outer| && outer[inner[i]] == j
  {
    var m :| 0 <= m < |outer| && outer[m] == j;
    LinkTextAt(nodes, links, p, end, outer, m);
    assert m in inner;
    var i :| 0 <= i < |inner| && inner[i] == m;
  }

  /** `LinkLabels` at one shown label. */
  lemma LinkLabelAt(nodes: seq<Node>, links: seq<Link>, p: Link -> bool, end: Link -> Endpoint,
                    outer: seq<nat>, inner: seq<nat>, i: nat)
    requires Embeds(Filter(links, p), links, outer)
    requires Embeds(Filter(Map(FoundText(nodes), Map(end, Filter(links, p))), NonEmpty),
                    Map(FoundText(nodes), Map(end, Filter(links, p))), inner)
    requires i < |inner|
    ensures outer[inner[i]] < |links| && p(links[outer[inner[i]]])
    ensures LabelOf(nodes, end(links[outer[inner[i]]])) == Some(Filter(Map(FoundText(nodes), Map(end, Filter(links, p))), NonEmpty)[i])
  {
    var kept := Filter(links, p);
    var texts := Map(FoundText(nodes), Map(end, kept));
    var r := Filter(texts, NonEmpty);
    var m := inner[i];
    assert kept[m] == links[outer[m]] && kept[m] in kept;
    assert r[i] == texts[m] && r[i] in r;
  }

  /** The text at a position of the kept links is that of the link it comes from. */
  lemma LinkTextAt(nodes: seq<Node>, links: seq<Link>, p: Link -> bool, end: Link -> Endpoint, outer: seq<nat>, m: nat)
    requires Embeds(Filter(links, p), links, outer)
    requires m < |outer|
    ensures m < |Map(FoundText(nodes), Map(end, Filter(links, p)))|
    ensures Map(FoundText(nodes), Map(end, Filter(links, p)))[m] == FoundText(nodes)(end(links[outer[m]]))
  {
  }

  /** An actor's `works`: one label per link leaving the actor whose target's label is found
      and non-empty, in link order, repeats kept. */
  lemma CreditLabelsInLinkOrder(data: Graph, actor: Node) returns (idx: seq<nat>)
    ensures |idx| == |CreditLabels(data, actor)|
    ensures forall i :: 0 <= i < |idx| ==>
      && idx[i] < |data.links| && Resolve(data.links[idx[i]].source) == Id(actor.id)
      && LabelOf(data.nodes, Resolve(data.links[idx[i]].target)) == Some(CreditLabels(data, actor)[i])
    ensures forall i, j :: 0 <= i < j < |idx| ==> idx[i] < idx[j]
    ensures forall j ::
      (0 <= j < |data.links| && Resolve(data.links[j].source) == Id(actor.id) &&
       FoundText(data.nodes)(Resolve(data.links[j].target)) != "") ==> j in idx
  {
    idx := LinkLabels(data.nodes, data.links, SourceIs(actor.id), TargetKey);
  }

  /** A work's `actors`: one label per link ending at the work whose source's label is found
      and non-empty, in link order, repeats kept. */
  lemma CastLabelsInLinkOrder(data: Graph, work: Node) returns (idx: seq<nat>)
    ensures |idx| == |CastLabels(data, work)|
    ensures forall i :: 0 <= i < |idx| ==>
      && idx[i] < |data.links| && Resolve(data.links[idx[i]].target) == Id(work.id)
      && LabelOf(data.nodes, Resolve(data.links[idx[i]].source)) == Some(CastLabels(data, work)[i])
    ensures forall i, j :: 0 <= i < j < |idx| ==> idx[i] < idx[j]
    ensures forall j ::
      (0 <= j < |data.links| && Resolve(data.links[j].target) == Id(work.id) &&
       FoundText(data.nodes)(Resolve(data.links[j].source)) != "") ==> j in idx
  {
    idx := LinkLabels(data.nodes, data.links, TargetIs(work.id), SourceKey);
  }

  /** The list shown in the panel, and whether the `...` marker follows it. */
  datatype Detail = Detail(heading: string, items: seq<string>, more: bool)

  /** The credits list built from `works`: the distinct labels in first-occurrence order, cut to
      the first 15; the marker tests the length of `works` itself, repeats included. */
  function Summary(works: seq<string>): (d: Detail)
    ensures d.heading == "Credits"
    ensures Distinct(d.items) && d.items <= Dedup(works)
    ensures |d.items| == if |Dedup(works)| < CreditsCap then |Dedup(works)| else CreditsCap
    ensures forall s :: s in d.items ==> s in works
    ensures |Dedup(works)| <= CreditsCap ==> forall s :: s in works ==> s in d.items
    ensures d.more <==> |works| > CreditsCap
  {
    var distinct := Dedup(works);
    var shown := if |distinct| < CreditsCap then distinct else distinct[..CreditsCap];
    assert forall i, j :: 0 <= i < j < |shown| ==> shown[i] == distinct[i] && shown[j] == distinct[j];
    Detail("Credits", shown, |works| > CreditsCap)
  }

  /** The "Credits" panel of an actor. */
  function Credits(data: Graph, actor: Node): (d: Detail)
    ensures d.heading == "Credits" && |d.items| <= CreditsCap && Distinct(d.items)
    ensures d.items <= Dedup(CreditLabels(data, actor))
    ensures |d.items| == if |Dedup(CreditLabels(data, actor))| < CreditsCap then |Dedup(CreditLabels(data, actor))| else CreditsCap
    ensures forall s :: s in d.items ==>
      s != "" && exists l :: l in data.links && Resolve(l.source) == Id(actor.id) && LabelOf(data.nodes, Resolve(l.target)) == Some(s)
    ensures d.more <==> |CreditLabels(data, actor)| > CreditsCap
    ensures |Dedup(CreditLabels(data, actor))| <= CreditsCap ==>
      forall l, s :: l in data.links && Resolve(l.source) == Id(actor.id) && LabelOf(data.nodes, Resolve(l.target)) == Some(s) && s != "" ==> s in d.items
  {
    CreditLabelsFound(data, actor);
    Summary(CreditLabels(data, actor))
  }

  /** A label is among an actor's `works` exactly when it is the non-empty label found for the
      target of a link leaving the actor. */
  lemma CreditLabelsFound(data: Graph, actor: Node)
    ensures forall s :: s in CreditLabels(data, actor) <==>
      s != "" && exists l :: l in data.links && Resolve(l.source) == Id(actor.id) && LabelOf(data.nodes, Resolve(l.target)) == Some(s)
  {
    var links := Filter(data.links, SourceIs(actor.id));
    var keys := Map(TargetKey, links);
    assert forall k :: k in keys <==> exists l :: l in links && k == Resolve(l.target);
    assert forall l :: l in data.links && Resolve(l.source) == Id(actor.id) ==> Resolve(l.target) in keys;
  }

  /** The "Cast" panel of a work: every found, non-empty source label of a link ending at the
      work, in link order, repeats kept, no cap and no marker. */
  function Cast(data: Graph, work: Node): (d: Detail)
    ensures d.heading == "Cast" && !d.more
    ensures d.items == CastLabels(data, work)
    ensures |d.items| <= |data.links|
    ensures forall s :: s in d.items <==>
      s != "" && exists l :: l in data.links && Resolve(l.target) == Id(work.id) && LabelOf(data.nodes, Resolve(l.source)) == Some(s)
  {
    var links := Filter(data.links, TargetIs(work.id));
    var keys := Map(SourceKey, links);
    assert forall k :: k in keys <==> exists l :: l in links && k == Resolve(l.source);
    Detail("Cast", FoundLabels(data.nodes, keys), false)
  }

  /** The detail list of a clicked node: credits for an actor, the cast otherwise. */
  function DetailOf(data: Graph, node: Node): (d: Detail)
    ensures node.kind == Actor ==> d == Credits(data, node)
    ensures node.kind == Work ==> d == Cast(data, node)
  {
    if node.kind == Actor then Credits(data, node) else Cast(data, node)
  }

  /** An actor with at least 15 distinct credit labels shows exactly 15 of them, and the marker
      whenever more than 15 labels were found. */
  lemma LongCredits(works: seq<string>)
    requires |Dedup(works)| >= CreditsCap
    ensures |Summary(works).items| == CreditsCap && Summary(works).more == (|works| > CreditsCap)
    ensures Summary(works).items == Dedup(works)[..CreditsCap]
  {
  }

  /** An actor with at most 15 credit labels shows all of their distinct values, without the
      marker. */
  lemma ShortCredits(works: seq<string>)
    requires |works| <= CreditsCap
    ensures Summary(works).items == Dedup(works) && !Summary(works).more
  {
  }

  /** The marker counts repeats: sixteen credits all labelled `x` show the single item `x`
      followed by `...`, although nothing was cut. */
  lemma MarkerCountsRepeats(x: string)
    ensures Summary(Repeat(x, CreditsCap + 1)).items == [x]
    ensures Summary(Repeat(x, CreditsCap + 1)).more
  {
    DedupRepeat(x, CreditsCap + 1);
  }

  function Repeat(x: string, n: nat): (r: seq<string>)
    ensures |r| == n && forall i :: 0 <= i < n ==> r[i] == x
  {
    seq(n, _ => x)
  }

  lemma {:induction false} DedupRepeat(x: string, n: nat)
    requires n > 0
    ensures Dedup(Repeat(x, n)) == [x]
  {
    if n > 1 {
      DedupRepeat(x, n - 1);
      assert Repeat(x, n)[..n - 1] == Repeat(x, n - 1);
    }
  }
}
