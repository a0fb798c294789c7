# actor-graph, modelled in Dafny

A model of the two graph-building parts of actor-graph, a browser view of voice actors and
the works they are credited in.

- **The view logic of `app.js`.** These parts are modelled:
  - `filteredData`: the medium filter and then the focus neighbourhood;
  - the hover highlight sets;
  - the click panel: type text, "Credits" and "Cast" lists, camera commands;
  - the focus toggle;
  - the search match.

  All of these work on a `Graph` value:
  - nodes are actors or works;
  - links run from an actor to a work;
  - each link end is either a raw id string or a node object (`Endpoint = Id(key) | Ref(node)`). The render surface puts node objects in place of the raw ids.

  `Graph.Resolve` is the `x.id || x` used throughout the code.
- **`process_data` of `scripts/extract_data.py`.** It turns query-result rows into the node and link lists of the graph file. Its four loops are methods with loop invariants:
  - `ScanRows`;
  - `AddActorNodes`;
  - `AddWorkNodes`, with its inner loop `LinkActors`;
  - `FinalActorIds`.

  The final comprehension is `KeepNodes`, and `ProcessData` chains them all. How the dicts are modelled:
  - each Python dict is a map together with the sequence of its keys in insertion order;
  - `Dicts` bundles what the first loop builds;
  - `ExpectedNodes` and `ExpectedLink` define the returned graph directly from the rows;
  - the property lemmas are stated against those two.

Modules:

| module | file | what it holds |
|---|---|---|
| `Wrappers` | wrappers.dfy | `Option` |
| `Seqs` | seqs.dfy | the stable filter, map and first-occurrence dedup, with their lemmas |
| `Text` | text.dfy | last path segment, ASCII lower-casing, substring search |
| `Graph` | graph.dfy | nodes, endpoints, links, `Resolve` |
| `View` | view.dfy | `filteredData` |
| `Highlight` | highlight.dfy | the hover sets, as a class |
| `Details` | details.dfy | the panel's type text and lists |
| `Controls` | controls.dfy | click, focus toggle and search |
| `Extract` | extract.dfy | `process_data` |

Notes on what the code does:

- **The `...` marker counts repeats.** It appears when more than 15 labels were found for an actor, even if 15 or fewer of them are distinct (app.js:100). `Details.MarkerCountsRepeats` shows it: sixteen credits of one work show one item and the marker.
- **Focus links.** In focus view, `workIds` comes from the medium-filtered links (app.js:40), while the secondary links and the shown nodes come from the full graph (app.js:46, 53).
- **The test at app.js:41.** It has no `|| l.source` fallback, so it is modelled as written (`View.Other`). With raw id strings as link sources, focusing an actor puts the actor's own id in `workIds` and the view stops after one hop (`View.RawLinksGiveOneHop`, `View.RawSampleFocus`). Once the render surface has put node objects in the links, the test picks the opposite end (`View.OtherIsOppositeWhenResolved`) and co-stars appear (`View.ExpandReachesCoStars`, `View.LiveSampleFocus`).
- **Ids shared by an actor and a work.** In `process_data`, such an id keeps one key in `nodes`. When the work is emitted (at least two distinct credited actors), the work node overwrites the actor node at the actor's position; otherwise the actor node stays (`Extract.DictValue`). The output order "actors first, then works" is therefore proved only when no actor id is a work id (`Extract.NodeOrder`).

## Model

| member | source | states |
|---|---|---|
| Graph.Resolve | app.js:32-33 | `x.id \|\| x`: a raw id stays itself; a node object becomes `Id` of its id, unless that id is empty (falsy), in which case the object stays |
| Graph.ResolveIdempotent | app.js:32-33 | a resolved key resolves to itself |
| Seqs.Filter | app.js:32 | `Array.prototype.filter`: an element is kept exactly when it is in the input and passes the predicate |
| Seqs.FilterEmbeds | app.js:32-34 | filtering keeps the input's relative order: the kept elements come from increasing positions, and every passing position is among them |
| Seqs.Dedup | app.js:100 | `[...new Set(xs)]`: no repeats, the same members as the input |
| Seqs.DedupPrefix | app.js:100 | dedup of a prefix is a prefix of the dedup (first-occurrence order) |
| View.ByMedium | app.js:30-35 | a link is kept iff its target resolves to a work of medium `m`; a node is kept iff it is such a work, or an actor that is the source of a kept link |
| View.ByMediumOrder | app.js:32-34 | the medium filter keeps the input order of nodes and of links, and every input position whose element is kept is among the embedding's positions, so repeated copies are all kept |
| View.ByMediumNoWorks | app.js:31-34 | a medium that no work has gives empty node and link lists |
| View.ByMediumKeepsAll | app.js:30-35 | a graph already closed under the medium filter passes it unchanged |
| View.WorkIdsFromFocusLinks | app.js:40-41 | `workIds` holds exactly one `Other` per link of the filtered list that touches the focus id |
| View.Expand | app.js:37-54 | output links are exactly the full-graph links with an end in `workIds`; output nodes are exactly the full-graph nodes whose id is the focus id, a `workIds` member, or an end of an output link; the focus node is kept |
| View.ExpandOrder | app.js:46-53 | the focus view keeps the full graph's order of nodes and links, and every position of a kept element is embedded, so repeated copies are all kept |
| View.OtherIsOppositeWhenResolved | app.js:41 | with a node-object source, the line picks the end opposite the focus |
| View.OtherOfRawSource | app.js:41 | with a raw id source equal to the focus id, the line adds the focus id itself |
| View.RawLinksGiveOneHop | app.js:40-46 | with raw id sources and an actor focus, `workIds` is at most the focus id, and every shown link touches the focus |
| View.ExpandReachesCoStars | app.js:38-53 | a work reached through a resolved link from the focus brings in every full-graph link into that work, and the actors at their sources |
| View.Derive | app.js:26-57 | filter "all" with no focus returns the input; otherwise only input nodes and links appear; a focused node of the graph is shown |
| View.DeriveOrder | app.js:26-57 | whatever the filter and focus, both lists keep the input order and every copy of a kept element |
| View.LiveSampleFocus | app.js:37-54 | worked example: with node-object links, focusing A1 shows its co-star A2 |
| View.RawSampleFocus | app.js:40-53 | worked example: with raw id links, focusing A1 does not show A2 |
| View.LiveSampleOtherMedium | app.js:30-35 | worked example: a medium no work has empties the view |
| Highlight.Highlighter.constructor | app.js:12-13 | both highlight sets start empty |
| Highlight.Highlighter.Hover | app.js:68-81 | after a hover, the link set is exactly the positions of full-graph links touching the node, and the node set is the node plus both stored ends of those links; nothing from an earlier hover is left |
| Highlight.HoverNothing | app.js:69-71 | hovering nothing leaves both sets empty |
| Highlight.HoverIsLocal | app.js:71-79 | every highlighted link touches the node; the node is highlighted; every other highlighted node is an end of a highlighted link |
| Highlight.HoverIsComplete | app.js:73-78 | every full-graph link touching the node is highlighted, with both ends |
| Details.TypeText | app.js:94 | "Voice Actor" for an actor; otherwise the medium, or "Work" when the medium is missing or empty |
| Details.LabelOf | app.js:98 | the label of the first node with the key as id; none exactly when no node has that id |
| Details.FoundLabels | app.js:97-99 | the labels found for the keys, with missing and empty labels dropped; no more of them than keys |
| Details.FoundLabelsMapFilter | app.js:97-99 | the found labels are exactly `keys.map(find label)` filtered by `Boolean`: one entry per key with a found, non-empty label, in key order, repeats kept |
| Details.LinkLabels | app.js:96-105 | the labels found at one end of the links passing a test come one per such link with a shown label, from increasing link positions, and no such link is missed |
| Details.CreditLabelsInLinkOrder | app.js:96-99 | an actor's `works` has one entry per link leaving the actor whose target label is found and non-empty, in link order, repeats kept |
| Details.CastLabelsInLinkOrder | app.js:101-104 | a work's `actors` has one entry per link ending at the work whose source label is found and non-empty, in link order, repeats kept |
| Details.Summary | app.js:100 | items are repeat-free, a prefix of the first-occurrence dedup, of length min(distinct, 15), and all distinct labels when there are at most 15; the marker is set iff the raw list has more than 15 entries |
| Details.Credits | app.js:96-100 | an actor's items are the first min(distinct, 15) distinct labels of its `works` in first-occurrence order (a prefix of their dedup), each the non-empty label of the target of a link leaving it, all of them when at most 15 are distinct; marker iff more than 15 labels were found |
| Details.Cast | app.js:101-105 | a work's items are its `actors` list itself (no dedup, no cap, no marker), whose members are exactly the non-empty found labels of sources of links ending at it |
| Details.DetailOf | app.js:96-106 | credits for an actor, cast for a work |
| Details.LongCredits | app.js:100 | with 15 or more distinct labels, exactly the first 15 distinct labels are shown |
| Details.ShortCredits | app.js:100 | with at most 15 labels, all distinct labels are shown and no marker |
| Details.MarkerCountsRepeats | app.js:100 | sixteen credits of one label show one item and the marker |
| Controls.OnClick | app.js:83-115 | a click selects the node, shows its label, type text and detail list, labels the focus button by the current focus, and centres then zooms to 2 when the render surface is mounted |
| Controls.OnFocus | app.js:144-152 | a set focus is cleared; an unset focus takes the selection; the button text changes iff the focus does, and then names the new state |
| Controls.OnFocusTwice | app.js:144-152 | entering focus and toggling again leaves focus unset |
| Text.Lower | app.js:126-128 | lower-casing keeps the length, maps each character, and leaves no upper-case ASCII letter |
| Text.LowerIdempotent | app.js:126-128 | lower-casing twice equals lower-casing once |
| Text.Contains | app.js:128 | `includes`: true iff the needle occurs at some position |
| Controls.SearchMatch | app.js:126-128 | an empty query matches nothing; otherwise the match is the first node in order whose lower-cased label contains the lower-cased query, and no match means no node qualifies |
| Controls.OnSearch | app.js:125-135 | nothing happens for an empty query, no match, or no render surface; otherwise the panel is filled exactly as a click on the match fills it, and the camera centres, zooms to 3, centres and zooms to 2 |
| Controls.SearchEndsAtClickZoom | app.js:129-133 | a successful search asks for zoom 3 but ends at zoom 2 |
| Text.LastSegment | scripts/extract_data.py:56-61 | `split("/")[-1]`: a slash-free suffix of the URI that is all of it or starts right after a slash |
| Extract.ActorLabels | scripts/extract_data.py:66 | `actor_id_to_label` has a key exactly for each actor id some row names |
| Extract.WorkLabels | scripts/extract_data.py:67 | `work_id_to_label` has a key exactly for each work id some row names |
| Extract.WorkMedia | scripts/extract_data.py:64-68 | `work_id_to_medium` has a key exactly for each work id some row names |
| Extract.WorkActors | scripts/extract_data.py:70-72 | `work_to_actors` has a key for each named work, and its set holds exactly the actors some row credits in it |
| Extract.ActorLabelLastWrite | scripts/extract_data.py:66 | an actor's label is the one on the last row naming it |
| Extract.WorkLabelLastWrite | scripts/extract_data.py:67 | a work's label is the one on the last row naming it |
| Extract.WorkMediumLastWrite | scripts/extract_data.py:64-68 | a work's medium comes from the last row naming it; a row without a medium gives "Unknown" |
| Extract.ScannedWellFormed | scripts/extract_data.py:55-72 | the first loop's key orders have no repeats, the work dicts share their keys, and every credited actor is an actor key |
| Extract.ReplayIsScanned | scripts/extract_data.py:55-72 | applying the loop body row by row from empty dicts builds exactly the dicts defined from the whole row list (key orders as first-seen orders, values as last writes, credited sets) |
| Extract.ScanRows | scripts/extract_data.py:55-72 | the first loop leaves each dict and each key order equal to its definition from the rows |
| Extract.AddActorNodes | scripts/extract_data.py:74-81 | after the second loop, `nodes` has the actor keys in order, each with an actor node carrying its label |
| Extract.LinkActors | scripts/extract_data.py:95-99 | appends exactly one link to the work from each actor in its set, in any set order, keeping the earlier links and adding no repeat |
| Extract.AddWorkNodes | scripts/extract_data.py:83-99 | new keys are the shared works that are not already keys, in order; shared works get their work node and every other key keeps its value; links are exactly actor to shared work pairs, with no repeats |
| Extract.FinalActorIds | scripts/extract_data.py:101-107 | the collected ids are exactly the link ends whose entry in `nodes` is an actor |
| Extract.KeepNodes | scripts/extract_data.py:109 | the result is the entries of `nodes`, in key order, that are collected actors or works |
| Extract.DictValue | scripts/extract_data.py:75-93 | a key's final entry carries that key as id, and is a work node exactly when the key is a shared work |
| Extract.DictTable | scripts/extract_data.py:74-93 | the `nodes` dict has exactly the keys of its key order |
| Extract.BuiltTable | scripts/extract_data.py:74-93 | the dict the two loops build is `DictTable` |
| Extract.KeptSurvives | scripts/extract_data.py:101-109 | on the keys of `nodes`, the final filter keeps exactly the works and the actors that some link leaves |
| Extract.ProcessData | scripts/extract_data.py:45-114 | the returned nodes are `ExpectedNodes`; a link is returned iff it runs from an actor to an emitted work that a row credits it in; no link is returned twice |
| Extract.LinkedScanned | scripts/extract_data.py:95-107 | an actor has an outgoing link iff a row credits it in an emitted work |
| Extract.NodesOutIds | scripts/extract_data.py:109 | the output lists the surviving keys of `nodes` in key order, each under its own id |
| Extract.NodeIdsDistinct | scripts/extract_data.py:74-109 | no id occurs twice among the output nodes |
| Extract.LinksClosedIn | scripts/extract_data.py:95-109 | both ends of a built link are ids of surviving nodes |
| Extract.LinksClosed | scripts/extract_data.py:95-109 | every returned link's source and target are ids of returned nodes |
| Extract.WorkNodesExact | scripts/extract_data.py:84-93 | the work nodes returned are exactly the works with at least two distinct actors, each with its last label and medium, type work and val 3 |
| Extract.ActorNodesIn | scripts/extract_data.py:75-109 | the surviving actor nodes are exactly the linked actors that are not shared works |
| Extract.ActorNodesExact | scripts/extract_data.py:75-109 | the actor nodes returned are exactly the actors some link leaves (unless an emitted work has the same id), each with its last label, type actor, val 5 and no medium |
| Extract.NodeOrder | scripts/extract_data.py:74-109 | when no actor id is a work id, the returned ids are the linked actors in first-seen order, then the emitted works in first-seen order |

## Left out

- Loading the graph file is network I/O and JSON parsing (app.js:17-24). The model takes the loaded `Graph` as a parameter, and `data.nodes \|\| []` is always a list.
- The delayed zoom-to-fit is a timer-driven camera effect with no state (app.js:59-66).
- DOM work is left out:
  - element lookups and the early returns when an element is missing (app.js:85-91, 118-123);
  - `innerText` and `innerHTML` writes, class toggling and event listener bookkeeping.

  The panel's contents are modelled as values (`Controls.Click`, `Details.Detail`), not as HTML strings.
- `Controls.OnClick`: `centerAt` reads floating-point physics positions. The model records only which node is centred and the zoom level.
- The medium filter buttons (`onFilter`, app.js:137-142) only set the filter string; `View.Derive` takes it as a parameter.
- Canvas drawing, colours, font scaling and the d3 decay constants are rendering and floating point (app.js:166-203).
- React state, memoisation and re-rendering are left out. So is the render surface rewriting link ends in place; it appears only through the two `Endpoint` forms.
- `Highlight.Highlighter.Hover`: JavaScript compares link objects by identity. The model names a link by its position in the loaded list, and a node by its value.
- `Text.Lower`: only ASCII letters are lower-cased; full Unicode case mapping is not modelled.
- `fetch_voice_actor_data` (scripts/extract_data.py:7-43) is an HTTP request. The model takes the rows it returns as `Extract.Binding` values.
- The `__main__` block (scripts/extract_data.py:116-127) writes a file and prints.
- `Extract.LinkActors`: the order in which a Python `set` is iterated is not modelled. The next actor is any remaining one, so no claim is made about link order.
- `Extract.Binding`: a row missing `actor`, `actorLabel`, `work` or `workLabel` would raise a `KeyError` in Python. Rows are modelled with these fields present.
