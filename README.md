# OSMBuilding core in Dafny

This project models the core of OSMBuilding: the `Building` class of
`src/building.js` and the bounding-box utilities of
`src/extras/BuildingShapeUtils.js`. The `Building` class turns an
OpenStreetMap XML document into a 3D building. The model covers what that
class does with the document:

- it classifies the top element as a way, a multipolygon relation or a
  generic relation;
- it validates that element: a building tag, and closed rings;
- it builds the node table, mapping node ids to `[lat, lon]`;
- it computes the extents and, from them, the home point;
- it projects every node-table entry about the home point, in place;
- it selects the outer element and enumerates the building parts;
- it decides what `render` draws.

The shape utilities compute a ring's extents, the radius of the circle
that fits those extents, their centre (`centroid`, which is not a true
centroid) and the width of a shape.

The files:

- `outcomes.dfy` (module `Outcomes`) holds `Option`, `Result`, `Outcome`
  and the `Fault` values. Most faults are where the JavaScript throws a
  `TypeError`. `UndefinedName` is also where it throws a `ReferenceError`
  (the undefined `xml_data`). `NoPoints` throws nothing: the JavaScript
  computes with +-Infinity instead. The module also holds four sequence
  helpers: first match, matching indices, order-preserving filter, and a
  traversal that stops at the first failure.
- `osm_dom.dfy` (module `OsmDom`) models the parsed document as a flat list
  of `node`/`way`/`relation` elements, each with its tags, members and `nd`
  refs. It also models the few DOM queries the code makes
  (`getElementById`, `querySelector`, `querySelectorAll`).
- `shape_utils.dfy` (module `ShapeUtils`) has the box arithmetic and
  `Math.min`/`Math.max` as pure functions. The push-then-reduce loops of
  `calculateRadius`, `centroid` and `getWidth` are methods, proved equal to
  those functions.
- `building_logic.dfy` (module `BuildingLogic`) states what every step of
  `Building` computes, as pure functions of the document. That includes
  `Constructed`, the state the whole constructor leaves behind. The lemmas
  about these functions live here too.
- `building_model.dfy` (module `BuildingModel`) holds the class `Building`.
  Its fields are `type`, `nodelist`, `home`, `outer_element` and `parts`,
  and each step is a method that updates them in place. Each method is
  proved against the function that specifies it.

`repositionPoint` is passed in as a function value, `Projection`, and its
trigonometry is not interpreted. Coordinates are `real`.

Where the code has an evident slip, the model follows the intent, and a
comment at the modelling function names the slip. There are six such
slips:

- `this.fullDmlData` at `src/building.js:136`;
- `getAttribute('ref')` on ways and relations, which carry `id`, at lines 148 and 156;
- `childtag.tagname` at line 217;
- the undefined `xml_data` and the `this.*` reads inside the static
  `getExtents`, at lines 262 and 266-267;
- the outline looked up by `id` rather than `outline_ref` at line 68, so the way branch at line 71 (which would also use `id`) never runs;
- `this.way` and `this.nodelist` in `BuildingShapeUtils.js`, at lines 8 and 34.

"## Findings" below exhibits four of them as written: lines 136, 217, 262
and 68-71. The other two (lines 148 and 156 with 266-267, and
`BuildingShapeUtils.js` lines 8 and 34) are modelled as intended only;
"## Left out" says so.

One behaviour of the code is kept as written: a generic relation's
`outline` member has its extents taken from its own `nd` refs, whatever
its kind (`src/building.js:279-282`). No recursion into a nested relation
takes place.

The proofs are meant to be verified with a resource limit rather than a
time limit:
`dafny verify --resource-limit 2000000 --verification-time-limit 0 *.dfy`.

## Model

| member | source | states |
|---|---|---|
| OsmDom.GetElementById | src/building.js:50 | nothing is found exactly when no element has the id; what is found is an element of the document with that id |
| OsmDom.GetElementByIdFirst | src/building.js:50 | when several elements share an id, the earliest in document order is found |
| OsmDom.TagValue | src/building.js:53 | the value of the first tag with the key; none exactly when no tag has that key |
| OsmDom.FirstMemberWithRole | src/building.js:67 | the first member with the role, with no earlier member having it; none exactly when no member has the role |
| OsmDom.MembersWithRole | src/building.js:133 | a member is listed exactly when it is a member of the element with that role |
| OsmDom.MembersWithRoleInOrder | src/building.js:133 | the `k`-th selected member is the member at the `k`-th index holding the role: document order, one entry per such member |
| ShapeUtils.Min | src/extras/BuildingShapeUtils.js:19-20 | `Math.min` of a non-empty list is one of its elements and no greater than any |
| ShapeUtils.Max | src/extras/BuildingShapeUtils.js:21-22 | `Math.max` of a non-empty list is one of its elements and no smaller than any |
| ShapeUtils.MinMaxSameElements | src/extras/BuildingShapeUtils.js:19-22 | min and max depend only on which values occur, not on their order or repetition |
| ShapeUtils.Smallest | src/extras/BuildingShapeUtils.js:19 | the running minimum over the list is its `Math.min` |
| ShapeUtils.Largest | src/extras/BuildingShapeUtils.js:21 | the running maximum over the list is its `Math.max` |
| ShapeUtils.BoundsOf | src/extras/BuildingShapeUtils.js:19-22 | the extents of a non-empty point list are well formed, hold every point, and each side touches some point |
| ShapeUtils.ShapeBox | src/extras/BuildingShapeUtils.js:90 | the same for a shape's x/y points |
| ShapeUtils.Lookup | src/extras/BuildingShapeUtils.js:15-16 | reading `nodelist[ref]` succeeds exactly when the ref is in the table, giving the table's entry; otherwise the fault names the missing ref |
| ShapeUtils.Ring | src/extras/BuildingShapeUtils.js:13-18 | succeeds exactly when every ref is in the table, giving their points in order; otherwise the fault names the first missing ref |
| ShapeUtils.RingBounds | src/building.js:257-258 | a ring has extents exactly when it is non-empty and every ref resolves; an empty ring is `NoPoints`, otherwise the fault names the first missing ref; the box is well formed, holds every node of the ring, and each of its four sides is the coordinate of some node of the ring |
| ShapeUtils.RadiusOf | src/extras/BuildingShapeUtils.js:25 | the radius is non-negative, at most half of each span, and exactly half of one of them |
| ShapeUtils.CenterOf | src/extras/BuildingShapeUtils.js:49 | the centre is as far from the bottom as from the top and from the left as from the right, and inside a well-formed box |
| ShapeUtils.WidthOf | src/extras/BuildingShapeUtils.js:90 | the width is at least each span and equal to one of them |
| ShapeUtils.RingExtents | src/extras/BuildingShapeUtils.js:13-22 | the lookup-and-push loop, then the reductions, give exactly the ring's extents or its fault |
| ShapeUtils.CalculateRadius | src/extras/BuildingShapeUtils.js:7-26 | `calculateRadius` yields the radius of the ring's extents, or the fault that prevents it |
| ShapeUtils.RingRadius | src/extras/BuildingShapeUtils.js:7-26 | a ring has a radius exactly when it is non-empty and every ref resolves; it is the radius of the ring's extents, and otherwise the fault is theirs |
| ShapeUtils.Centroid | src/extras/BuildingShapeUtils.js:33-51 | `centroid` yields the centre of the ring's extents, latitude first, or the fault that prevents it |
| ShapeUtils.RingCenter | src/extras/BuildingShapeUtils.js:33-51 | a ring has a centre exactly when it is non-empty and every ref resolves; it is the centre of the ring's extents and lies inside them, and otherwise the fault is theirs |
| ShapeUtils.GetWidth | src/extras/BuildingShapeUtils.js:78-91 | `getWidth` yields the larger span of the shape's points; no points is a fault |
| ShapeUtils.ShapeWidth | src/extras/BuildingShapeUtils.js:78-91 | a shape has a width exactly when it has points, `NoPoints` otherwise; no two points differ by more than the width in x or in y, and some pair differs by exactly the width |
| ShapeUtils.BoundsSamePoints | src/extras/BuildingShapeUtils.js:13-22 | extents, radius and centre are unchanged when the points are permuted or repeated |
| ShapeUtils.WidthSamePoints | src/extras/BuildingShapeUtils.js:85-90 | the width is unchanged when the points are permuted or repeated |
| ShapeUtils.RingBoundsSameRefs | src/extras/BuildingShapeUtils.js:13-22 | two resolvable rings over the same set of refs have the same extents |
| ShapeUtils.ClosingRefKeepsBounds | src/extras/BuildingShapeUtils.js:13-22 | repeating the first ref to close a ring leaves its extents unchanged |
| ShapeUtils.SinglePoint | src/extras/BuildingShapeUtils.js:19-25 | a single point has zero radius and zero width, and is its own centre |
| ShapeUtils.RingBoundsSingle | src/extras/BuildingShapeUtils.js:13-22 | a ring of one known node has that node's point as its extents |
| ShapeUtils.WidthAtLeastDiameter | src/extras/BuildingShapeUtils.js:90 | the width of a well-formed box is never less than twice its radius |
| BuildingLogic.Classify | src/building.js:51-57 | type `way` exactly for a way; `multipolygon` exactly for a non-way whose first `type` tag says so; `relation` for any other `type` value; a fault exactly when a non-way has no `type` tag |
| BuildingLogic.Candidates | src/building.js:195-211 | the rings to check are the lookups of a relation's members, in order, or else the element itself |
| BuildingLogic.CheckRings | src/building.js:212-227 | true exactly when every candidate was found and is closed; the first candidate that is missing or open decides: a fault naming its ref when it is missing, false when it is open |
| BuildingLogic.Validate | src/building.js:192-228 | a non-relation is valid exactly when it has a `building` tag and a closed ring; a relation is valid exactly when every member resolves to a closed ring; otherwise the first member that is missing or open decides: a fault naming it when missing, false when open |
| BuildingLogic.ValidateAsWritten | src/building.js:192-228 | as written, a non-relation is valid exactly when it has a `building` tag, whatever its ring; a relation is valid exactly when every member resolves, and is never false |
| BuildingLogic.ClosedRingExamples | src/building.js:222 | [1,2,3,4] is open, while [1,2,3,1] and the empty ring are closed |
| BuildingLogic.IsClosed | src/building.js:222 | a ring is closed exactly when reading its first and its last entry gives the same value, an empty ring reading undefined at both |
| BuildingLogic.RingRefsAsWritten | src/building.js:214-220 | as written, the collected `nd` refs always pass the closed test |
| BuildingLogic.OpenWayPassesAsWritten | src/building.js:217-222 | a building way with refs [1,2,3,4] passes `isValidData` as written (true), and the intended check rejects it (false) |
| BuildingLogic.NodeTableKeys | src/building.js:96-110 | the node table's keys are exactly the ids of the document's node elements |
| BuildingLogic.NodeTableLastWins | src/building.js:103-108 | each key holds the coordinates of the last node element with that id |
| BuildingLogic.NodeTable | src/building.js:96-110 | every key of the table is the id of some node element, and holds that element's latitude and longitude |
| BuildingLogic.Repositioned | src/building.js:115-119 | repositioning keeps the key set and replaces each value with its projection about home |
| BuildingLogic.MergeAll | src/building.js:265-277 | the merged extents enclose every member box, each side comes from some member box, and they are well formed unless some member box is not |
| BuildingLogic.Merge | src/building.js:272-275 | the merge of two boxes encloses both, each side comes from one of them, and it is well formed when the first is |
| BuildingLogic.MergeAllSnoc | src/building.js:272-275 | one more step of the running merge gives the merge of the longer list |
| BuildingLogic.MergeAllSingle | src/building.js:269-270 | with one outer member the merged extents are that member's extents |
| BuildingLogic.MergeAllSameBoxes | src/building.js:265-277 | the merged extents do not depend on the order or repetition of the member boxes |
| BuildingLogic.MergeExample | src/building.js:265-277 | merging (0,0,2,2) and (5,5,7,7) in either order gives (0,0,7,7) |
| BuildingLogic.MemberBox | src/building.js:266-268 | an unresolved member is a fault naming it; a resolved member's extents are exactly the extents of its ring, well formed when they exist |
| BuildingLogic.OuterBoxes | src/building.js:265-268 | succeeds exactly when every outer member has extents, giving them in order; otherwise the fault is that of the first member that fails |
| BuildingLogic.MultipolygonExtents | src/building.js:261-277 | defined exactly when there is an outer member and every outer member has extents; no outer member is `NoOuterMember`, otherwise the first outer member that faults gives the fault; the extents are well formed, enclose every outer member's extents, and each side is the side of some outer member's extents |
| BuildingLogic.Extents | src/building.js:251-286 | a missing element is a fault naming it; the extents of any building, when defined, are well formed |
| BuildingLogic.ExtentsByKind | src/building.js:251-286 | a found element's extents follow its kind: its classification fault, a way's own ring, a multipolygon's merge of outer members, or a relation's `outline` member, which is `MissingOutline` when absent |
| BuildingLogic.ExtentsAsWritten | src/building.js:262 | as written, every multipolygon faults on the undefined `xml_data`; every other element has its intended extents |
| BuildingLogic.MultipolygonExtentsAsWritten | src/building.js:261-268 | a one-member multipolygon faults as written, and has its member's extents as intended |
| BuildingLogic.HomeInsideExtents | src/building.js:85-91 | the home point lies inside the extents it is computed from |
| BuildingLogic.HomeIsWayCentroid | src/building.js:85-91 | for a way building, the home point is the `centroid` of its own ring |
| BuildingLogic.OuterElement | src/building.js:62-75 | a way gets a simple outer element on its id and a multipolygon a multi one; a relation's outer element is its `outline` member, simple exactly when that member is a way; the faults are a missing outline member or an unresolved one |
| BuildingLogic.OuterElementAsWritten | src/building.js:67-74 | as written, a relation's outer element is always multi |
| BuildingLogic.OutlineWayAsWritten | src/building.js:67-74 | a relation whose outline is a way gets a multi outer element as written, and a simple one as intended |
| BuildingLogic.OuterFollowsType | src/building.js:51-75 | the type decides the outer element; a relation has one exactly when its outline member exists and resolves |
| BuildingLogic.PartFor | src/building.js:136-141 | a part exists exactly when its ref resolves, otherwise the fault names the ref; the part is on that ref, and simple exactly when the element is a way |
| BuildingLogic.PartsOf | src/building.js:131-161 | a non-relation always succeeds, possibly with no parts; a relation that is not found is a fault naming it |
| BuildingLogic.MemberParts | src/building.js:132-142 | one part per `part` member, in order, each simple exactly for a way; the first unresolved member is the fault |
| BuildingLogic.TaggedIds | src/building.js:144-159 | an id is listed exactly when some element of that kind with that id carries `building:part` |
| BuildingLogic.TaggedIdsInOrder | src/building.js:144-159 | the `k`-th listed id is the id of the `k`-th element of that kind tagged `building:part`, in document order |
| BuildingLogic.TaggedPartsOrder | src/building.js:143-160 | for a non-relation, every simple part comes before every multi part; simple parts are tagged ways and multi parts tagged relations |
| BuildingLogic.TaggedPartsInDocumentOrder | src/building.js:143-160 | for a non-relation, the parts are one simple part per tagged way, in document order, followed by one multi part per tagged relation, in document order |
| BuildingLogic.RelationPartsExample | src/building.js:132-142 | a relation with a way part and a relation part gets one simple and one multi part, in that order |
| BuildingLogic.RelationPartsInOrder | src/building.js:132-142 | for a relation, the parts exist exactly when every `part` member resolves; then there is one part per `part` member, in document order, on its ref, simple exactly for a way |
| BuildingLogic.PartsPushed | src/building.js:134-142 | when every `part` member resolves, the parts pushed are all of them |
| BuildingLogic.PartsAdded | src/building.js:131-161 | when `addParts` does not fault, what it appends is the building's parts |
| BuildingLogic.PartsPushedAt | src/building.js:134-141 | at the first unresolved `part` member, `addParts` faults naming it, after pushing the parts of the members before it |
| BuildingLogic.PartsOfAsWritten | src/building.js:136 | as written, a found relation faults on `fullDmlData` exactly when it has a `part` member, and otherwise has no parts; other types are unaffected |
| BuildingLogic.RelationPartsAsWritten | src/building.js:136 | the two-part relation faults as written, and gets its two parts as intended |
| BuildingLogic.LoadedSteps | src/building.js:59-76 | `Loaded`, the steps after validation, stops at the first fault and otherwise leaves what each step computed |
| BuildingLogic.ConstructedFaults | src/building.js:47-79 | `Constructed`, the constructor's outcome, is the first fault among a missing element, a missing `type` tag and an unresolved relation member; a valid element then gets `Loaded`, the steps after validation |
| BuildingLogic.NotABuildingDegrades | src/building.js:58-79 | a way without a `building` tag leaves a building with its type only: no parts, no outer element, no home, an empty node table, and no fault |
| BuildingLogic.OpenRingDegrades | src/building.js:58-79 | an open building way degrades the same way |
| BuildingLogic.ConstructedOuterIffValid | src/building.js:47-79 | a building `Constructed` without fault has an outer element exactly when its top element validated; otherwise it holds nothing beyond its type |
| BuildingLogic.LoadedState | src/building.js:58-61 | a loaded building has a home inside its extents, one projected node-table entry per node id, and the outer element of its type |
| BuildingModel.Building.constructor | src/building.js:47-48 | the fields start empty, with `id` and the document set |
| BuildingModel.Building.New | src/building.js:47-79 | `new Building` yields a fresh building in the state `Constructed` describes, or the fault at which it throws |
| BuildingModel.Building.Load | src/building.js:50-79 | the constructor's steps leave the fields in the state `Constructed` describes, or stop at its fault |
| BuildingModel.Building.LoadValid | src/building.js:59-76 | after validation, the fields reach the state `Loaded` describes, or the steps stop at its fault |
| BuildingModel.Building.PlaceHome | src/building.js:59-61 | the node table is built, home is set to the centre of the extents, and the table is projected about it; a fault in the extents stops the steps |
| BuildingModel.Building.SelectParts | src/building.js:62-76 | the outer element is set, then the parts are appended; each fault stops the steps |
| BuildingModel.Building.IsValidData | src/building.js:192-228 | the two loops of `isValidData` give exactly the verdict of `Validate` |
| BuildingModel.Building.CheckCandidates | src/building.js:212-227 | the checking loop gives exactly the verdict of `CheckRings`: the first missing ring faults, the first open ring gives false, otherwise true |
| BuildingModel.Building.BuildNodeList | src/building.js:96-110 | the loop builds exactly the node table |
| BuildingModel.Building.SetHome | src/building.js:85-91 | home becomes the centre of the extents, latitude first; a fault in the extents leaves home unchanged |
| BuildingModel.Building.RepositionNodes | src/building.js:115-119 | every entry of the node table is projected about home once, in place, and the keys are kept |
| BuildingModel.Building.Render | src/building.js:121-129 | draws every part in order when there are parts, otherwise the outer element; an unset outer element is a fault |
| BuildingModel.Building.AddParts | src/building.js:131-161 | appends the building's parts, or on a fault the parts before the unresolved member, and reports that fault |
| BuildingModel.Building.AddMemberParts | src/building.js:132-142 | pushes one part per `part` member until the first unresolved one |
| BuildingModel.Building.AddTaggedParts | src/building.js:143-160 | appends every tagged way as a simple part, then every tagged relation as a multi part |
| BuildingModel.Building.GetExtents | src/building.js:251-286 | `getExtents` computes exactly the building's extents or their fault |
| BuildingModel.Building.WayExtents | src/building.js:279-282 | the extents of the way a member refers to, or the fault |
| BuildingModel.Building.MergeBoxes | src/building.js:265-277 | the running extents after the loop are the merge of every outer member's extents, unset when there is none; otherwise the fault of the first member whose extents fault |
| BuildingModel.Building.MergeOuterExtents | src/building.js:261-277 | the running merge over the outer members gives exactly the multipolygon's extents or their fault |
| BuildingModel.MergeStep | src/building.js:265-277 | one iteration keeps the loop invariant: the boxes so far are the members' extents and the running extents are their merge |
| BuildingModel.RunningMerge | src/building.js:269-276 | the running extents after one more member are the merge of all the boxes so far |
| BuildingModel.MergedAll | src/building.js:261-277 | once every outer member is merged, the running extents are the multipolygon's extents |
| BuildingModel.FirstFaultingOuter | src/building.js:265-268 | the first outer member whose extents fault decides the fault of the whole merge |

## Left out

- `Building.create`, `getWayData`, `getRelationData` and `getInnerData` (src/building.js:30-42, 166-187) are left out: they are asynchronous network fetches.
- The `DOMParser` parse (src/building.js:49) is left out: the model starts from the parsed document.
- The body of `repositionPoint` (src/building.js:233-246) is left out. It is floating-point spherical trigonometry, so it is a `Projection` parameter, and origin preservation is not modelled.
- `real_centroid` is left out because it is unfinished. `primaryDirection` is left out because its body is empty.
- `BuildingPart`, `MultiBuildingPart`, `createShape`, `BuildingShapeUtils.extents` and the `THREE` base class are not part of this model. A part is `Simple(ref)` or `Multi(ref)`, and `Render` returns the parts it would draw rather than drawing them.
- `console.log` diagnostics are left out.
- Coordinates are reals. The source reads them as attribute strings that the arithmetic coerces. An empty point list, where the JavaScript gets Infinity or NaN, is the fault `NoPoints`.
- A node without `lat` or `lon` is not modelled: every element of the model carries real coordinates. The source stores `[null, null]` for such a node (src/building.js:106-107), and the arithmetic later coerces the nulls.
- Ids are integers, and the node table is a map. The source keys a sparse array by the id string.
- The order in which `repositionNodes` visits the keys is not modelled. The loop takes any remaining key, and the result does not depend on the order.
- BuildingLogic.Extents: its own contract states only the missing-element fault and well-formedness. The per-kind ties are the lemma `ExtentsByKind`.
- OsmDom.MembersWithRole: its own contract states membership only. Document order is the lemma `MembersWithRoleInOrder`.
- BuildingLogic.NodeTable: its own contract states only that each key comes from a node element with that element's coordinates. That every node id is a key is the lemma `NodeTableKeys`. That the last node with an id wins is the lemma `NodeTableLastWins`.
- BuildingLogic.PartsOf: its own contract states only when it succeeds and the fault for a missing relation. The parts and their order are the lemmas `TaggedPartsInDocumentOrder`, `TaggedPartsOrder` and `RelationPartsInOrder`.
- BuildingLogic.TaggedIds: its own contract states membership only. Document order is the lemma `TaggedIdsInOrder`.
- BuildingModel.Building.Load: on a fault the model promises only the fault, not the part-filled fields. The constructor throws, so no caller can see those fields.
- OsmDom.GetElementById: its contract states only that a match carries the id. That the match is the earliest one is the separate lemma `GetElementByIdFirst`.
- Lines 148 and 156 read `getAttribute('ref')` on ways and relations, which gives null. The model takes the element's `id`, and has no as-written member for these two lines.
- Lines 266-267 read `this.fullXmlData` and `this.nodelist` inside the static `getExtents`. The model uses the document and table parameters. As written, line 262 faults first.
- `calculateRadius` and `centroid` read `this.way` and `this.nodelist`, which `BuildingShapeUtils` never defines (BuildingShapeUtils.js:8, 34). ShapeUtils.CalculateRadius and ShapeUtils.Centroid take the ring's `nd` refs and the node table as parameters instead.

## Findings

| source | as written | input that shows it | evidently intended | confidence | as-written member | corrected member |
|---|---|---|---|---|---|---|
| src/building.js:217 | tests `childtag.tagname`, which is undefined, so no `nd` ref is collected and every ring passes the closed check | a way tagged `building` with refs [1,2,3,4] | compare `tagName`, so the open ring is rejected | not executed | BuildingLogic.OpenWayPassesAsWritten | BuildingLogic.Validate |
| src/building.js:68-71 | looks up `id`, the relation itself, as the outline, so the way test at line 70 never holds and the outer element is always `Multi(outline_ref)` (line 71 would also use `id`) | relation 10 whose `outline` member 20 is a way | look up `outline_ref` and build a simple part on it | not executed | BuildingLogic.OutlineWayAsWritten | BuildingLogic.OuterElement |
| src/building.js:136 | reads `this.fullDmlData`, which is undefined, so any `part` member throws | relation 1 with `part` members 2 (a way) and 3 (a relation) | `this.fullXmlData`, giving [Simple(2), Multi(3)] | not executed | BuildingLogic.RelationPartsAsWritten | BuildingLogic.PartFor |
| src/building.js:262 | queries the undefined `xml_data`, so every multipolygon throws | relation 1 of type multipolygon with one `outer` way 2 over node 5 at (1, 3) | query `xmlElement`, giving extents (3, 1, 3, 1) | not executed | BuildingLogic.MultipolygonExtentsAsWritten | BuildingLogic.MultipolygonExtents |
