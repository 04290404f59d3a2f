/**
 * What the `Building` class of building.js computes, as pure functions of
 * the document: the building's type, whether the top element is a usable
 * building, the node table, the extents and home point, the outer element,
 * the parts, and the state the whole constructor leaves behind. The class
 * in building_model.dfy performs the same steps in place and is proved
 * against these functions; the lemmas here state what the steps promise.
 *
 * Where building.js has an evident slip, these functions model the intent
 * and a comment names the slip:
 *  - line 68 looks the outline up by `id`, not `outline_ref`, so the way
 *    branch at line 71 (which would also use `id`) never runs;
 *  - line 136 reads `this.fullDmlData`, not `this.fullXmlData`;
 *  - lines 148 and 156 read a `ref` attribute that ways and relations do
 *    not carry; their `id` is meant;
 *  - line 217 tests `childtag.tagname`, not `tagName`;
 *  - line 262 reads an undefined `xml_data` and lines 266-267 read
 *    `this.fullXmlData`/`this.nodelist` inside a static method, where the
 *    element and the parameters are meant.
 * The members ending in `AsWritten` model four of these as written.
 */
module BuildingLogic {
  import opened Outcomes
  import opened OsmDom
  import opened ShapeUtils

  /** The `type` field: `'way'`, `'multipolygon'` or `'relation'`. */
  datatype BuildingType = WayType | MultipolygonType | RelationType

  /**
   * A `BuildingPart` (backed by one way) or a `MultiBuildingPart` (backed
   * by a relation), by the id of the element it renders. Both share the
   * building's node table by reference, so the table is not copied here.
   */
  datatype Part = Simple(ref: Id) | Multi(ref: Id)

  /** `Building.repositionPoint(lat_lon, home)`, whose trigonometry is not modelled. */
  type Projection = (LatLon, LatLon) -> LatLon

  // ---------------------------------------------------------------------
  // Classification

  /**
   * The type of the top element: a `way`, else a relation whose first
   * `type` tag says `multipolygon`, else a generic relation. A non-way
   * without a `type` tag makes `querySelector` return null and the read of
   * its `v` attribute fault.
   */
  function Classify(e: Element): (r: Result<BuildingType>)
    ensures r == Ok(WayType) <==> e.kind == Way
    ensures r == Ok(MultipolygonType) <==> e.kind != Way && TagValue(e, "type") == Some("multipolygon")
    ensures r == Ok(RelationType) <==> e.kind != Way && TagValue(e, "type").Some? && TagValue(e, "type") != Some("multipolygon")
    ensures r.Err? <==> e.kind != Way && !HasTag(e, "type")
  {
    if e.kind == Way then Ok(WayType)
    else
      match TagValue(e, "type")
      case None => Err(MissingTypeTag(e.id))
      case Some(v) => if v == "multipolygon" then Ok(MultipolygonType) else Ok(RelationType)
  }

  // ---------------------------------------------------------------------
  // Validation

  /** `a[i]` on a JavaScript array: the element, or `undefined` outside the array. */
  function At(refs: seq<Id>, i: int): Option<Id>
  {
    if 0 <= i < |refs| then Some(refs[i]) else None
  }

  /**
   * The closed-ring test: the first `nd` ref equals the last. With no refs
   * both reads are `undefined`, so an empty ring passes.
   */
  predicate IsClosed(refs: seq<Id>)
    ensures IsClosed(refs) <==> At(refs, 0) == At(refs, |refs| - 1)
  {
    |refs| == 0 || refs[0] == refs[|refs| - 1]
  }

  /** One entry of the `ways` list: the ref looked up and what was found. */
  datatype Candidate = Candidate(ref: Id, found: Option<Element>)

  /**
   * The `ways` list of `isValidData`: for a relation, the element of every
   * member (of any role), in order; otherwise the element itself.
   */
  function Candidates(doc: Document, e: Element): (ws: seq<Candidate>)
    ensures e.kind == Relation ==>
              && |ws| == |e.members|
              && forall i :: 0 <= i < |ws| ==> ws[i] == Candidate(e.members[i].ref, GetElementById(doc, e.members[i].ref))
    ensures e.kind != Relation ==> ws == [Candidate(e.id, Some(e))]
  {
    if e.kind == Relation
    then seq(|e.members|, i requires 0 <= i < |e.members| =>
               Candidate(e.members[i].ref, GetElementById(doc, e.members[i].ref)))
    else [Candidate(e.id, Some(e))]
  }

  /** A candidate at which the ring loop stops: not found, or found with an open ring. */
  predicate Stops(c: Candidate)
  {
    c.found.None? || !IsClosed(c.found.value.nds)
  }

  /**
   * The ring loop of `isValidData`: the first candidate at which it stops
   * decides. An open ring gives false; a candidate that was not found
   * faults, naming its ref (its `children` are read from null).
   */
  function CheckRings(ws: seq<Candidate>): (r: Result<bool>)
    ensures r == Ok(true) <==> forall i :: 0 <= i < |ws| ==> ws[i].found.Some? && IsClosed(ws[i].found.value.nds)
    ensures var k := FirstIndex(ws, Stops); r.Err? <==> k < |ws| && ws[k].found.None?
    ensures var k := FirstIndex(ws, Stops); r.Err? ==> r.fault == MissingElement(ws[k].ref)
    ensures var k := FirstIndex(ws, Stops); r == Ok(false) <==> k < |ws| && ws[k].found.Some?
    ensures r.Err? ==> exists i :: 0 <= i < |ws| && ws[i].found.None? && r.fault == MissingElement(ws[i].ref)
  {
    if ws == [] then Ok(true)
    else
      match ws[0].found
      case None => Err(MissingElement(ws[0].ref))
      case Some(w) => if !IsClosed(w.nds) then Ok(false) else CheckRings(ws[1..])
  }

  /**
   * `isValidData`: a relation is valid when every member resolves to a
   * closed ring; anything else must carry a `building` tag and be closed.
   * For a relation, the first member that is missing or open decides: a
   * missing one faults naming its ref, an open one gives false. Line 217
   * tests `childtag.tagname`, which is always undefined; `tagName` is meant
   * (`ValidateAsWritten` keeps the slip).
   */
  function Validate(doc: Document, e: Element): (r: Result<bool>)
    ensures e.kind != Relation ==> r == Ok(HasTag(e, "building") && IsClosed(e.nds))
    ensures e.kind == Relation ==>
      (r == Ok(true) <==> forall i :: 0 <= i < |e.members| ==>
                            GetElementById(doc, e.members[i].ref).Some?
                            && IsClosed(GetElementById(doc, e.members[i].ref).value.nds))
    ensures e.kind == Relation ==>
              var k := FirstIndex(Candidates(doc, e), Stops);
              && (r.Err? <==> k < |e.members| && GetElementById(doc, e.members[k].ref).None?)
              && (r.Err? ==> r.fault == MissingElement(e.members[k].ref))
              && (r == Ok(false) <==> k < |e.members| && GetElementById(doc, e.members[k].ref).Some?)
    ensures r.Err? ==>
              && e.kind == Relation
              && exists i :: 0 <= i < |e.members| && GetElementById(doc, e.members[i].ref).None?
                             && r.fault == MissingElement(e.members[i].ref)
  {
    var ws := Candidates(doc, e);
    if e.kind != Relation && !HasTag(e, "building") then Ok(false)
    else
      var r := CheckRings(ws);
      assert e.kind != Relation ==> ws[0].found == Some(e);
      r
  }

  /** The examples of the closed-ring test: [1,2,3,4] is open, [1,2,3,1] closed. */
  lemma ClosedRingExamples()
    ensures !IsClosed([1, 2, 3, 4]) && IsClosed([1, 2, 3, 1]) && IsClosed([])
  {
  }

  /**
   * `nd` refs as line 217 collects them: `childtag.tagname` is undefined,
   * so no child is taken and every ring looks closed.
   */
  function RingRefsAsWritten(e: Element): (refs: seq<Id>)
    ensures IsClosed(refs)
  {
    []
  }

  /**
   * `isValidData` as written: with the refs of line 217 every found ring
   * is closed, so only the building tag and missing members matter.
   */
  function ValidateAsWritten(doc: Document, e: Element): (r: Result<bool>)
    ensures e.kind != Relation ==> r == Ok(HasTag(e, "building"))
    ensures e.kind == Relation ==>
              (r == Ok(true) <==> forall i :: 0 <= i < |e.members| ==> GetElementById(doc, e.members[i].ref).Some?)
    ensures r != Ok(false) || e.kind != Relation
  {
    var ws := Candidates(doc, e);
    if e.kind != Relation && !HasTag(e, "building") then Ok(false)
    else
      var k := FirstIndex(ws, (c: Candidate) => c.found.None?);
      if k < |ws| then Err(MissingElement(ws[k].ref)) else Ok(true)
  }

  /**
   * As written, the open building way [1,2,3,4] passes `isValidData`; the
   * intended check rejects it.
   */
  lemma OpenWayPassesAsWritten()
    ensures var w := Element(Way, 7, 0.0, 0.0, [Tag("building", "yes")], [], [1, 2, 3, 4]);
            && IsClosed(RingRefsAsWritten(w))
            && ValidateAsWritten([w], w) == Ok(true)
            && Validate([w], w) == Ok(false)
  {
    var w := Element(Way, 7, 0.0, 0.0, [Tag("building", "yes")], [], [1, 2, 3, 4]);
    assert TagValue(w, "building") == Some("yes") by {
      assert w.tags[0] == Tag("building", "yes");
    }
  }

  // ---------------------------------------------------------------------
  // Node table

  /**
   * `buildNodeList`: every `node` element's `[lat, lon]` under its id; a
   * later node with the same id overwrites an earlier one.
   */
  function NodeTable(doc: Document): (t: map<Id, LatLon>)
    ensures forall k :: k in t ==>
              exists i :: 0 <= i < |doc| && doc[i].kind == Node && doc[i].id == k && t[k] == LatLon(doc[i].lat, doc[i].lon)
  {
    if doc == [] then map[]
    else
      var front := doc[..|doc| - 1];
      var t := NodeTable(front);
      var e := doc[|doc| - 1];
      assert forall i :: 0 <= i < |front| ==> front[i] == doc[i];
      if e.kind == Node then t[e.id := LatLon(e.lat, e.lon)] else t
  }

  /** The keys of the node table are exactly the ids of the node elements. */
  lemma {:induction false} NodeTableKeys(doc: Document)
    ensures forall k :: k in NodeTable(doc) <==> exists i :: 0 <= i < |doc| && doc[i].kind == Node && doc[i].id == k
  {
    if doc != [] {
      var front := doc[..|doc| - 1];
      NodeTableKeys(front);
      forall k | k in NodeTable(doc)
        ensures exists i :: 0 <= i < |doc| && doc[i].kind == Node && doc[i].id == k
      {
        if k in NodeTable(front) {
          var i :| 0 <= i < |front| && front[i].kind == Node && front[i].id == k;
          assert doc[i] == front[i];
        }
      }
      forall k | exists i :: 0 <= i < |doc| && doc[i].kind == Node && doc[i].id == k
        ensures k in NodeTable(doc)
      {
        var i :| 0 <= i < |doc| && doc[i].kind == Node && doc[i].id == k;
        if i < |front| {
          assert front[i] == doc[i];
        }
      }
    }
  }

  /** Each key holds the coordinates of the last node element with that id. */
  lemma {:induction false} NodeTableLastWins(doc: Document, i: nat)
    requires i < |doc| && doc[i].kind == Node
    requires forall j :: i < j < |doc| ==> doc[j].kind != Node || doc[j].id != doc[i].id
    ensures doc[i].id in NodeTable(doc)
    ensures NodeTable(doc)[doc[i].id] == LatLon(doc[i].lat, doc[i].lon)
  {
    if i < |doc| - 1 {
      var front := doc[..|doc| - 1];
      assert front[i] == doc[i];
      NodeTableLastWins(front, i);
    }
  }

  /** `repositionNodes`: every entry replaced by its projection about `home`, keys unchanged. */
  function Repositioned(t: map<Id, LatLon>, home: LatLon, reposition: Projection): (r: map<Id, LatLon>)
    ensures r.Keys == t.Keys
    ensures forall k :: k in t ==> r[k] == reposition(t[k], home)
  {
    map k | k in t :: reposition(t[k], home)
  }

  // ---------------------------------------------------------------------
  // Extents

  /** Every side of `inner` lies within `outer`. */
  predicate Encloses(outer: Box, inner: Box)
  {
    outer.left <= inner.left && outer.bottom <= inner.bottom
    && inner.right <= outer.right && inner.top <= outer.top
  }

  /**
   * One step of the running merge at lines 272-275: the box enclosing
   * both, each of whose sides is a side of one of them.
   */
  function Merge(a: Box, b: Box): (m: Box)
    ensures Encloses(m, a) && Encloses(m, b)
    ensures (m.left == a.left || m.left == b.left) && (m.bottom == a.bottom || m.bottom == b.bottom)
    ensures (m.right == a.right || m.right == b.right) && (m.top == a.top || m.top == b.top)
    ensures WellFormed(a) ==> WellFormed(m)
  {
    Box(Min2(a.left, b.left), Min2(a.bottom, b.bottom), Max2(a.right, b.right), Max2(a.top, b.top))
  }

  function LeftOf(b: Box): real { b.left }
  function BottomOf(b: Box): real { b.bottom }
  function RightOf(b: Box): real { b.right }
  function TopOf(b: Box): real { b.top }

  /**
   * The merged extents of the outer members' boxes: the coordinate-wise
   * min of left and bottom and max of right and top. It encloses every
   * box, and each of its sides is a side of some box.
   */
  function MergeAll(bs: seq<Box>): (m: Box)
    requires |bs| > 0
    ensures WellFormed(m) || exists i :: 0 <= i < |bs| && !WellFormed(bs[i])
    ensures forall i :: 0 <= i < |bs| ==> Encloses(m, bs[i])
    ensures exists i :: 0 <= i < |bs| && bs[i].left == m.left
    ensures exists i :: 0 <= i < |bs| && bs[i].bottom == m.bottom
    ensures exists i :: 0 <= i < |bs| && bs[i].right == m.right
    ensures exists i :: 0 <= i < |bs| && bs[i].top == m.top
  {
    var ls, bo, rs, ts := Coord(bs, LeftOf), Coord(bs, BottomOf), Coord(bs, RightOf), Coord(bs, TopOf);
    assert forall i :: 0 <= i < |bs| ==> ls[i] == bs[i].left && bo[i] == bs[i].bottom
                                         && rs[i] == bs[i].right && ts[i] == bs[i].top;
    Box(Min(ls), Min(bo), Max(rs), Max(ts))
  }

  /** `Math.min(...(s + [x]))` is one more running-minimum step after `s`. */
  lemma MinMaxSnoc(s: seq<real>, x: real)
    requires |s| > 0
    ensures Min(s + [x]) == Min2(Min(s), x)
    ensures Max(s + [x]) == Max2(Max(s), x)
  {
    assert (s + [x])[..|s|] == s;
  }

  lemma CoordSnoc<P>(s: seq<P>, x: P, f: P -> real)
    ensures Coord(s + [x], f) == Coord(s, f) + [f(x)]
  {
  }

  /** Merging one more box is one more step of the running merge. */
  lemma MergeAllSnoc(bs: seq<Box>, b: Box)
    requires |bs| > 0
    ensures MergeAll(bs + [b]) == Merge(MergeAll(bs), b)
  {
    CoordSnoc(bs, b, LeftOf);
    CoordSnoc(bs, b, BottomOf);
    CoordSnoc(bs, b, RightOf);
    CoordSnoc(bs, b, TopOf);
    MinMaxSnoc(Coord(bs, LeftOf), b.left);
    MinMaxSnoc(Coord(bs, BottomOf), b.bottom);
    MinMaxSnoc(Coord(bs, RightOf), b.right);
    MinMaxSnoc(Coord(bs, TopOf), b.top);
  }

  /** With one outer member, the merged extents are that member's extents. */
  lemma MergeAllSingle(b: Box)
    ensures MergeAll([b]) == b
  {
    assert Coord([b], LeftOf) == [b.left];
    assert Coord([b], BottomOf) == [b.bottom];
    assert Coord([b], RightOf) == [b.right];
    assert Coord([b], TopOf) == [b.top];
  }

  /** The merged extents do not depend on the order (or repetition) of the member boxes. */
  lemma MergeAllSameBoxes(a: seq<Box>, b: seq<Box>)
    requires |a| > 0 && |b| > 0
    requires forall x :: x in a <==> x in b
    ensures MergeAll(a) == MergeAll(b)
  {
    CoordSameElements(a, b, LeftOf);
    CoordSameElements(a, b, BottomOf);
    CoordSameElements(a, b, RightOf);
    CoordSameElements(a, b, TopOf);
    MinMaxSameElements(Coord(a, LeftOf), Coord(b, LeftOf));
    MinMaxSameElements(Coord(a, BottomOf), Coord(b, BottomOf));
    MinMaxSameElements(Coord(a, RightOf), Coord(b, RightOf));
    MinMaxSameElements(Coord(a, TopOf), Coord(b, TopOf));
  }

  /** Merging (0,0,2,2) and (5,5,7,7) in either order gives (0,0,7,7). */
  lemma MergeExample()
    ensures MergeAll([Box(0.0, 0.0, 2.0, 2.0), Box(5.0, 5.0, 7.0, 7.0)]) == Box(0.0, 0.0, 7.0, 7.0)
    ensures MergeAll([Box(5.0, 5.0, 7.0, 7.0), Box(0.0, 0.0, 2.0, 2.0)]) == Box(0.0, 0.0, 7.0, 7.0)
  {
    var a, b := Box(0.0, 0.0, 2.0, 2.0), Box(5.0, 5.0, 7.0, 7.0);
    MergeAllSingle(a);
    MergeAllSnoc([a], b);
    MergeAllSingle(b);
    MergeAllSnoc([b], a);
  }

  /**
   * The extents of the way `ref`, as a multipolygon member or an outline:
   * a fault when the ref does not resolve, else the extents of the ring of
   * the element found.
   */
  function MemberBox(doc: Document, ref: Id, t: map<Id, LatLon>): (r: Result<Box>)
    ensures GetElementById(doc, ref).None? ==> r == Err(MissingElement(ref))
    ensures r.Ok? <==> GetElementById(doc, ref).Some? && RingBounds(GetElementById(doc, ref).value.nds, t).Ok?
    ensures GetElementById(doc, ref).Some? ==> r == RingBounds(GetElementById(doc, ref).value.nds, t)
    ensures r.Ok? ==> WellFormed(r.value)
  {
    match GetElementById(doc, ref)
    case None => Err(MissingElement(ref))
    case Some(w) => RingBounds(w.nds, t)
  }

  /** The extents of every `outer` member in order, stopping at the first fault. */
  function OuterBoxes(doc: Document, outers: seq<Member>, t: map<Id, LatLon>): (r: Result<seq<Box>>)
    ensures r.Ok? <==> forall i :: 0 <= i < |outers| ==> MemberBox(doc, outers[i].ref, t).Ok?
    ensures r.Ok? ==> |r.value| == |outers|
                      && forall i :: 0 <= i < |outers| ==> r.value[i] == MemberBox(doc, outers[i].ref, t).value
    ensures r.Err? ==> exists i :: 0 <= i < |outers| && MemberBox(doc, outers[i].ref, t).Err?
                                   && r.fault == MemberBox(doc, outers[i].ref, t).fault
                                   && forall j :: 0 <= j < i ==> MemberBox(doc, outers[j].ref, t).Ok?
  {
    Traverse(outers, BoxOf(doc, t))
  }

  /** `MemberBox` of a member, as a function value. */
  function BoxOf(doc: Document, t: map<Id, LatLon>): Member -> Result<Box>
  {
    (m: Member) => MemberBox(doc, m.ref, t)
  }

  /** Each side of `b` is the same side of the extents of one of the members. */
  predicate SidesTouchMembers(doc: Document, ms: seq<Member>, t: map<Id, LatLon>, b: Box)
  {
    && (exists m :: m in ms && MemberBox(doc, m.ref, t).Ok? && MemberBox(doc, m.ref, t).value.left == b.left)
    && (exists m :: m in ms && MemberBox(doc, m.ref, t).Ok? && MemberBox(doc, m.ref, t).value.bottom == b.bottom)
    && (exists m :: m in ms && MemberBox(doc, m.ref, t).Ok? && MemberBox(doc, m.ref, t).value.right == b.right)
    && (exists m :: m in ms && MemberBox(doc, m.ref, t).Ok? && MemberBox(doc, m.ref, t).value.top == b.top)
  }

  /**
   * The extents of a multipolygon: the merge of its `outer` members'
   * extents, i.e. the smallest box enclosing all of them, each of whose
   * sides is a side of some member's extents. Without outer members the
   * extents stay undefined; otherwise the first outer member without
   * extents decides the fault. Line 262 reads an undefined `xml_data` and
   * lines 266-267 read `this.fullXmlData` and `this.nodelist` inside a
   * static method; the element, the document and the node table passed in
   * are meant (`ExtentsAsWritten` keeps the line 262 slip).
   */
  function MultipolygonExtents(doc: Document, e: Element, t: map<Id, LatLon>): (r: Result<Box>)
    ensures r.Ok? <==> MembersWithRole(e, "outer") != []
                       && forall m :: m in MembersWithRole(e, "outer") ==> MemberBox(doc, m.ref, t).Ok?
    ensures MembersWithRole(e, "outer") == [] ==> r == Err(NoOuterMember(e.id))
    ensures r.Err? && MembersWithRole(e, "outer") != [] ==>
              var outers := MembersWithRole(e, "outer");
              exists i :: 0 <= i < |outers| && MemberBox(doc, outers[i].ref, t).Err?
                          && r.fault == MemberBox(doc, outers[i].ref, t).fault
                          && forall j :: 0 <= j < i ==> MemberBox(doc, outers[j].ref, t).Ok?
    ensures r.Ok? ==> WellFormed(r.value)
    ensures r.Ok? ==> forall m :: m in MembersWithRole(e, "outer") ==>
                        MemberBox(doc, m.ref, t).Ok? && Encloses(r.value, MemberBox(doc, m.ref, t).value)
    ensures r.Ok? ==> SidesTouchMembers(doc, MembersWithRole(e, "outer"), t, r.value)
  {
    var outers := MembersWithRole(e, "outer");
    match OuterBoxes(doc, outers, t)
    case Err(f) =>
      OuterFault(doc, outers, t);
      Err(f)
    case Ok(boxes) =>
      if boxes == [] then Err(NoOuterMember(e.id))
      else
        MergeOfOuters(doc, outers, t);
        Ok(MergeAll(boxes))
  }

  /** Some outer member lacks extents exactly when the list of their boxes faults. */
  lemma OuterFault(doc: Document, outers: seq<Member>, t: map<Id, LatLon>)
    requires OuterBoxes(doc, outers, t).Err?
    ensures !forall m :: m in outers ==> MemberBox(doc, m.ref, t).Ok?
  {
    var i :| 0 <= i < |outers| && MemberBox(doc, outers[i].ref, t).Err?;
    assert outers[i] in outers;
  }

  /**
   * The merge of the outer members' extents encloses each of them, and
   * each of its sides is a side of one of them.
   */
  lemma MergeOfOuters(doc: Document, outers: seq<Member>, t: map<Id, LatLon>)
    requires OuterBoxes(doc, outers, t).Ok? && outers != []
    ensures |OuterBoxes(doc, outers, t).value| > 0
    ensures forall m :: m in outers ==>
              MemberBox(doc, m.ref, t).Ok? && Encloses(MergeAll(OuterBoxes(doc, outers, t).value), MemberBox(doc, m.ref, t).value)
    ensures SidesTouchMembers(doc, outers, t, MergeAll(OuterBoxes(doc, outers, t).value))
  {
    var boxes := OuterBoxes(doc, outers, t).value;
    var mb := MergeAll(boxes);
    forall m | m in outers
      ensures MemberBox(doc, m.ref, t).Ok? && Encloses(mb, MemberBox(doc, m.ref, t).value)
    {
      var i :| 0 <= i < |outers| && outers[i] == m;
      assert boxes[i] == MemberBox(doc, m.ref, t).value;
    }
    var il :| 0 <= il < |boxes| && boxes[il].left == mb.left;
    assert outers[il] in outers && boxes[il] == MemberBox(doc, outers[il].ref, t).value;
    var ib :| 0 <= ib < |boxes| && boxes[ib].bottom == mb.bottom;
    assert outers[ib] in outers && boxes[ib] == MemberBox(doc, outers[ib].ref, t).value;
    var ir :| 0 <= ir < |boxes| && boxes[ir].right == mb.right;
    assert outers[ir] in outers && boxes[ir] == MemberBox(doc, outers[ir].ref, t).value;
    var it :| 0 <= it < |boxes| && boxes[it].top == mb.top;
    assert outers[it] in outers && boxes[it] == MemberBox(doc, outers[it].ref, t).value;
  }

  /**
   * `getExtents`: the extents of a way's ring, of a multipolygon's outer
   * members, or of a generic relation's first `outline` member. A missing
   * element, type tag or outline member is a fault.
   */
  function Extents(doc: Document, id: Id, t: map<Id, LatLon>): (r: Result<Box>)
    ensures GetElementById(doc, id).None? ==> r == Err(MissingElement(id))
    ensures r.Ok? ==> WellFormed(r.value)
  {
    match GetElementById(doc, id)
    case None => Err(MissingElement(id))
    case Some(e) =>
      match Classify(e)
      case Err(f) => Err(f)
      case Ok(ty) =>
        if ty == WayType then RingBounds(e.nds, t)
        else if ty == MultipolygonType then MultipolygonExtents(doc, e, t)
        else
          match FirstMemberWithRole(e, "outline")
          case None => Err(MissingOutline(e.id))
          case Some(m) => MemberBox(doc, m.ref, t)
  }

  /**
   * How the extents of a found element depend on its kind: its
   * classification fault, a way's ring, the merge of a multipolygon's
   * outer members, or a relation's outline member, missing or found.
   */
  lemma ExtentsByKind(doc: Document, id: Id, t: map<Id, LatLon>)
    requires GetElementById(doc, id).Some?
    ensures var e, r := GetElementById(doc, id).value, Extents(doc, id, t);
            && (Classify(e).Err? ==> r == Err(Classify(e).fault))
            && (e.kind == Way ==> r == RingBounds(e.nds, t))
            && (Classify(e) == Ok(MultipolygonType) ==> r == MultipolygonExtents(doc, e, t))
            && (Classify(e) == Ok(RelationType) && FirstMemberWithRole(e, "outline").None? ==>
                  r == Err(MissingOutline(id)))
            && (Classify(e) == Ok(RelationType) && FirstMemberWithRole(e, "outline").Some? ==>
                  r == MemberBox(doc, FirstMemberWithRole(e, "outline").value.ref, t))
  {
  }

  /** As written, line 262 reads the undefined `xml_data` for every multipolygon. */
  function ExtentsAsWritten(doc: Document, id: Id, t: map<Id, LatLon>): (r: Result<Box>)
    ensures GetElementById(doc, id).Some? && Classify(GetElementById(doc, id).value) == Ok(MultipolygonType)
            ==> r == Err(UndefinedName("xml_data"))
    ensures !(GetElementById(doc, id).Some? && Classify(GetElementById(doc, id).value) == Ok(MultipolygonType))
            ==> r == Extents(doc, id, t)
  {
    match GetElementById(doc, id)
    case Some(e) =>
      if Classify(e) == Ok(MultipolygonType) then Err(UndefinedName("xml_data")) else Extents(doc, id, t)
    case None => Extents(doc, id, t)
  }

  /** The document of the one-member multipolygon example: relation 1, way 2, node 5. */
  function OneMemberMultipolygon(): Document
  {
    [Element(Relation, 1, 0.0, 0.0, [Tag("type", "multipolygon")], [Member(2, "outer")], []),
     Element(Way, 2, 0.0, 0.0, [], [], [5]),
     Element(Node, 5, 1.0, 3.0, [], [], [])]
  }

  lemma OneMemberTable()
    ensures NodeTable(OneMemberMultipolygon()) == map[5 := LatLon(1.0, 3.0)]
  {
    var doc := OneMemberMultipolygon();
    assert doc[..2] == [doc[0], doc[1]] && doc[..2][..1] == [doc[0]] && doc[..2][..1][..0] == [];
    assert NodeTable(doc[..1]) == map[];
    assert NodeTable(doc[..2]) == map[];
  }

  lemma OneMemberBox()
    ensures MemberBox(OneMemberMultipolygon(), 2, map[5 := LatLon(1.0, 3.0)]) == Ok(Box(3.0, 1.0, 3.0, 1.0))
  {
    var doc, t := OneMemberMultipolygon(), map[5 := LatLon(1.0, 3.0)];
    GetElementByIdFirst(doc, 2, 1);
    RingBoundsSingle(5, t);
  }

  /** The example multipolygon is classified as one, and its extents are its outer members' merge. */
  lemma OneMemberExtents(t: map<Id, LatLon>)
    ensures var doc := OneMemberMultipolygon();
            && GetElementById(doc, 1) == Some(doc[0])
            && Classify(doc[0]) == Ok(MultipolygonType)
            && Extents(doc, 1, t) == MultipolygonExtents(doc, doc[0], t)
  {
    var doc := OneMemberMultipolygon();
    GetElementByIdFirst(doc, 1, 0);
    OneMemberClassify();
    ExtentsByKind(doc, 1, t);
  }

  lemma OneMemberClassify()
    ensures Classify(OneMemberMultipolygon()[0]) == Ok(MultipolygonType)
  {
    var e := OneMemberMultipolygon()[0];
    assert e.tags[0] == Tag("type", "multipolygon");
    assert TagValue(e, "type") == Some("multipolygon");
  }

  lemma OneMemberMerge()
    ensures var doc := OneMemberMultipolygon();
            MultipolygonExtents(doc, doc[0], map[5 := LatLon(1.0, 3.0)]) == Ok(Box(3.0, 1.0, 3.0, 1.0))
  {
    var doc, t := OneMemberMultipolygon(), map[5 := LatLon(1.0, 3.0)];
    var box := Box(3.0, 1.0, 3.0, 1.0);
    assert MembersWithRole(doc[0], "outer") == [Member(2, "outer")] by {
      assert doc[0].members == [Member(2, "outer")];
      assert doc[0].members[..0] == [];
    }
    OneMemberBox();
    var boxes := OuterBoxes(doc, [Member(2, "outer")], t);
    assert boxes.Ok? && |boxes.value| == 1 && boxes.value[0] == box;
    assert boxes.value == [box];
    MergeAllSingle(box);
  }

  /** A one-member multipolygon: as written a fault, intended that member's extents. */
  lemma MultipolygonExtentsAsWritten()
    ensures var doc := OneMemberMultipolygon();
            ExtentsAsWritten(doc, 1, NodeTable(doc)) == Err(UndefinedName("xml_data"))
            && Extents(doc, 1, NodeTable(doc)) == Ok(Box(3.0, 1.0, 3.0, 1.0))
  {
    var doc := OneMemberMultipolygon();
    OneMemberTable();
    OneMemberExtents(NodeTable(doc));
    OneMemberMerge();
  }

  /** The home point lies inside the extents it is the centre of. */
  lemma HomeInsideExtents(doc: Document, id: Id, t: map<Id, LatLon>)
    requires Extents(doc, id, t).Ok?
    ensures Inside(CenterOf(Extents(doc, id, t).value), Extents(doc, id, t).value)
  {
  }

  /** For a way building, the home point is the `centroid` of its own ring. */
  lemma HomeIsWayCentroid(doc: Document, id: Id, t: map<Id, LatLon>)
    requires GetElementById(doc, id).Some? && GetElementById(doc, id).value.kind == Way
    ensures Extents(doc, id, t).Ok? ==>
              CenterOf(Extents(doc, id, t).value) == RingCenter(GetElementById(doc, id).value.nds, t).value
  {
  }

  // ---------------------------------------------------------------------
  // Outer element

  /**
   * The outer element: the way itself, the multipolygon itself, or the
   * generic relation's `outline` member, simple when that member is a way.
   */
  function OuterElement(doc: Document, top: Element, ty: BuildingType): (r: Result<Part>)
    ensures ty == WayType ==> r == Ok(Simple(top.id))
    ensures ty == MultipolygonType ==> r == Ok(Multi(top.id))
    ensures ty == RelationType && r.Ok? ==>
              FirstMemberWithRole(top, "outline").Some?
              && r.value.ref == FirstMemberWithRole(top, "outline").value.ref
              && GetElementById(doc, r.value.ref).Some?
              && (r.value.Simple? <==> GetElementById(doc, r.value.ref).value.kind == Way)
    ensures ty == RelationType && r.Err? ==>
              if FirstMemberWithRole(top, "outline").None? then r.fault == MissingOutline(top.id)
              else GetElementById(doc, FirstMemberWithRole(top, "outline").value.ref).None?
                   && r.fault == MissingElement(FirstMemberWithRole(top, "outline").value.ref)
  {
    match ty
    case WayType => Ok(Simple(top.id))
    case MultipolygonType => Ok(Multi(top.id))
    case RelationType =>
      match FirstMemberWithRole(top, "outline")
      case None => Err(MissingOutline(top.id))
      case Some(m) =>
        // line 68 looks up `id`, the relation itself, so the way branch
        // at line 71 never runs (and would build on `id`); the outline
        // member's ref is meant in both
        match GetElementById(doc, m.ref)
        case None => Err(MissingElement(m.ref))
        case Some(outline) => if outline.kind == Way then Ok(Simple(m.ref)) else Ok(Multi(m.ref))
  }

  /**
   * Lines 67-74 as written: the "outline" looked up is the top element
   * itself, so for a relation the outer element is always multi.
   */
  function OuterElementAsWritten(doc: Document, top: Element, ty: BuildingType): (r: Result<Part>)
    ensures ty == RelationType && top.kind != Way && r.Ok? ==> r.value.Multi?
  {
    match ty
    case WayType => Ok(Simple(top.id))
    case MultipolygonType => Ok(Multi(top.id))
    case RelationType =>
      match FirstMemberWithRole(top, "outline")
      case None => Err(MissingOutline(top.id))
      case Some(m) => if top.kind == Way then Ok(Simple(top.id)) else Ok(Multi(m.ref))
  }

  /** A relation whose outline is a way: as written multi, intended simple. */
  lemma OutlineWayAsWritten()
    ensures var r := Element(Relation, 10, 0.0, 0.0, [Tag("type", "building")], [Member(20, "outline")], []);
            var w := Element(Way, 20, 0.0, 0.0, [], [], []);
            OuterElementAsWritten([r, w], r, RelationType) == Ok(Multi(20))
            && OuterElement([r, w], r, RelationType) == Ok(Simple(20))
  {
    var r := Element(Relation, 10, 0.0, 0.0, [Tag("type", "building")], [Member(20, "outline")], []);
    var w := Element(Way, 20, 0.0, 0.0, [], [], []);
    assert FirstMemberWithRole(r, "outline") == Some(Member(20, "outline")) by {
      assert r.members[0].role == "outline";
    }
    assert GetElementById([r, w], 20) == Some(w) by {
      assert [r, w][1] == w;
    }
  }

  /** The type and the outer element agree (building.js lines 51-57 and 62-75). */
  lemma OuterFollowsType(doc: Document, top: Element)
    requires Classify(top).Ok?
    ensures top.kind == Way ==> OuterElement(doc, top, Classify(top).value) == Ok(Simple(top.id))
    ensures top.kind != Way && TagValue(top, "type") == Some("multipolygon") ==>
              OuterElement(doc, top, Classify(top).value) == Ok(Multi(top.id))
    ensures top.kind != Way && TagValue(top, "type") != Some("multipolygon") ==>
              Classify(top) == Ok(RelationType)
              && (OuterElement(doc, top, RelationType).Ok? <==>
                    FirstMemberWithRole(top, "outline").Some?
                    && GetElementById(doc, FirstMemberWithRole(top, "outline").value.ref).Some?)
  {
  }

  // ---------------------------------------------------------------------
  // Parts

  /** The part for the member `ref`: simple if the element is a way, multi otherwise. */
  function PartFor(doc: Document, ref: Id): (r: Result<Part>)
    ensures r.Ok? <==> GetElementById(doc, ref).Some?
    ensures r.Err? ==> r.fault == MissingElement(ref)
    ensures r.Ok? ==> r.value.ref == ref && (r.value.Simple? <==> GetElementById(doc, ref).value.kind == Way)
  {
    // line 136 reads `this.fullDmlData`; the document is meant
    match GetElementById(doc, ref)
    case None => Err(MissingElement(ref))
    case Some(part) => if part.kind == Way then Ok(Simple(ref)) else Ok(Multi(ref))
  }

  /** One part per `part` member, in document order; the first unresolved member faults. */
  function MemberParts(doc: Document, ms: seq<Member>): (r: Result<seq<Part>>)
    ensures r.Ok? <==> forall i :: 0 <= i < |ms| ==> GetElementById(doc, ms[i].ref).Some?
    ensures r.Ok? ==> |r.value| == |ms| && forall i :: 0 <= i < |ms| ==>
                        r.value[i].ref == ms[i].ref
                        && (r.value[i].Simple? <==> GetElementById(doc, ms[i].ref).value.kind == Way)
    ensures r.Err? ==> exists i :: 0 <= i < |ms| && GetElementById(doc, ms[i].ref).None?
                                   && r.fault == MissingElement(ms[i].ref)
                                   && forall j :: 0 <= j < i ==> GetElementById(doc, ms[j].ref).Some?
  {
    var r := Traverse(ms, (m: Member) => PartFor(doc, m.ref));
    assert forall i :: 0 <= i < |ms| ==> (PartFor(doc, ms[i].ref).Ok? <==> GetElementById(doc, ms[i].ref).Some?);
    r
  }

  /** An element of this kind carrying a `building:part` tag. */
  predicate IsTaggedPart(e: Element, kind: Kind)
  {
    e.kind == kind && HasTag(e, "building:part")
  }

  /** The test `IsTaggedPart` for one kind, as a function value. */
  function TaggedOf(kind: Kind): Element -> bool
  {
    (e: Element) => IsTaggedPart(e, kind)
  }

  /**
   * The ids of the elements of one kind tagged `building:part`: one per
   * such element, in document order.
   */
  function TaggedIds(doc: Document, kind: Kind): (r: seq<Id>)
    ensures forall x :: x in r <==> exists i :: 0 <= i < |doc| && IsTaggedPart(doc[i], kind) && doc[i].id == x
  {
    if doc == [] then []
    else
      var front := doc[..|doc| - 1];
      var e := doc[|doc| - 1];
      var r := TaggedIds(front, kind) + (if IsTaggedPart(e, kind) then [e.id] else []);
      assert forall i :: 0 <= i < |front| ==> front[i] == doc[i];
      r
  }

  /** The `k`-th tagged id of a kind is the id of the `k`-th element of that kind so tagged. */
  lemma {:induction false} TaggedIdsInOrder(doc: Document, kind: Kind)
    ensures var r, idx := TaggedIds(doc, kind), Positions(doc, TaggedOf(kind));
            |r| == |idx| && forall k :: 0 <= k < |idx| ==> r[k] == doc[idx[k]].id
  {
    if doc != [] {
      var front, last := doc[..|doc| - 1], doc[|doc| - 1];
      TaggedIdsInOrder(front, kind);
      var r, idx := TaggedIds(front, kind), Positions(front, TaggedOf(kind));
      assert TaggedIds(doc, kind) == r + (if IsTaggedPart(last, kind) then [last.id] else []);
      assert Positions(doc, TaggedOf(kind)) == idx + (if TaggedOf(kind)(last) then [|doc| - 1] else []);
      forall k | 0 <= k < |r|
        ensures r[k] == doc[idx[k]].id
      {
        assert front[idx[k]] == doc[idx[k]];
      }
    }
  }

  function SimpleParts(ids: seq<Id>): (ps: seq<Part>)
    ensures |ps| == |ids| && forall i :: 0 <= i < |ids| ==> ps[i] == Simple(ids[i])
  {
    seq(|ids|, i requires 0 <= i < |ids| => Simple(ids[i]))
  }

  function MultiParts(ids: seq<Id>): (ps: seq<Part>)
    ensures |ps| == |ids| && forall i :: 0 <= i < |ids| ==> ps[i] == Multi(ids[i])
  {
    seq(|ids|, i requires 0 <= i < |ids| => Multi(ids[i]))
  }

  /**
   * `addParts`: for a generic relation, one part per `part` member; for
   * any other type, a simple part per way tagged `building:part`, then a
   * multi part per relation so tagged (lines 148 and 156 read `ref`; the
   * element's `id` is meant).
   */
  function PartsOf(doc: Document, id: Id, ty: BuildingType): (r: Result<seq<Part>>)
    ensures ty != RelationType ==> r.Ok?
    ensures ty == RelationType && GetElementById(doc, id).None? ==> r == Err(MissingElement(id))
  {
    if ty == RelationType then
      match GetElementById(doc, id)
      case None => Err(MissingElement(id))
      case Some(top) => MemberParts(doc, MembersWithRole(top, "part"))
    else Ok(SimpleParts(TaggedIds(doc, Way)) + MultiParts(TaggedIds(doc, Relation)))
  }

  /**
   * For a non-relation building, the parts are one simple part per way
   * tagged `building:part`, in document order, followed by one multi part
   * per relation so tagged, in document order.
   */
  lemma TaggedPartsInDocumentOrder(doc: Document, id: Id, ty: BuildingType)
    requires ty != RelationType
    ensures PartsOf(doc, id, ty).Ok?
    ensures var ps := PartsOf(doc, id, ty).value;
            var wp, rp := Positions(doc, TaggedOf(Way)), Positions(doc, TaggedOf(Relation));
            && |ps| == |wp| + |rp|
            && (forall k :: 0 <= k < |wp| ==> ps[k] == Simple(doc[wp[k]].id))
            && (forall k :: 0 <= k < |rp| ==> ps[|wp| + k] == Multi(doc[rp[k]].id))
  {
    var sp, mp := SimpleParts(TaggedIds(doc, Way)), MultiParts(TaggedIds(doc, Relation));
    var wp, rp := Positions(doc, TaggedOf(Way)), Positions(doc, TaggedOf(Relation));
    assert PartsOf(doc, id, ty) == Ok(sp + mp);
    assert |sp| == |wp| && forall k :: 0 <= k < |wp| ==> sp[k] == Simple(doc[wp[k]].id) by {
      TaggedPartsAt(doc, Way);
    }
    assert |mp| == |rp| && forall k :: 0 <= k < |rp| ==> mp[k] == Multi(doc[rp[k]].id) by {
      TaggedPartsAt(doc, Relation);
    }
  }

  /** The `k`-th tagged id of a kind is the id of the `k`-th tagged element of that kind. */
  lemma TaggedPartsAt(doc: Document, kind: Kind)
    ensures var ps, idx := SimpleParts(TaggedIds(doc, kind)), Positions(doc, TaggedOf(kind));
            |ps| == |idx| && forall k :: 0 <= k < |idx| ==> ps[k] == Simple(doc[idx[k]].id)
    ensures var ps, idx := MultiParts(TaggedIds(doc, kind)), Positions(doc, TaggedOf(kind));
            |ps| == |idx| && forall k :: 0 <= k < |idx| ==> ps[k] == Multi(doc[idx[k]].id)
  {
    TaggedIdsInOrder(doc, kind);
  }

  /**
   * For a non-relation building, every simple part comes before every
   * multi part, and each comes from an element of its kind tagged
   * `building:part`.
   */
  lemma TaggedPartsOrder(doc: Document, id: Id, ty: BuildingType)
    requires ty != RelationType
    ensures PartsOf(doc, id, ty).Ok?
    ensures var ps := PartsOf(doc, id, ty).value;
            (forall i, j :: 0 <= i < j < |ps| && ps[i].Multi? ==> ps[j].Multi?)
            && (forall i :: 0 <= i < |ps| && ps[i].Simple? ==>
                  exists k :: 0 <= k < |doc| && IsTaggedPart(doc[k], Way) && doc[k].id == ps[i].ref)
            && (forall i :: 0 <= i < |ps| && ps[i].Multi? ==>
                  exists k :: 0 <= k < |doc| && IsTaggedPart(doc[k], Relation) && doc[k].id == ps[i].ref)
  {
    var ws, rs := TaggedIds(doc, Way), TaggedIds(doc, Relation);
    var ps := SimpleParts(ws) + MultiParts(rs);
    forall i | 0 <= i < |ps| && ps[i].Simple?
      ensures exists k :: 0 <= k < |doc| && IsTaggedPart(doc[k], Way) && doc[k].id == ps[i].ref
    {
      assert i < |ws| && ps[i].ref == ws[i] && ws[i] in ws;
    }
    forall i | 0 <= i < |ps| && ps[i].Multi?
      ensures exists k :: 0 <= k < |doc| && IsTaggedPart(doc[k], Relation) && doc[k].id == ps[i].ref
    {
      assert i >= |ws| && ps[i].ref == rs[i - |ws|] && rs[i - |ws|] in rs;
    }
  }

  /**
   * For a generic relation, the parts are one per `part` member in
   * document order, on that member's ref, simple exactly for a way; they
   * exist exactly when every `part` member resolves.
   */
  lemma RelationPartsInOrder(doc: Document, id: Id, top: Element)
    requires GetElementById(doc, id) == Some(top)
    ensures var idx := Positions(top.members, RoleIs("part"));
            PartsOf(doc, id, RelationType).Ok? <==>
              forall k :: 0 <= k < |idx| ==> GetElementById(doc, top.members[idx[k]].ref).Some?
    ensures var idx := Positions(top.members, RoleIs("part"));
            PartsOf(doc, id, RelationType).Ok? ==>
              && |PartsOf(doc, id, RelationType).value| == |idx|
              && forall k :: 0 <= k < |idx| ==>
                   && PartsOf(doc, id, RelationType).value[k].ref == top.members[idx[k]].ref
                   && (PartsOf(doc, id, RelationType).value[k].Simple? <==>
                         GetElementById(doc, top.members[idx[k]].ref).value.kind == Way)
  {
    var idx := Positions(top.members, RoleIs("part"));
    var ms := MembersWithRole(top, "part");
    assert PartsOf(doc, id, RelationType) == MemberParts(doc, ms);
    MembersWithRoleInOrder(top, "part");
    MemberPartsAt(doc, ms, top.members, idx);
  }

  /** `MemberParts` of members picked from a list by their indices, stated on the list itself. */
  lemma MemberPartsAt(doc: Document, ms: seq<Member>, all: seq<Member>, idx: seq<nat>)
    requires |ms| == |idx| && forall k :: 0 <= k < |idx| ==> idx[k] < |all| && ms[k] == all[idx[k]]
    ensures var r := MemberParts(doc, ms);
            && (r.Ok? <==> forall k :: 0 <= k < |idx| ==> GetElementById(doc, all[idx[k]].ref).Some?)
            && (r.Ok? ==> |r.value| == |idx|
                          && forall k :: 0 <= k < |idx| ==>
                               && r.value[k].ref == all[idx[k]].ref
                               && (r.value[k].Simple? <==> GetElementById(doc, all[idx[k]].ref).value.kind == Way))
  {
  }

  /** A relation with a way part and a relation part gets one simple and one multi part, in order. */
  lemma RelationPartsExample()
    ensures var top := Element(Relation, 1, 0.0, 0.0, [Tag("type", "building")],
                               [Member(2, "part"), Member(3, "part")], []);
            var doc := [top, Element(Way, 2, 0.0, 0.0, [], [], []), Element(Relation, 3, 0.0, 0.0, [], [], [])];
            PartsOf(doc, 1, RelationType) == Ok([Simple(2), Multi(3)])
  {
    var top := Element(Relation, 1, 0.0, 0.0, [Tag("type", "building")], [Member(2, "part"), Member(3, "part")], []);
    var doc := [top, Element(Way, 2, 0.0, 0.0, [], [], []), Element(Relation, 3, 0.0, 0.0, [], [], [])];
    AllMembersWithRole(top, "part");
    assert GetElementById(doc, 1) == Some(top);
    assert GetElementById(doc, 2) == Some(doc[1]);
    assert GetElementById(doc, 3) == Some(doc[2]);
    var ps := MemberParts(doc, top.members);
    assert ps.Ok? && |ps.value| == 2;
    assert ps.value[0] == Simple(2) && ps.value[1] == Multi(3);
    assert ps.value == [Simple(2), Multi(3)];
  }

  /** How many `part` members resolve before the first one that does not. */
  function ResolvedPrefix(doc: Document, ms: seq<Member>): (n: nat)
    ensures n <= |ms|
    ensures forall j :: 0 <= j < n ==> GetElementById(doc, ms[j].ref).Some?
    ensures n < |ms| ==> GetElementById(doc, ms[n].ref).None?
  {
    FirstIndex(ms, (m: Member) => GetElementById(doc, m.ref).None?)
  }

  /**
   * The parts `addParts` has pushed for these `part` members when it
   * stops: all of them, or those before the first unresolved member.
   */
  function PartsPushed(doc: Document, ms: seq<Member>): (ps: seq<Part>)
    ensures MemberParts(doc, ms).Ok? ==> ps == MemberParts(doc, ms).value
  {
    var n := ResolvedPrefix(doc, ms);
    assert forall j :: 0 <= j < n ==> ms[..n][j] == ms[j];
    assert n == |ms| ==> ms[..n] == ms;
    MemberParts(doc, ms[..n]).value
  }

  /** The parts `addParts` appends for this building, whether or not it then faults. */
  function PartsAdded(doc: Document, id: Id, ty: BuildingType): (ps: seq<Part>)
    ensures PartsOf(doc, id, ty).Ok? ==> ps == PartsOf(doc, id, ty).value
  {
    if ty == RelationType then
      match GetElementById(doc, id)
      case None => []
      case Some(top) => PartsPushed(doc, MembersWithRole(top, "part"))
    else PartsOf(doc, id, ty).value
  }

  /** Parts made one by one for the first `i` members are the parts of that prefix. */
  lemma MemberPartsOfPrefix(doc: Document, ms: seq<Member>, i: nat, pushed: seq<Part>)
    requires i <= |ms| && |pushed| == i
    requires forall j :: 0 <= j < i ==> PartFor(doc, ms[j].ref) == Ok(pushed[j])
    ensures MemberParts(doc, ms[..i]) == Ok(pushed)
  {
    var prefix := ms[..i];
    assert forall j :: 0 <= j < i ==> prefix[j] == ms[j];
    var r := MemberParts(doc, prefix);
    assert r.Ok?;
    forall j | 0 <= j < i
      ensures r.value[j] == pushed[j]
    {
      assert PartFor(doc, prefix[j].ref) == Ok(pushed[j]);
    }
    assert |r.value| == |pushed|;
    assert forall j :: 0 <= j < |pushed| ==> r.value[j] == pushed[j];
    assert r.value == pushed;
  }

  /**
   * When the `i`-th `part` member is the first that does not resolve,
   * `addParts` faults on it after pushing the parts of the members
   * before it.
   */
  lemma PartsPushedAt(doc: Document, ms: seq<Member>, i: nat)
    requires i < |ms| && MemberParts(doc, ms[..i]).Ok?
    requires GetElementById(doc, ms[i].ref).None?
    ensures MemberParts(doc, ms) == Err(MissingElement(ms[i].ref))
    ensures PartsPushed(doc, ms) == MemberParts(doc, ms[..i]).value
  {
    assert forall j :: 0 <= j < i ==> ms[..i][j] == ms[j];
    var k :| 0 <= k < |ms| && GetElementById(doc, ms[k].ref).None?
             && MemberParts(doc, ms).fault == MissingElement(ms[k].ref)
             && forall j :: 0 <= j < k ==> GetElementById(doc, ms[j].ref).Some?;
    assert k == i;
    assert ResolvedPrefix(doc, ms) == i;
  }

  /** Line 136 as written: any `part` member makes the read of `this.fullDmlData` fault. */
  function PartsOfAsWritten(doc: Document, id: Id, ty: BuildingType): (r: Result<seq<Part>>)
    ensures ty != RelationType ==> r == PartsOf(doc, id, ty)
    ensures ty == RelationType && GetElementById(doc, id).Some? ==>
              (r == Err(UndefinedName("fullDmlData")) <==> MembersWithRole(GetElementById(doc, id).value, "part") != [])
    ensures ty == RelationType && GetElementById(doc, id).Some? && r.Ok? ==> r.value == []
  {
    if ty == RelationType then
      match GetElementById(doc, id)
      case None => Err(MissingElement(id))
      case Some(top) =>
        if MembersWithRole(top, "part") == [] then Ok([]) else Err(UndefinedName("fullDmlData"))
    else PartsOf(doc, id, ty)
  }

  /** The relation of `RelationPartsExample`: as written a fault, intended two parts. */
  lemma RelationPartsAsWritten()
    ensures var top := Element(Relation, 1, 0.0, 0.0, [Tag("type", "building")],
                               [Member(2, "part"), Member(3, "part")], []);
            var doc := [top, Element(Way, 2, 0.0, 0.0, [], [], []), Element(Relation, 3, 0.0, 0.0, [], [], [])];
            PartsOfAsWritten(doc, 1, RelationType) == Err(UndefinedName("fullDmlData"))
            && PartsOf(doc, 1, RelationType) == Ok([Simple(2), Multi(3)])
  {
    var top := Element(Relation, 1, 0.0, 0.0, [Tag("type", "building")], [Member(2, "part"), Member(3, "part")], []);
    var doc := [top, Element(Way, 2, 0.0, 0.0, [], [], []), Element(Relation, 3, 0.0, 0.0, [], [], [])];
    RelationPartsExample();
    assert GetElementById(doc, 1) == Some(top);
    assert Member(2, "part") in MembersWithRole(top, "part");
  }

  // ---------------------------------------------------------------------
  // The constructor as a whole

  /** The observable fields after construction: `type`, `nodelist`, `home`, `outer_element`, `parts`. */
  datatype BuildingState = BuildingState(
    ty: BuildingType,
    nodelist: map<Id, LatLon>,
    home: Option<LatLon>,
    outer: Option<Part>,
    parts: seq<Part>)

  /**
   * The steps after a successful validation of `top`: build the node
   * table, set the home point from the extents, reposition the nodes,
   * select the outer element and add the parts.
   */
  function Loaded(id: Id, doc: Document, top: Element, ty: BuildingType, reposition: Projection): Result<BuildingState>
  {
    var table := NodeTable(doc);
    match Extents(doc, id, table)
    case Err(f) => Err(f)
    case Ok(extents) =>
      var home := CenterOf(extents);
      match OuterElement(doc, top, ty)
      case Err(f) => Err(f)
      case Ok(outer) =>
        match PartsOf(doc, id, ty)
        case Err(f) => Err(f)
        case Ok(parts) =>
          Ok(BuildingState(ty, Repositioned(table, home, reposition), Some(home), Some(outer), parts))
  }

  /** `Loaded` stops at the first step that faults, and otherwise collects what each step computed. */
  lemma LoadedSteps(id: Id, doc: Document, top: Element, ty: BuildingType, reposition: Projection)
    ensures var extents := Extents(doc, id, NodeTable(doc));
            extents.Err? ==> Loaded(id, doc, top, ty, reposition) == Err(extents.fault)
    ensures var extents := Extents(doc, id, NodeTable(doc));
            extents.Ok? && OuterElement(doc, top, ty).Err? ==>
              Loaded(id, doc, top, ty, reposition) == Err(OuterElement(doc, top, ty).fault)
    ensures var extents := Extents(doc, id, NodeTable(doc));
            extents.Ok? && OuterElement(doc, top, ty).Ok? && PartsOf(doc, id, ty).Err? ==>
              Loaded(id, doc, top, ty, reposition) == Err(PartsOf(doc, id, ty).fault)
    ensures var extents := Extents(doc, id, NodeTable(doc));
            extents.Ok? && OuterElement(doc, top, ty).Ok? && PartsOf(doc, id, ty).Ok? ==>
              var home := CenterOf(extents.value);
              Loaded(id, doc, top, ty, reposition) ==
                Ok(BuildingState(ty, Repositioned(NodeTable(doc), home, reposition), Some(home),
                                 Some(OuterElement(doc, top, ty).value), PartsOf(doc, id, ty).value))
  {
  }

  /**
   * What the steps after validation leave behind, given that the home
   * point has been set (`extents` is the successful extents) and that the
   * outer element and the parts were then selected, ending in `outcome`.
   */
  lemma LoadedFrom(id: Id, doc: Document, top: Element, ty: BuildingType, reposition: Projection,
                   outcome: Outcome, s: BuildingState)
    requires Extents(doc, id, NodeTable(doc)).Ok?
    requires s.ty == ty
    requires s.home == Some(CenterOf(Extents(doc, id, NodeTable(doc)).value))
    requires s.nodelist == Repositioned(NodeTable(doc), CenterOf(Extents(doc, id, NodeTable(doc)).value), reposition)
    requires OuterElement(doc, top, ty).Err? ==> outcome == Fail(OuterElement(doc, top, ty).fault)
    requires OuterElement(doc, top, ty).Ok? ==>
               && s.outer == Some(OuterElement(doc, top, ty).value)
               && s.parts == PartsAdded(doc, id, ty)
               && (PartsOf(doc, id, ty).Ok? ==> outcome == Pass)
               && (PartsOf(doc, id, ty).Err? ==> outcome == Fail(PartsOf(doc, id, ty).fault))
    ensures Loaded(id, doc, top, ty, reposition).Ok? ==> outcome == Pass && s == Loaded(id, doc, top, ty, reposition).value
    ensures Loaded(id, doc, top, ty, reposition).Err? ==> outcome == Fail(Loaded(id, doc, top, ty, reposition).fault)
  {
    LoadedSteps(id, doc, top, ty, reposition);
  }

  /**
   * What `new Building(id, data)` leaves behind, or the fault it stops
   * at: classify and validate the top element, then load it when valid.
   * When validation fails only the type is set.
   */
  function Constructed(id: Id, doc: Document, reposition: Projection): Result<BuildingState>
  {
    match GetElementById(doc, id)
    case None => Err(MissingElement(id))
    case Some(top) =>
      match Classify(top)
      case Err(f) => Err(f)
      case Ok(ty) =>
        match Validate(doc, top)
        case Err(f) => Err(f)
        case Ok(valid) =>
          if !valid then Ok(BuildingState(ty, map[], None, None, []))
          else Loaded(id, doc, top, ty, reposition)
  }

  /**
   * A way without a `building` tag does not fault: the building keeps its
   * type, no parts, no outer element, no home and an unbuilt node table.
   */
  lemma NotABuildingDegrades(id: Id, doc: Document, reposition: Projection)
    requires GetElementById(doc, id).Some?
    requires GetElementById(doc, id).value.kind == Way
    requires !HasTag(GetElementById(doc, id).value, "building")
    ensures Constructed(id, doc, reposition) == Ok(BuildingState(WayType, map[], None, None, []))
  {
  }

  /** A building way whose ring is open degrades the same way. */
  lemma OpenRingDegrades(id: Id, doc: Document, reposition: Projection)
    requires GetElementById(doc, id).Some?
    requires GetElementById(doc, id).value.kind == Way
    requires !IsClosed(GetElementById(doc, id).value.nds)
    ensures Constructed(id, doc, reposition) == Ok(BuildingState(WayType, map[], None, None, []))
  {
  }

  /**
   * The constructor throws at the first step that faults: a missing top
   * element, a missing `type` tag, a relation member that does not
   * resolve, then any fault of the steps after validation.
   */
  lemma ConstructedFaults(id: Id, doc: Document, reposition: Projection)
    ensures GetElementById(doc, id).None? ==> Constructed(id, doc, reposition) == Err(MissingElement(id))
    ensures GetElementById(doc, id).Some? && Classify(GetElementById(doc, id).value).Err? ==>
              Constructed(id, doc, reposition) == Err(Classify(GetElementById(doc, id).value).fault)
    ensures var top := GetElementById(doc, id);
            top.Some? && Classify(top.value).Ok? && Validate(doc, top.value).Err? ==>
              Constructed(id, doc, reposition) == Err(Validate(doc, top.value).fault)
    ensures var top := GetElementById(doc, id);
            top.Some? && Classify(top.value).Ok? && Validate(doc, top.value) == Ok(true) ==>
              Constructed(id, doc, reposition) == Loaded(id, doc, top.value, Classify(top.value).value, reposition)
  {
  }

  /**
   * A constructed building has an outer element exactly when its top
   * element validated; otherwise it holds nothing beyond its type.
   */
  lemma ConstructedOuterIffValid(id: Id, doc: Document, reposition: Projection)
    requires Constructed(id, doc, reposition).Ok?
    ensures var s := Constructed(id, doc, reposition).value;
            var top := GetElementById(doc, id).value;
            && Classify(top) == Ok(s.ty)
            && (s.outer.None? <==> Validate(doc, top) == Ok(false))
            && (s.outer.None? ==> s.parts == [] && s.home.None? && s.nodelist == map[])
            && (s.outer.Some? ==> Constructed(id, doc, reposition) == Loaded(id, doc, top, s.ty, reposition))
  {
    var top := GetElementById(doc, id).value;
    var ty := Classify(top).value;
    if Validate(doc, top) == Ok(true) {
      LoadedSteps(id, doc, top, ty, reposition);
    }
  }

  /**
   * A loaded building has a home point inside its extents, and a node
   * table with one projected entry per node id of the document.
   */
  lemma LoadedState(id: Id, doc: Document, top: Element, ty: BuildingType, reposition: Projection)
    requires Loaded(id, doc, top, ty, reposition).Ok?
    ensures var s := Loaded(id, doc, top, ty, reposition).value;
            && s.ty == ty
            && s.home.Some? && s.outer == Some(OuterElement(doc, top, ty).value)
            && Extents(doc, id, NodeTable(doc)).Ok?
            && s.home.value == CenterOf(Extents(doc, id, NodeTable(doc)).value)
            && Inside(s.home.value, Extents(doc, id, NodeTable(doc)).value)
            && (forall k :: k in s.nodelist <==> exists i :: 0 <= i < |doc| && doc[i].kind == Node && doc[i].id == k)
            && (forall k :: k in s.nodelist ==> s.nodelist[k] == reposition(NodeTable(doc)[k], s.home.value))
  {
    var table := NodeTable(doc);
    var extents := Extents(doc, id, table);
    assert extents.Ok?;
    var home := CenterOf(extents.value);
    var s := Loaded(id, doc, top, ty, reposition).value;
    assert s == BuildingState(ty, Repositioned(table, home, reposition), Some(home),
                              Some(OuterElement(doc, top, ty).value), PartsOf(doc, id, ty).value);
    NodeTableKeys(doc);
  }
}
