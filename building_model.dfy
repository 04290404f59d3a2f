/**
 * The `Building` class of building.js as an object whose fields the
 * constructor fills in step by step. Each step is a method proved against
 * the function of building_logic.dfy that specifies it; `New` is
 * `new Building(id, data)` as a whole and is proved against `Constructed`.
 */
module BuildingModel {
  import opened Outcomes
  import opened OsmDom
  import opened ShapeUtils
  import opened BuildingLogic

  class Building {
    /** `id`: the id of the top-level way or relation. */
    const id: Id
    /** `fullXmlData`: the parsed document. */
    const doc: Document
    /** `type`: unset until the constructor classifies the top element. */
    var ty: Option<BuildingType>
    /** `nodelist`: node id to coordinates, projected once the home point is known. */
    var nodelist: map<Id, LatLon>
    /** `home`: the point moved to the origin; `[]` (here `None`) until set. */
    var home: Option<LatLon>
    /** `outer_element`: the part drawn when there are no parts. */
    var outer: Option<Part>
    /** `parts`: the building parts, in the order they were added. */
    var parts: seq<Part>

    /** The field initialisers: nothing computed yet. */
    predicate Unloaded()
      reads this
    {
      ty.None? && nodelist == map[] && home.None? && outer.None? && parts == []
    }

    /** The observable fields, once `type` is set. */
    function State(): BuildingState
      reads this
      requires ty.Some?
    {
      BuildingState(ty.value, nodelist, home, outer, parts)
    }

    /** The field initialisers and the first two assignments of the constructor. */
    constructor (id: Id, doc: Document)
      ensures this.id == id && this.doc == doc
      ensures Unloaded()
    {
      this.id := id;
      this.doc := doc;
      ty := None;
      nodelist := map[];
      home := None;
      outer := None;
      parts := [];
    }

    /**
     * `new Building(id, data)`: the building in the state `Constructed`
     * describes, or the fault at which the constructor throws (and no
     * building is returned).
     */
    static method New(id: Id, doc: Document, reposition: Projection) returns (r: Result<Building>)
      ensures Constructed(id, doc, reposition).Ok? ==>
                && r.Ok? && fresh(r.value)
                && r.value.id == id && r.value.doc == doc
                && r.value.ty.Some? && r.value.State() == Constructed(id, doc, reposition).value
      ensures Constructed(id, doc, reposition).Err? ==> r == Err(Constructed(id, doc, reposition).fault)
    {
      var b := new Building(id, doc);
      var outcome := b.Load(reposition);
      if outcome.Fail? {
        return Err(outcome.fault);
      }
      return Ok(b);
    }

    /**
     * The body of the constructor after the parse: classify, validate,
     * and for a valid building build the node table, set the home point,
     * reposition the nodes, select the outer element and add the parts.
     * On a fault the fields are left part-way, but the object never
     * reaches a caller.
     */
    method Load(reposition: Projection) returns (outcome: Outcome)
      requires Unloaded()
      modifies this
      ensures Constructed(id, doc, reposition).Ok? ==>
                outcome == Pass && ty.Some? && State() == Constructed(id, doc, reposition).value
      ensures Constructed(id, doc, reposition).Err? ==> outcome == Fail(Constructed(id, doc, reposition).fault)
    {
      var found := GetElementById(doc, id);
      if found.None? {
        return Fail(MissingElement(id));
      }
      var top := found.value;
      var kind := Classify(top);
      if kind.Err? {
        return Fail(kind.fault);
      }
      ty := Some(kind.value);
      var valid := IsValidData(top);
      if valid.Err? {
        return Fail(valid.fault);
      }
      if !valid.value {
        // 'XML Not Valid': the building stays unloaded
        return Pass;
      }
      outcome := LoadValid(top, kind.value, reposition);
    }

    /**
     * The constructor once `top` has validated: build the node table, set
     * the home point, reposition the nodes, select the outer element and
     * add the parts.
     */
    method LoadValid(top: Element, kind: BuildingType, reposition: Projection) returns (outcome: Outcome)
      requires ty == Some(kind) && nodelist == map[] && home.None? && outer.None? && parts == []
      modifies this
      ensures Loaded(id, doc, top, kind, reposition).Ok? ==>
                outcome == Pass && ty.Some? && State() == Loaded(id, doc, top, kind, reposition).value
      ensures Loaded(id, doc, top, kind, reposition).Err? ==> outcome == Fail(Loaded(id, doc, top, kind, reposition).fault)
    {
      outcome := PlaceHome(reposition);
      if outcome.Fail? {
        LoadedSteps(id, doc, top, kind, reposition);
        return;
      }
      outcome := SelectParts(top, kind);
      LoadedFrom(id, doc, top, kind, reposition, outcome, State());
    }

    /** `buildNodeList`, `setHome` and `repositionNodes` in turn. */
    method PlaceHome(reposition: Projection) returns (outcome: Outcome)
      modifies this`nodelist, this`home
      ensures var extents := BuildingLogic.Extents(doc, id, NodeTable(doc));
              extents.Err? ==> outcome == Fail(extents.fault)
      ensures var extents := BuildingLogic.Extents(doc, id, NodeTable(doc));
              extents.Ok? ==>
                && outcome == Pass
                && home == Some(CenterOf(extents.value))
                && nodelist == Repositioned(NodeTable(doc), CenterOf(extents.value), reposition)
    {
      nodelist := BuildNodeList(doc);
      outcome := SetHome();
      if outcome.Fail? {
        return;
      }
      RepositionNodes(reposition);
    }

    /** The outer element, then `addParts`. */
    method SelectParts(top: Element, kind: BuildingType) returns (outcome: Outcome)
      requires ty == Some(kind)
      modifies this`outer, this`parts
      ensures OuterElement(doc, top, kind).Err? ==> outcome == Fail(OuterElement(doc, top, kind).fault)
      ensures OuterElement(doc, top, kind).Ok? ==>
                && outer == Some(OuterElement(doc, top, kind).value)
                && parts == old(parts) + PartsAdded(doc, id, kind)
                && (PartsOf(doc, id, kind).Ok? ==> outcome == Pass)
                && (PartsOf(doc, id, kind).Err? ==> outcome == Fail(PartsOf(doc, id, kind).fault))
    {
      var outerPart := OuterElement(doc, top, kind);
      if outerPart.Err? {
        return Fail(outerPart.fault);
      }
      outer := Some(outerPart.value);
      outcome := AddParts();
    }

    /**
     * `isValidData`: collects the candidate rings (every member of a
     * relation, or the element itself when it has a `building` tag) and
     * checks that each one is found and closed.
     */
    method IsValidData(xml: Element) returns (r: Result<bool>)
      ensures r == Validate(doc, xml)
    {
      var ways: seq<Candidate> := [];
      if xml.kind == Relation {
        var i := 0;
        while i < |xml.members|
          invariant 0 <= i <= |xml.members|
          invariant ways == Candidates(doc, xml)[..i]
        {
          var ref := xml.members[i].ref;
          ways := ways + [Candidate(ref, GetElementById(doc, ref))];
          i := i + 1;
        }
      } else {
        if !HasTag(xml, "building") {
          // 'Outer way is not a building'
          return Ok(false);
        }
        ways := [Candidate(xml.id, Some(xml))];
      }
      assert ways == Candidates(doc, xml);
      r := CheckCandidates(ways);
    }

    /** The checking loop of `isValidData`: the first missing or open ring decides. */
    static method CheckCandidates(ways: seq<Candidate>) returns (r: Result<bool>)
      ensures r == CheckRings(ways)
    {
      var i := 0;
      while i < |ways|
        invariant 0 <= i <= |ways|
        invariant CheckRings(ways) == CheckRings(ways[i..])
      {
        assert ways[i..][1..] == ways[i + 1..];
        match ways[i].found
        case None =>
          return Err(MissingElement(ways[i].ref));
        case Some(way) =>
          if !IsClosed(way.nds) {
            // 'not a closed way'
            return Ok(false);
          }
        i := i + 1;
      }
      return Ok(true);
    }

    /** `buildNodeList`: one pass over the node elements, later ids overwriting earlier ones. */
    static method BuildNodeList(doc: Document) returns (nodeList: map<Id, LatLon>)
      ensures nodeList == NodeTable(doc)
    {
      nodeList := map[];
      var j := 0;
      while j < |doc|
        invariant 0 <= j <= |doc|
        invariant nodeList == NodeTable(doc[..j])
      {
        var node := doc[j];
        if node.kind == Node {
          nodeList := nodeList[node.id := LatLon(node.lat, node.lon)];
        }
        assert doc[..j + 1][..j] == doc[..j];
        j := j + 1;
      }
      assert doc[..j] == doc;
    }

    /** `setHome`: the centre of the extents, latitude first. */
    method SetHome() returns (outcome: Outcome)
      modifies this`home
      ensures BuildingLogic.Extents(doc, id, nodelist).Ok? ==>
                outcome == Pass && home == Some(CenterOf(BuildingLogic.Extents(doc, id, nodelist).value))
      ensures BuildingLogic.Extents(doc, id, nodelist).Err? ==>
                outcome == Fail(BuildingLogic.Extents(doc, id, nodelist).fault) && home == old(home)
    {
      var extents := GetExtents(id, doc, nodelist);
      if extents.Err? {
        return Fail(extents.fault);
      }
      var b := extents.value;
      home := Some(CenterOf(b));
      return Pass;
    }

    /** `repositionNodes`: every entry projected about `home`, once, in place. */
    method RepositionNodes(reposition: Projection)
      requires home.Some?
      modifies this`nodelist
      ensures nodelist == Repositioned(old(nodelist), home.value, reposition)
    {
      ghost var before := nodelist;
      var remaining := nodelist.Keys;
      while exists k :: k in remaining
        invariant forall k :: k in remaining ==> k in before
        invariant forall k :: k in nodelist <==> k in before
        invariant forall k :: k in before && k !in remaining ==> nodelist[k] == reposition(before[k], home.value)
        invariant forall k :: k in remaining ==> nodelist[k] == before[k]
        decreases |remaining|
      {
        var key :| key in remaining;
        nodelist := nodelist[key := reposition(nodelist[key], home.value)];
        remaining := remaining - {key};
      }
      ghost var expected := Repositioned(before, home.value, reposition);
      assert forall k :: k in nodelist <==> k in expected;
      assert forall k :: k in nodelist ==> nodelist[k] == expected[k];
    }

    /**
     * `render`: draws every part in order when there are any, otherwise
     * the outer element; returns what was drawn.
     */
    method Render() returns (drawn: Result<seq<Part>>)
      ensures parts != [] ==> drawn == Ok(parts)
      ensures parts == [] && outer.Some? ==> drawn == Ok([outer.value])
      ensures parts == [] && outer.None? ==> drawn == Err(NoOuterElement)
    {
      if |parts| > 0 {
        var rendered: seq<Part> := [];
        var i := 0;
        while i < |parts|
          invariant 0 <= i <= |parts|
          invariant rendered == parts[..i]
        {
          rendered := rendered + [parts[i]];
          i := i + 1;
        }
        assert parts[..i] == parts;
        return Ok(rendered);
      } else if outer.None? {
        return Err(NoOuterElement);
      } else {
        return Ok([outer.value]);
      }
    }

    /**
     * `addParts`: appends the parts. If a `part` member of a relation does
     * not resolve, the parts before it have already been appended.
     */
    method AddParts() returns (outcome: Outcome)
      requires ty.Some?
      modifies this`parts
      ensures parts == old(parts) + PartsAdded(doc, id, ty.value)
      ensures PartsOf(doc, id, ty.value).Ok? ==> outcome == Pass
      ensures PartsOf(doc, id, ty.value).Err? ==> outcome == Fail(PartsOf(doc, id, ty.value).fault)
    {
      if ty.value == RelationType {
        var found := GetElementById(doc, id);
        if found.None? {
          return Fail(MissingElement(id));
        }
        outcome := AddMemberParts(MembersWithRole(found.value, "part"));
        RelationPartsStep(doc, id, found.value);
      } else {
        AddTaggedParts();
        outcome := Pass;
        TaggedPartsStep(doc, id, ty.value);
      }
    }

    /** The relation branch of `addParts`: one part per `part` member, in order. */
    method AddMemberParts(members: seq<Member>) returns (outcome: Outcome)
      modifies this`parts
      ensures parts == old(parts) + PartsPushed(doc, members)
      ensures MemberParts(doc, members).Ok? ==> outcome == Pass
      ensures MemberParts(doc, members).Err? ==> outcome == Fail(MemberParts(doc, members).fault)
    {
      var i := 0;
      ghost var pushed: seq<Part> := [];
      while i < |members|
        invariant 0 <= i <= |members| && |pushed| == i
        invariant forall j :: 0 <= j < i ==> PartFor(doc, members[j].ref) == Ok(pushed[j])
        invariant parts == old(parts) + pushed
      {
        var ref := members[i].ref;
        var part := GetElementById(doc, ref);
        if part.None? {
          assert MemberParts(doc, members) == Err(MissingElement(ref)) && PartsPushed(doc, members) == pushed by {
            MemberPartsOfPrefix(doc, members, i, pushed);
            PartsPushedAt(doc, members, i);
          }
          return Fail(MissingElement(ref));
        }
        var added := if part.value.kind == Way then Simple(ref) else Multi(ref);
        parts := parts + [added];
        pushed := pushed + [added];
        i := i + 1;
      }
      assert MemberParts(doc, members) == Ok(pushed) by {
        MemberPartsOfPrefix(doc, members, i, pushed);
        assert members[..i] == members;
      }
      return Pass;
    }

    /**
     * The other branch of `addParts`: every way tagged `building:part` as
     * a simple part, then every relation so tagged as a multi part.
     */
    method AddTaggedParts()
      modifies this`parts
      ensures parts == old(parts) + SimpleParts(TaggedIds(doc, Way)) + MultiParts(TaggedIds(doc, Relation))
    {
      var j := 0;
      while j < |doc|
        invariant 0 <= j <= |doc|
        invariant parts == old(parts) + SimpleParts(TaggedIds(doc[..j], Way))
      {
        TaggedStep(doc, j, Way);
        if IsTaggedPart(doc[j], Way) {
          parts := parts + [Simple(doc[j].id)];
        }
        j := j + 1;
      }
      assert doc[..j] == doc;
      ghost var simple := parts;
      j := 0;
      while j < |doc|
        invariant 0 <= j <= |doc|
        invariant parts == simple + MultiParts(TaggedIds(doc[..j], Relation))
      {
        TaggedStep(doc, j, Relation);
        if IsTaggedPart(doc[j], Relation) {
          parts := parts + [Multi(doc[j].id)];
        }
        j := j + 1;
      }
      assert doc[..j] == doc;
    }

    /**
     * `getExtents`: the extents of a way's ring, the running merge of a
     * multipolygon's outer members, or the extents of a relation's
     * outline member.
     */
    static method GetExtents(id: Id, doc: Document, nodelist: map<Id, LatLon>) returns (r: Result<Box>)
      ensures r == BuildingLogic.Extents(doc, id, nodelist)
    {
      var found := GetElementById(doc, id);
      if found.None? {
        return Err(MissingElement(id));
      }
      var element := found.value;
      if element.kind == Way {
        r := ShapeUtils.RingExtents(element.nds, nodelist);
        return;
      }
      var relationType := TagValue(element, "type");
      if relationType.None? {
        return Err(MissingTypeTag(element.id));
      }
      if relationType.value == "multipolygon" {
        r := MergeOuterExtents(doc, element, nodelist);
        return;
      }
      var outline := FirstMemberWithRole(element, "outline");
      if outline.None? {
        return Err(MissingOutline(element.id));
      }
      r := WayExtents(doc, outline.value.ref, nodelist);
    }

    /** The extents of the way `ref`: look it up, then take the extents of its ring. */
    static method WayExtents(doc: Document, ref: Id, nodelist: map<Id, LatLon>) returns (r: Result<Box>)
      ensures r == MemberBox(doc, ref, nodelist)
    {
      var way := GetElementById(doc, ref);
      if way.None? {
        return Err(MissingElement(ref));
      }
      r := ShapeUtils.RingExtents(way.value.nds, nodelist);
    }

    /**
     * The multipolygon branch of `getExtents`: the running merge of the
     * outer members' extents, which stay unset when there is no outer member.
     */
    static method MergeOuterExtents(doc: Document, element: Element, nodelist: map<Id, LatLon>) returns (r: Result<Box>)
      ensures r == MultipolygonExtents(doc, element, nodelist)
    {
      var outers := MembersWithRole(element, "outer");
      var merged, boxes := MergeBoxes(doc, outers, nodelist);
      if merged.Err? {
        FirstFaultingOuter(doc, outers, nodelist, boxes);
        return Err(merged.fault);
      }
      MergedAll(doc, outers, nodelist, boxes, merged.value);
      if merged.value.None? {
        return Err(NoOuterMember(element.id));
      }
      return Ok(merged.value.value);
    }

    /**
     * The loop over the outer members: the first takes its extents as they
     * are, each later one widens them coordinate-wise. On a fault, `boxes`
     * holds the boxes of the members before the faulting one.
     */
    static method MergeBoxes(doc: Document, outers: seq<Member>, nodelist: map<Id, LatLon>)
      returns (r: Result<Option<Box>>, ghost boxes: seq<Box>)
      ensures r.Ok? ==> |boxes| == |outers| && MergedSoFar(doc, outers, nodelist, boxes, r.value)
      ensures r.Err? ==> |boxes| < |outers| && MemberBox(doc, outers[|boxes|].ref, nodelist) == Err(r.fault)
      ensures r.Err? ==> forall j :: 0 <= j < |boxes| ==> MemberBox(doc, outers[j].ref, nodelist) == Ok(boxes[j])
    {
      var extents: Option<Box> := None;
      boxes := [];
      var i := 0;
      while i < |outers|
        invariant i <= |outers|
        invariant MergedSoFar(doc, outers, nodelist, boxes, extents)
        invariant |boxes| == i
      {
        var wayExtents := WayExtents(doc, outers[i].ref, nodelist);
        if wayExtents.Err? {
          return Err(wayExtents.fault), boxes;
        }
        var w := wayExtents.value;
        MergeStep(doc, outers, nodelist, boxes, extents, w);
        if i == 0 {
          extents := Some(w);
        } else {
          var e := extents.value;
          extents := Some(Box(Min2(e.left, w.left), Min2(e.bottom, w.bottom), Max2(e.right, w.right), Max2(e.top, w.top)));
        }
        boxes := boxes + [w];
        i := i + 1;
      }
      return Ok(extents), boxes;
    }
  }

  /** One more element of the document adds at most one tagged part, at the end. */
  lemma TaggedStep(doc: Document, j: nat, kind: Kind)
    requires j < |doc|
    ensures SimpleParts(TaggedIds(doc[..j + 1], kind))
            == SimpleParts(TaggedIds(doc[..j], kind)) + (if IsTaggedPart(doc[j], kind) then [Simple(doc[j].id)] else [])
    ensures MultiParts(TaggedIds(doc[..j + 1], kind))
            == MultiParts(TaggedIds(doc[..j], kind)) + (if IsTaggedPart(doc[j], kind) then [Multi(doc[j].id)] else [])
  {
    assert doc[..j + 1][..j] == doc[..j];
    var ids := TaggedIds(doc[..j], kind);
    var ids' := ids + (if IsTaggedPart(doc[j], kind) then [doc[j].id] else []);
    assert TaggedIds(doc[..j + 1], kind) == ids';
    assert SimpleParts(ids') == SimpleParts(ids) + (if IsTaggedPart(doc[j], kind) then [Simple(doc[j].id)] else []);
    assert MultiParts(ids') == MultiParts(ids) + (if IsTaggedPart(doc[j], kind) then [Multi(doc[j].id)] else []);
  }

  /** For a relation found in the document, its parts are those of its `part` members. */
  lemma RelationPartsStep(doc: Document, id: Id, top: Element)
    requires GetElementById(doc, id) == Some(top)
    ensures PartsOf(doc, id, RelationType) == MemberParts(doc, MembersWithRole(top, "part"))
    ensures PartsAdded(doc, id, RelationType) == PartsPushed(doc, MembersWithRole(top, "part"))
  {
  }

  /** For any other type, the parts are the tagged ways, then the tagged relations. */
  lemma TaggedPartsStep(doc: Document, id: Id, ty: BuildingType)
    requires ty != RelationType
    ensures PartsOf(doc, id, ty) == Ok(SimpleParts(TaggedIds(doc, Way)) + MultiParts(TaggedIds(doc, Relation)))
    ensures PartsAdded(doc, id, ty) == SimpleParts(TaggedIds(doc, Way)) + MultiParts(TaggedIds(doc, Relation))
  {
  }

  /**
   * The state of the merge loop after the first `|boxes|` outer members:
   * their boxes, and the running extents, unset before the first.
   */
  ghost predicate MergedSoFar(doc: Document, outers: seq<Member>, t: map<Id, LatLon>, boxes: seq<Box>, extents: Option<Box>)
  {
    && |boxes| <= |outers|
    && (forall j :: 0 <= j < |boxes| ==> MemberBox(doc, outers[j].ref, t) == Ok(boxes[j]))
    && (extents.None? <==> boxes == [])
    && (boxes != [] ==> extents.value == MergeAll(boxes))
  }

  /** One step of the merge loop keeps `MergedSoFar`. */
  lemma MergeStep(doc: Document, outers: seq<Member>, t: map<Id, LatLon>, boxes: seq<Box>, extents: Option<Box>, w: Box)
    requires MergedSoFar(doc, outers, t, boxes, extents) && |boxes| < |outers|
    requires MemberBox(doc, outers[|boxes|].ref, t) == Ok(w)
    ensures MergedSoFar(doc, outers, t, boxes + [w], Some(if extents.None? then w else Merge(extents.value, w)))
  {
    assert forall j :: 0 <= j < |boxes| ==> MemberBox(doc, outers[j].ref, t) == Ok(boxes[j]);
    var boxes' := boxes + [w];
    forall j | 0 <= j < |boxes'|
      ensures MemberBox(doc, outers[j].ref, t) == Ok(boxes'[j])
    {
      if j < |boxes| {
        assert boxes'[j] == boxes[j];
        assert MemberBox(doc, outers[j].ref, t) == Ok(boxes[j]);
      } else {
        assert j == |boxes| && boxes'[j] == w;
      }
    }
    RunningMerge(boxes, extents, w);
  }

  /** The running extents after one more box are the merge of all boxes so far. */
  lemma RunningMerge(boxes: seq<Box>, extents: Option<Box>, w: Box)
    requires extents.None? <==> boxes == []
    requires boxes != [] ==> extents.value == MergeAll(boxes)
    ensures (if extents.None? then w else Merge(extents.value, w)) == MergeAll(boxes + [w])
  {
    if extents.None? {
      assert boxes + [w] == [w];
      MergeAllSingle(w);
    } else {
      MergeAllSnoc(boxes, w);
    }
  }

  /** Once every outer member is merged, the running extents are the multipolygon's extents. */
  lemma MergedAll(doc: Document, outers: seq<Member>, t: map<Id, LatLon>, boxes: seq<Box>, extents: Option<Box>)
    requires MergedSoFar(doc, outers, t, boxes, extents) && |boxes| == |outers|
    ensures OuterBoxes(doc, outers, t) == Ok(boxes)
    ensures forall element: Element :: MembersWithRole(element, "outer") == outers ==>
              MultipolygonExtents(doc, element, t)
              == if extents.None? then Err(NoOuterMember(element.id)) else Ok(extents.value)
  {
    AllOuterBoxes(doc, outers, t, boxes, extents);
    forall element: Element | MembersWithRole(element, "outer") == outers
      ensures MultipolygonExtents(doc, element, t)
              == if extents.None? then Err(NoOuterMember(element.id)) else Ok(extents.value)
    {
    }
  }

  /** Once every outer member is merged, the boxes so far are the list of all their boxes. */
  lemma AllOuterBoxes(doc: Document, outers: seq<Member>, t: map<Id, LatLon>, boxes: seq<Box>, extents: Option<Box>)
    requires MergedSoFar(doc, outers, t, boxes, extents) && |boxes| == |outers|
    ensures OuterBoxes(doc, outers, t) == Ok(boxes)
  {
    var f := BoxOf(doc, t);
    assert forall j :: 0 <= j < |outers| ==> f(outers[j]) == Ok(boxes[j]);
    TraverseAllOk(outers, f, boxes);
  }

  /** The first outer member whose extents fault decides the fault of the list of their boxes. */
  lemma FirstFaultingBox(doc: Document, outers: seq<Member>, t: map<Id, LatLon>, boxes: seq<Box>)
    requires |boxes| < |outers| && MemberBox(doc, outers[|boxes|].ref, t).Err?
    requires forall j :: 0 <= j < |boxes| ==> MemberBox(doc, outers[j].ref, t) == Ok(boxes[j])
    ensures OuterBoxes(doc, outers, t) == Err(MemberBox(doc, outers[|boxes|].ref, t).fault)
  {
    var f := BoxOf(doc, t);
    assert forall j :: 0 <= j < |boxes| ==> f(outers[j]).Ok?;
    TraverseFirstErr(outers, f, |boxes|);
  }

  /** The first outer member whose extents fault decides the fault of the whole merge. */
  lemma FirstFaultingOuter(doc: Document, outers: seq<Member>, t: map<Id, LatLon>, boxes: seq<Box>)
    requires |boxes| < |outers| && MemberBox(doc, outers[|boxes|].ref, t).Err?
    requires forall j :: 0 <= j < |boxes| ==> MemberBox(doc, outers[j].ref, t) == Ok(boxes[j])
    ensures forall element: Element :: MembersWithRole(element, "outer") == outers ==>
              MultipolygonExtents(doc, element, t) == Err(MemberBox(doc, outers[|boxes|].ref, t).fault)
  {
    FirstFaultingBox(doc, outers, t, boxes);
    forall element: Element | MembersWithRole(element, "outer") == outers
      ensures MultipolygonExtents(doc, element, t) == Err(MemberBox(doc, outers[|boxes|].ref, t).fault)
    {
      assert OuterBoxes(doc, MembersWithRole(element, "outer"), t).Err?;
    }
  }
}
