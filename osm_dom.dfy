/**
 * An abstract, already-parsed OpenStreetMap XML document: the flat list of
 * `node`, `way` and `relation` elements under `<osm>`, each with its `tag`
 * children (`k`/`v`), `member` children (`ref`/`role`) and `nd` children
 * (`ref`). The queries are the few DOM calls the building code makes.
 */
module OsmDom {
  import opened Outcomes

  /** An OSM identifier. The XML carries it as a decimal string. */
  type Id = int

  /** The element's tag name; OSM data writes these in lower case. */
  datatype Kind = Node | Way | Relation

  datatype Tag = Tag(k: string, v: string)

  datatype Member = Member(ref: Id, role: string)

  /**
   * One element. `lat` and `lon` are the attributes a `node` carries;
   * other elements ignore them. `nds` are the `ref`s of the `nd`
   * children, in document order.
   */
  datatype Element = Element(
    kind: Kind,
    id: Id,
    lat: real,
    lon: real,
    tags: seq<Tag>,
    members: seq<Member>,
    nds: seq<Id>)

  /** The document's elements in document order. */
  type Document = seq<Element>

  /** `getElementById`: the first element in document order with this `id`. */
  function GetElementById(doc: Document, id: Id): (r: Option<Element>)
    ensures r.None? <==> forall j :: 0 <= j < |doc| ==> doc[j].id != id
    ensures r.Some? ==> r.value in doc && r.value.id == id
  {
    var i := FirstIndex(doc, (e: Element) => e.id == id);
    if i < |doc| then Some(doc[i]) else None
  }

  /** Of several elements sharing an id, `getElementById` finds the earliest. */
  lemma GetElementByIdFirst(doc: Document, id: Id, j: nat)
    requires j < |doc| && doc[j].id == id
    requires forall k :: 0 <= k < j ==> doc[k].id != id
    ensures GetElementById(doc, id) == Some(doc[j])
  {
    var i := FirstIndex(doc, (e: Element) => e.id == id);
    assert i == j;
  }

  /** `querySelector('[k="…"]').getAttribute('v')`: the value of the first tag with key `k`. */
  function TagValue(e: Element, k: string): (r: Option<string>)
    ensures r.None? <==> forall j :: 0 <= j < |e.tags| ==> e.tags[j].k != k
    ensures r.Some? ==> exists j :: 0 <= j < |e.tags| && e.tags[j] == Tag(k, r.value)
                                    && forall j' :: 0 <= j' < j ==> e.tags[j'].k != k
  {
    var i := FirstIndex(e.tags, (t: Tag) => t.k == k);
    if i < |e.tags| then Some(e.tags[i].v) else None
  }

  /** `querySelector('[k="…"]')` is truthy: some tag has key `k`. */
  predicate HasTag(e: Element, k: string)
  {
    TagValue(e, k).Some?
  }

  /** `querySelector('member[role="…"]')`: the first member with this role. */
  function FirstMemberWithRole(e: Element, role: string): (r: Option<Member>)
    ensures r.None? <==> forall j :: 0 <= j < |e.members| ==> e.members[j].role != role
    ensures r.Some? ==> r.value.role == role
                        && exists j :: 0 <= j < |e.members| && e.members[j] == r.value
                                       && forall j' :: 0 <= j' < j ==> e.members[j'].role != role
  {
    var i := FirstIndex(e.members, (m: Member) => m.role == role);
    if i < |e.members| then Some(e.members[i]) else None
  }

  /** The selector `member[role="…"]` as a test on one member. */
  function RoleIs(role: string): Member -> bool
  {
    (m: Member) => m.role == role
  }

  /**
   * `querySelectorAll('member[role="…"]')`: one entry per member with this
   * role, in document order.
   */
  function MembersWithRole(e: Element, role: string): (r: seq<Member>)
    ensures forall m :: m in r <==> m in e.members && m.role == role
  {
    Filter(e.members, RoleIs(role))
  }

  /** The `k`-th selected member is the `k`-th member with the role, in document order. */
  lemma MembersWithRoleInOrder(e: Element, role: string)
    ensures var r, idx := MembersWithRole(e, role), Positions(e.members, RoleIs(role));
            |r| == |idx| && forall k :: 0 <= k < |idx| ==> r[k] == e.members[idx[k]]
  {
    FilterAtPositions(e.members, RoleIs(role));
  }

  /** When every member has the role, all of them are selected, in order. */
  lemma AllMembersWithRole(e: Element, role: string)
    requires forall i :: 0 <= i < |e.members| ==> e.members[i].role == role
    ensures MembersWithRole(e, role) == e.members
  {
    FilterAll(e.members, RoleIs(role));
  }
}
