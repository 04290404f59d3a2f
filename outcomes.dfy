/**
 * Failure-carrying values shared by the whole model, and four small
 * sequence helpers (first match, matching indices, order-preserving
 * filter, and a traversal that stops at the first failure) that the DOM
 * queries and the loops of the building code are specified with.
 */
module Outcomes {

  datatype Option<+T> = None | Some(value: T)

  /**
   * The ways the modelled code can go wrong, reported as values. In the
   * JavaScript most are thrown `TypeError`s (a property read on `null` or
   * `undefined`); `UndefinedName` is a thrown `ReferenceError` or a
   * `TypeError` on an undefined field; `NoPoints` throws nothing, the
   * JavaScript computing with +-Infinity instead.
   */
  datatype Fault =
    /** `getElementById(ref)` found nothing and its result was dereferenced */
    | MissingElement(ref: int)
    /** `querySelector('[k="type"]')` found no tag on element `ref` */
    | MissingTypeTag(ref: int)
    /** `querySelector('member[role="outline"]')` found no member on element `ref` */
    | MissingOutline(ref: int)
    /** `nodelist[ref]` is undefined and `node[0]` was read from it */
    | MissingNode(ref: int)
    /** `Math.min`/`Math.max` over no coordinates (the JavaScript yields +-Infinity) */
    | NoPoints
    /** a multipolygon `ref` without `outer` members leaves its extents undefined */
    | NoOuterMember(ref: int)
    /** `render` called while `outer_element` is unset */
    | NoOuterElement
    /** a name the code as written reads but never defines */
    | UndefinedName(name: string)

  datatype Result<+T> = Ok(value: T) | Err(fault: Fault)

  datatype Outcome = Pass | Fail(fault: Fault)

  /** Index of the first element satisfying `p`, or `|s|` when there is none. */
  function FirstIndex<T>(s: seq<T>, p: T -> bool): (i: nat)
    ensures i <= |s|
    ensures i < |s| ==> p(s[i])
    ensures forall j :: 0 <= j < i ==> !p(s[j])
  {
    if s == [] then 0
    else if p(s[0]) then 0
    else 1 + FirstIndex(s[1..], p)
  }

  /**
   * The indices of the elements of `s` satisfying `p`: every such index
   * once, in increasing order.
   */
  function Positions<T>(s: seq<T>, p: T -> bool): (idx: seq<nat>)
    ensures forall k :: 0 <= k < |idx| ==> idx[k] < |s| && p(s[idx[k]])
    ensures forall k, l :: 0 <= k < l < |idx| ==> idx[k] < idx[l]
  {
    if s == [] then []
    else
      var front := s[..|s| - 1];
      assert forall i :: 0 <= i < |front| ==> front[i] == s[i];
      Positions(front, p) + (if p(s[|s| - 1]) then [|s| - 1] else [])
  }

  /** `Positions` misses no index: every element satisfying `p` has its index listed. */
  lemma {:induction false} PositionsComplete<T>(s: seq<T>, p: T -> bool)
    ensures forall i :: 0 <= i < |s| && p(s[i]) ==> i in Positions(s, p)
  {
    if s != [] {
      var front := s[..|s| - 1];
      PositionsComplete(front, p);
      assert forall i :: 0 <= i < |front| ==> front[i] == s[i];
    }
  }

  /**
   * The elements of `s` satisfying `p`, in their original order: the
   * `k`-th result is the element at the `k`-th such index.
   */
  function Filter<T(!new)>(s: seq<T>, p: T -> bool): (r: seq<T>)
    ensures forall x :: x in r <==> x in s && p(x)
  {
    if s == [] then []
    else Filter(s[..|s| - 1], p) + (if p(s[|s| - 1]) then [s[|s| - 1]] else [])
  }

  /** The `k`-th element `Filter` keeps is the element at the `k`-th index `Positions` lists. */
  lemma {:induction false} FilterAtPositions<T(!new)>(s: seq<T>, p: T -> bool)
    ensures |Filter(s, p)| == |Positions(s, p)|
    ensures forall k :: 0 <= k < |Filter(s, p)| ==> Filter(s, p)[k] == s[Positions(s, p)[k]]
  {
    if s != [] {
      var front, last := s[..|s| - 1], s[|s| - 1];
      FilterAtPositions(front, p);
      var r, idx := Filter(front, p), Positions(front, p);
      assert Filter(s, p) == r + (if p(last) then [last] else []);
      assert Positions(s, p) == idx + (if p(last) then [|s| - 1] else []);
      forall k | 0 <= k < |r|
        ensures r[k] == s[idx[k]]
      {
        assert front[idx[k]] == s[idx[k]];
      }
    }
  }

  /** When `f` succeeds on every element, the traversal yields exactly those values. */
  lemma TraverseAllOk<A, B>(s: seq<A>, f: A -> Result<B>, vs: seq<B>)
    requires |vs| == |s| && forall i :: 0 <= i < |s| ==> f(s[i]) == Ok(vs[i])
    ensures Traverse(s, f) == Ok(vs)
  {
    var r := Traverse(s, f);
    assert r.Ok? && |r.value| == |vs|;
    assert forall i :: 0 <= i < |s| ==> r.value[i] == vs[i];
    assert r.value == vs;
  }

  /** When `f` first fails at index `i`, the traversal fails with that fault. */
  lemma TraverseFirstErr<A, B>(s: seq<A>, f: A -> Result<B>, i: nat)
    requires i < |s| && f(s[i]).Err? && forall j :: 0 <= j < i ==> f(s[j]).Ok?
    ensures Traverse(s, f) == Err(f(s[i]).fault)
  {
    var k :| 0 <= k < |s| && f(s[k]).Err? && Traverse(s, f).fault == f(s[k]).fault
             && forall j :: 0 <= j < k ==> f(s[j]).Ok?;
    assert k == i;
  }

  /** A non-empty sequence is its front followed by its last element. */
  lemma SplitLast<T>(s: seq<T>)
    requires s != []
    ensures s[..|s| - 1] + [s[|s| - 1]] == s
  {
  }

  /** Filtering a sequence all of whose elements pass leaves it unchanged. */
  lemma {:induction false} FilterAll<T(!new)>(s: seq<T>, p: T -> bool)
    requires forall i :: 0 <= i < |s| ==> p(s[i])
    ensures Filter(s, p) == s
  {
    if s != [] {
      var front, last := s[..|s| - 1], s[|s| - 1];
      forall i | 0 <= i < |front|
        ensures p(front[i])
      {
        assert front[i] == s[i];
      }
      FilterAll(front, p);
      assert p(last) && Filter(s, p) == Filter(front, p) + [last];
      SplitLast(s);
    }
  }

  /**
   * Applies `f` to every element in order; the first failure is the result,
   * otherwise the sequence of all values.
   */
  function Traverse<A, B>(s: seq<A>, f: A -> Result<B>): (r: Result<seq<B>>)
    ensures r.Ok? <==> forall i :: 0 <= i < |s| ==> f(s[i]).Ok?
    ensures r.Ok? ==> |r.value| == |s| && forall i :: 0 <= i < |s| ==> r.value[i] == f(s[i]).value
    ensures r.Err? ==> exists i :: 0 <= i < |s| && f(s[i]).Err? && r.fault == f(s[i]).fault
                                   && forall j :: 0 <= j < i ==> f(s[j]).Ok?
  {
    if s == [] then Ok([])
    else
      match Traverse(s[..|s| - 1], f)
      case Err(e) => Err(e)
      case Ok(prefix) =>
        match f(s[|s| - 1])
        case Err(e) => Err(e)
        case Ok(b) => Ok(prefix + [b])
  }
}
