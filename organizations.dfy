/** `users.models`: organisations form a parent chain; deleting one cascades to
    its child organisations and detaches its members. */
module Organizations {
  import opened Outcomes

  /** An organisation together with its chain of parents. */
  datatype Org = Org(name: string, parent: Option<Org>)

  /** `Organization.__str__`: the name, followed by " - " and the parent's
      rendering when there is a parent. */
  function Str(o: Org): (r: string)
    ensures |r| >= |o.name| && r[..|o.name|] == o.name
    ensures o.parent.None? ==> r == o.name
  {
    match o.parent
    case None => o.name
    case Some(p) => o.name + " - " + Str(p)
  }

  /** The names from the organisation up to the root of its chain. */
  function Chain(o: Org): (names: seq<string>)
    ensures |names| >= 1 && names[0] == o.name
  {
    match o.parent
    case None => [o.name]
    case Some(p) => [o.name] + Chain(p)
  }

  /** `sep.join(parts)` */
  function Join(parts: seq<string>, sep: string): string {
    if parts == [] then ""
    else if |parts| == 1 then parts[0]
    else parts[0] + sep + Join(parts[1..], sep)
  }

  /** The rendering is the chain of names, joined with " - ", own name first. */
  lemma {:induction false} StrIsJoinedChain(o: Org)
    ensures Str(o) == Join(Chain(o), " - ")
  {
    match o.parent
    case None =>
    case Some(p) =>
      StrIsJoinedChain(p);
      assert Chain(o)[1..] == Chain(p);
  }

  /** The rendering of a child extends its own name by the parent's rendering. */
  lemma ParentRenderingIsSuffix(o: Org)
    requires o.parent.Some?
    ensures Str(o)[|o.name| + 3..] == Str(o.parent.value)
  {
  }

  /** The organisations whose `parent` points at an organisation of `ds` are in `ds`. */
  ghost predicate ClosedUnderChildren(parentOf: map<int, Option<int>>, ds: set<int>) {
    forall x :: x in parentOf && parentOf[x].Some? && parentOf[x].value in ds ==> x in ds
  }

  /** `order` lists `root` first and then organisations whose parent was listed
      before them: each one is a descendant of `root`. */
  ghost predicate DescendsFrom(parentOf: map<int, Option<int>>, order: seq<int>, root: int) {
    |order| >= 1 && order[0] == root
    && (forall k :: 0 < k < |order| ==>
          order[k] in parentOf && parentOf[order[k]].Some?
          && parentOf[order[k]].value in order[..k])
  }

  lemma DescendsFromExtend(parentOf: map<int, Option<int>>, order: seq<int>, root: int, x: int)
    requires DescendsFrom(parentOf, order, root)
    requires x in parentOf && parentOf[x].Some? && parentOf[x].value in order
    ensures DescendsFrom(parentOf, order + [x], root)
  {
    var o := order + [x];
    assert o[..|order|] == order;
    forall k | 0 < k < |o|
      ensures o[k] in parentOf && parentOf[o[k]].Some? && parentOf[o[k]].value in o[..k]
    {
      if k < |order| {
        assert o[..k] == order[..k];
      }
    }
  }

  /** The organisation table and the members' organisation column, by primary key. */
  class Directory {
    /** Organisation rows: parent key, or None for a root. */
    var parentOf: map<int, Option<int>>
    /** User rows: organisation key, or None. */
    var memberOf: map<int, Option<int>>

    /** `Organization.delete()`: removes the organisation and, through the
        CASCADE on `parent`, every descendant; members of a removed organisation
        keep their row with `organization` set to NULL (SET_NULL). */
    method Delete(root: int) returns (removed: set<int>, ghost order: seq<int>)
      requires root in parentOf
      modifies this
      ensures root in removed && removed <= old(parentOf).Keys
      ensures forall y :: y in removed <==> y in order
      ensures ClosedUnderChildren(old(parentOf), removed) && DescendsFrom(old(parentOf), order, root)
      ensures parentOf == map x | x in old(parentOf) && x !in removed :: old(parentOf)[x]
      ensures memberOf == map u | u in old(memberOf) ::
        if old(memberOf)[u].Some? && old(memberOf)[u].value in removed then None else old(memberOf)[u]
    {
      var orgs, members := parentOf, memberOf;
      removed := {root};
      order := [root];
      while exists x :: x in orgs && x !in removed && orgs[x].Some? && orgs[x].value in removed
        invariant removed <= orgs.Keys && root in removed
        invariant forall y :: y in removed <==> y in order
        invariant DescendsFrom(orgs, order, root)
        decreases |orgs.Keys - removed|
      {
        var x :| x in orgs && x !in removed && orgs[x].Some? && orgs[x].value in removed;
        ghost var p := orgs[x].value;
        assert p in removed ==> p in order;
        DescendsFromExtend(orgs, order, root, x);
        assert orgs.Keys - (removed + {x}) < orgs.Keys - removed;
        removed := removed + {x};
        order := order + [x];
      }
      parentOf := map x | x in orgs && x !in removed :: orgs[x];
      memberOf := map u | u in members ::
        if members[u].Some? && members[u].value in removed then None else members[u];
    }
  }
}
