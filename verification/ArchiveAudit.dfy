/** The predecessor chain check of the archive acceptance audit: one group of batches, each
    naming the batch before it, must form a single unbroken line. */
module ArchiveAudit {

  import opened Basics

  type Digest = string

  /** A missing or empty predecessor field. */
  datatype Previous = NoPrevious | After(digest: Digest)

  type Batches = map<Digest, Previous>

  datatype Outcome = Accepted | ContainsCycle | NotOneChain

  /** The batches listed once each, the first without a predecessor, each later one naming the
      one before it. */
  ghost predicate IsListing(order: seq<Digest>, batches: Batches) {
    && order != []
    && Distinct(order)
    && (forall d :: d in order <==> d in batches)
    && batches[order[0]] == NoPrevious
    && (forall i :: 0 < i < |order| ==> batches[order[i]] == After(order[i - 1]))
  }

  ghost predicate IsOneChain(batches: Batches) {
    exists order :: IsListing(order, batches)
  }

  predicate Distinct(s: seq<Digest>) {
    forall i, j :: 0 <= i < j < |s| ==> s[i] != s[j]
  }

  ghost predicate ListsChildren(children: map<Previous, seq<Digest>>, batches: Batches, done: set<Digest>) {
    && (forall p :: p in children ==> Distinct(children[p]))
    && (forall p, d :: p in children && d in children[p] ==> d in done && d in batches && batches[d] == p)
    && (forall d :: d in done && d in batches ==> batches[d] in children && d in children[batches[d]])
  }

  /** Digests grouped by the predecessor they name. */
  method GroupByPredecessor(batches: Batches) returns (children: map<Previous, seq<Digest>>)
    ensures ListsChildren(children, batches, batches.Keys)
  {
    children := map[];
    var todo := batches.Keys;
    while todo != {}
      invariant todo <= batches.Keys
      invariant ListsChildren(children, batches, batches.Keys - todo)
    {
      var d :| d in todo;
      todo := todo - {d};
      var p := batches[d];
      var siblings := if p in children then children[p] else [];
      children := children[p := siblings + [d]];
    }
  }

  function ChildrenOf(children: map<Previous, seq<Digest>>, p: Previous): seq<Digest> {
    if p in children then children[p] else []
  }

  ghost predicate NoBranch(children: map<Previous, seq<Digest>>) {
    forall p :: p in children ==> |children[p]| <= 1
  }

  ghost predicate LooseChain(order: seq<Digest>, pending: seq<Digest>, batches: Batches) {
    && |pending| <= 1
    && (order != [] ==> order[0] in batches && batches[order[0]] == NoPrevious)
    && (forall i :: 0 < i < |order| ==> order[i] in batches && batches[order[i]] == After(order[i - 1]))
    && (forall d :: d in pending ==>
          (d in batches && batches[d] == (if order == [] then NoPrevious else After(order[|order| - 1]))))
  }

  ghost predicate WorklistApart(pending: seq<Digest>, order: seq<Digest>, batches: Batches) {
    && Distinct(pending) && Distinct(order)
    && (forall d :: d in pending ==> d in batches && d !in order)
    && (forall d :: d in order ==> d in batches)
  }

  /** A batch is listed or pending exactly when it is a root or its predecessor is listed. */
  predicate OnFrontier(pending: seq<Digest>, order: seq<Digest>, batches: Batches, d: Digest)
    requires d in batches
  {
    d in pending || d in order <==> batches[d] == NoPrevious || batches[d].digest in order
  }

  ghost predicate WorklistInvariant(pending: seq<Digest>, order: seq<Digest>, batches: Batches) {
    WorklistApart(pending, order, batches) && forall d :: d in batches ==> OnFrontier(pending, order, batches, d)
  }

  lemma DistinctConcat(a: seq<Digest>, b: seq<Digest>)
    requires Distinct(a) && Distinct(b) && forall x :: x in b ==> x !in a
    ensures Distinct(a + b)
  {
    forall i, j | 0 <= i < j < |a + b| ensures (a + b)[i] != (a + b)[j] {
      if i < |a| <= j { assert b[j - |a|] in b; }
    }
  }

  lemma DistinctIndex(s: seq<Digest>, i: nat, j: nat)
    requires Distinct(s) && i < |s| && j < |s| && s[i] == s[j]
    ensures i == j
  {
  }

  lemma RootsStartWorklist(batches: Batches, children: map<Previous, seq<Digest>>)
    requires ListsChildren(children, batches, batches.Keys)
    ensures WorklistInvariant(ChildrenOf(children, NoPrevious), [], batches)
  {
    var roots := ChildrenOf(children, NoPrevious);
    forall d | d in batches
      ensures OnFrontier(roots, [], batches, d)
    {
      assert d in roots <==> batches[d] == NoPrevious;
    }
  }

  lemma WorklistFits(pending: seq<Digest>, order: seq<Digest>, batches: Batches)
    requires WorklistInvariant(pending, order, batches)
    ensures |order| <= |batches|
  {
    DistinctSize(order);
    SubsetSize((set d | d in order), batches.Keys);
    assert |batches| == |batches.Keys|;
  }

  lemma {:induction false} DistinctSize(s: seq<Digest>)
    requires Distinct(s)
    ensures |set d | d in s| == |s|
  {
    if s != [] {
      var last, rest := s[|s| - 1], s[..|s| - 1];
      DistinctSize(rest);
      assert s == rest + [last];
      assert (set d | d in s) == (set d | d in rest) + {last};
    }
  }

  lemma StepKeepsWorklist(
    pending: seq<Digest>, order: seq<Digest>, batches: Batches, children: map<Previous, seq<Digest>>)
    requires WorklistInvariant(pending, order, batches) && pending != []
    requires ListsChildren(children, batches, batches.Keys)
    ensures var d := pending[|pending| - 1];
            d in batches && d !in order &&
            WorklistInvariant(pending[..|pending| - 1] + ChildrenOf(children, After(d)), order + [d], batches)
  {
    var d := pending[|pending| - 1];
    var rest, kids, order' := pending[..|pending| - 1], ChildrenOf(children, After(d)), order + [d];
    assert d in pending;
    forall k | k in kids ensures k in batches && k !in pending && k !in order' && batches[k] == After(d) {
      assert OnFrontier(pending, order, batches, k);
    }
    StepKeepsApart(pending, order, batches, kids);
    forall x | x in batches ensures OnFrontier(rest + kids, order', batches, x) {
      assert OnFrontier(pending, order, batches, x);
      StepKeepsFrontier(pending, order, batches, children, x);
    }
  }

  lemma StepKeepsApart(pending: seq<Digest>, order: seq<Digest>, batches: Batches, kids: seq<Digest>)
    requires WorklistApart(pending, order, batches) && pending != [] && Distinct(kids)
    requires forall k :: k in kids ==> k in batches && k !in pending && k !in order
    ensures WorklistApart(pending[..|pending| - 1] + kids, order + [pending[|pending| - 1]], batches)
  {
    var rest, d := pending[..|pending| - 1], pending[|pending| - 1];
    LastIsAlone(pending);
    DistinctConcat(rest, kids);
    DistinctConcat(order, [d]);
    forall x | x in rest + kids ensures x in batches && x !in order + [d] { assert x in rest || x in kids; }
  }

  lemma LastIsAlone(s: seq<Digest>)
    requires s != [] && Distinct(s)
    ensures var rest, d := s[..|s| - 1], s[|s| - 1];
            Distinct(rest) && d in s && d !in rest && forall x :: x in rest ==> x in s
  {
    var rest := s[..|s| - 1];
    forall x | x in rest ensures x in s && x != s[|s| - 1] {
      var i :| 0 <= i < |rest| && rest[i] == x;
      assert s[i] != s[|s| - 1];
    }
  }

  lemma StepKeepsFrontier(
    pending: seq<Digest>, order: seq<Digest>, batches: Batches, children: map<Previous, seq<Digest>>, x: Digest)
    requires pending != [] && x in batches && OnFrontier(pending, order, batches, x)
    requires ListsChildren(children, batches, batches.Keys)
    ensures var d := pending[|pending| - 1];
            OnFrontier(pending[..|pending| - 1] + ChildrenOf(children, After(d)), order + [d], batches, x)
  {
    var d := pending[|pending| - 1];
    var rest, kids := pending[..|pending| - 1], ChildrenOf(children, After(d));
    assert pending == rest + [d];
    assert x in kids <==> batches[x] == After(d);
  }

  lemma StepKeepsLooseChain(
    pending: seq<Digest>, order: seq<Digest>, batches: Batches, children: map<Previous, seq<Digest>>)
    requires LooseChain(order, pending, batches) && pending != []
    requires ListsChildren(children, batches, batches.Keys) && NoBranch(children)
    ensures var d := pending[|pending| - 1];
            LooseChain(order + [d], pending[..|pending| - 1] + ChildrenOf(children, After(d)), batches)
  {
    var d := pending[|pending| - 1];
    var kids := ChildrenOf(children, After(d));
    assert pending == [d] && d in pending;
    assert pending[..|pending| - 1] + kids == kids;
    KidsFollow(batches, children, d);
    ChainGrows(order, d, kids, batches);
  }

  lemma ChainGrows(order: seq<Digest>, d: Digest, kids: seq<Digest>, batches: Batches)
    requires LooseChain(order, [d], batches) && |kids| <= 1
    requires forall x :: x in kids ==> x in batches && batches[x] == After(d)
    ensures LooseChain(order + [d], kids, batches)
  {
    assert d in [d];
    OrderGrows(order, d, batches);
  }

  lemma KidsFollow(batches: Batches, children: map<Previous, seq<Digest>>, d: Digest)
    requires ListsChildren(children, batches, batches.Keys) && NoBranch(children)
    ensures |ChildrenOf(children, After(d))| <= 1
    ensures forall x :: x in ChildrenOf(children, After(d)) ==> x in batches && batches[x] == After(d)
  {
  }

  lemma OrderGrows(order: seq<Digest>, d: Digest, batches: Batches)
    requires order != [] ==> order[0] in batches && batches[order[0]] == NoPrevious
    requires forall i :: 0 < i < |order| ==> order[i] in batches && batches[order[i]] == After(order[i - 1])
    requires d in batches && batches[d] == (if order == [] then NoPrevious else After(order[|order| - 1]))
    ensures var more := order + [d];
      && more[0] in batches && batches[more[0]] == NoPrevious
      && forall i :: 0 < i < |more| ==> more[i] in batches && batches[more[i]] == After(more[i - 1])
  {
  }

  ghost predicate Unbranched(children: map<Previous, seq<Digest>>) {
    NoBranch(children) && |ChildrenOf(children, NoPrevious)| == 1
  }

  method AnyPredecessorMissing(batches: Batches) returns (missing: bool)
    ensures missing <==> exists d :: d in batches && batches[d].After? && batches[d].digest !in batches
  {
    missing := false;
    var todo := batches.Keys;
    while todo != {}
      invariant todo <= batches.Keys
      invariant missing <==> exists d :: d in batches.Keys - todo && batches[d].After? && batches[d].digest !in batches
    {
      var d :| d in todo;
      todo := todo - {d};
      if batches[d].After? && batches[d].digest !in batches { missing := true; }
    }
  }

  method AnyBranch(children: map<Previous, seq<Digest>>) returns (branched: bool)
    ensures branched <==> !NoBranch(children)
  {
    branched := false;
    var keys := children.Keys;
    while keys != {}
      invariant keys <= children.Keys
      invariant branched <==> exists p :: p in children.Keys - keys && |children[p]| > 1
    {
      var p :| p in keys;
      keys := keys - {p};
      if |children[p]| > 1 { branched := true; }
    }
  }

  /** The walk from the roots along the children. */
  method Walk(batches: Batches, children: map<Previous, seq<Digest>>)
    returns (cycle: bool, reached: set<Digest>, ghost order: seq<Digest>)
    requires ListsChildren(children, batches, batches.Keys)
    ensures !cycle
    ensures WorklistInvariant([], order, batches)
    ensures reached == set d | d in order
    ensures Unbranched(children) ==> LooseChain(order, [], batches) && order != []
  {
    reached, order := {}, [];
    var pending := ChildrenOf(children, NoPrevious);
    RootsStartWorklist(batches, children);
    while pending != []
      invariant WorklistInvariant(pending, order, batches)
      invariant reached == set d | d in order
      invariant Unbranched(children) ==> LooseChain(order, pending, batches) && |order + pending| > 0
      decreases |batches| - |order|
    {
      StepKeepsWorklist(pending, order, batches, children);
      if Unbranched(children) { StepKeepsLooseChain(pending, order, batches, children); }
      var digest := pending[|pending| - 1];
      if digest in reached { return true, reached, order; }
      reached := reached + {digest};
      order := order + [digest];
      pending := pending[..|pending| - 1] + ChildrenOf(children, After(digest));
      WorklistFits(pending, order, batches);
    }
    cycle := false;
  }

  /** The roots, the walk and the final test of one group. The exception for a cycle is never
      raised, and acceptance means exactly that the group is one chain. */
  method CheckChain(batches: Batches) returns (outcome: Outcome)
    ensures outcome != ContainsCycle
    ensures outcome == Accepted <==> IsOneChain(batches)
  {
    var children := GroupByPredecessor(batches);
    var roots := ChildrenOf(children, NoPrevious);
    var missing := AnyPredecessorMissing(batches);
    var cycle, reached, order := Walk(batches, children);
    if cycle { return ContainsCycle; }
    var branched := AnyBranch(children);
    if |roots| != 1 || missing || |reached| != |batches| || branched {
      outcome := NotOneChain;
      if listing :| IsListing(listing, batches) {
        ListingPassesTests(listing, batches, children, order);
        assert false;
      }
    } else {
      outcome := Accepted;
      AllReached(order, reached, batches);
      assert IsListing(order, batches);
    }
  }

  lemma AllReached(order: seq<Digest>, reached: set<Digest>, batches: Batches)
    requires reached == set d | d in order
    requires forall d :: d in order ==> d in batches
    requires |reached| == |batches|
    ensures forall d :: d in order <==> d in batches
  {
    assert |batches| == |batches.Keys|;
    SubsetSize(reached, batches.Keys);
    assert forall d :: d in batches <==> d in batches.Keys;
  }

  /** A listed group has one root, no missing predecessor, no branch, and the walk reaches all. */
  lemma ListingPassesTests(
    listing: seq<Digest>, batches: Batches, children: map<Previous, seq<Digest>>, order: seq<Digest>)
    requires IsListing(listing, batches)
    requires ListsChildren(children, batches, batches.Keys)
    requires WorklistInvariant([], order, batches)
    ensures |ChildrenOf(children, NoPrevious)| == 1
    ensures forall d :: d in batches && batches[d].After? ==> batches[d].digest in batches
    ensures NoBranch(children)
    ensures (set d | d in order) == batches.Keys
  {
    ListingIsReached(listing, batches, order);
    ListingDoesNotBranch(listing, batches, children);
    assert listing[0] in ChildrenOf(children, NoPrevious);
    forall d | d in batches && batches[d].After? ensures batches[d].digest in batches {
      var i :| 0 <= i < |listing| && listing[i] == d;
      assert listing[i - 1] in listing;
    }
  }

  lemma ListingIsReached(listing: seq<Digest>, batches: Batches, order: seq<Digest>)
    requires IsListing(listing, batches) && WorklistInvariant([], order, batches)
    ensures (set d | d in order) == batches.Keys
  {
    forall d | d in batches ensures d in order {
      var i :| 0 <= i < |listing| && listing[i] == d;
      ListedIsReached(listing, batches, order, i);
    }
  }

  lemma ListingDoesNotBranch(listing: seq<Digest>, batches: Batches, children: map<Previous, seq<Digest>>)
    requires IsListing(listing, batches) && ListsChildren(children, batches, batches.Keys)
    ensures NoBranch(children)
  {
    forall p | p in children ensures |children[p]| <= 1 {
      forall d, e | d in children[p] && e in children[p]
        ensures d == e
      {
        SamePredecessorSameBatch(listing, batches, d, e);
      }
      TwoApart(children[p]);
    }
  }

  lemma TwoApart(s: seq<Digest>)
    requires Distinct(s)
    ensures |s| > 1 ==> exists d, e :: d in s && e in s && d != e
  {
    if |s| > 1 { assert s[0] in s && s[1] in s && s[0] != s[1]; }
  }

  lemma ListedPrevious(listing: seq<Digest>, batches: Batches, i: nat)
    requires IsListing(listing, batches) && i < |listing|
    ensures listing[i] in batches
    ensures batches[listing[i]] == if i == 0 then NoPrevious else After(listing[i - 1])
  {
  }

  lemma SamePredecessorSameBatch(listing: seq<Digest>, batches: Batches, d: Digest, e: Digest)
    requires IsListing(listing, batches) && d in batches && e in batches && batches[d] == batches[e]
    ensures d == e
  {
    var i :| 0 <= i < |listing| && listing[i] == d;
    var j :| 0 <= j < |listing| && listing[j] == e;
    ListedPrevious(listing, batches, i);
    ListedPrevious(listing, batches, j);
    if i > 0 {
      DistinctIndex(listing, i - 1, j - 1);
    }
  }

  lemma {:induction false} ListedIsReached(listing: seq<Digest>, batches: Batches, order: seq<Digest>, i: nat)
    requires IsListing(listing, batches) && WorklistInvariant([], order, batches) && i < |listing|
    ensures listing[i] in order
  {
    assert listing[i] in batches && OnFrontier([], order, batches, listing[i]);
    if i > 0 { ListedIsReached(listing, batches, order, i - 1); }
  }
}
