/** The dashboard's policy list: the search box, the status filter and the sort
    menu applied to the policies fetched for the signed-in user, and the updates
    the list receives after a delete, a renewal or an added policy. The records
    are the ones `PolicyRoutes` returns. */
module Dashboard {
  import opened Wrappers
  import opened Text
  import opened PolicyRoutes

  const ALL_STATUSES := "all"

  /** The four entries of the sort menu. */
  datatype Order = EndDateAsc | EndDateDesc | PremiumHigh | PremiumLow

  /** The sort key's menu value; any other value leaves the list unsorted. */
  function OrderOf(sortKey: string): (r: Option<Order>)
    ensures r.None? <==> sortKey !in {"endDateAsc", "endDateDesc", "premiumHigh", "premiumLow"}
  {
    match sortKey
    case "endDateAsc" => Some(EndDateAsc)
    case "endDateDesc" => Some(EndDateDesc)
    case "premiumHigh" => Some(PremiumHigh)
    case "premiumLow" => Some(PremiumLow)
    case _ => None
  }

  /** `p.premiumAmount || 0`. */
  function Premium(p: Policy): int {
    p.premiumAmount.GetOr(0)
  }

  /** Every comparator of the menu is `Rank(a) - Rank(b)` for a rank: the
      descending orders negate the field. */
  function Rank(p: Policy, order: Order): int {
    match order
    case EndDateAsc => p.endDate
    case EndDateDesc => -p.endDate
    case PremiumHigh => -Premium(p)
    case PremiumLow => Premium(p)
  }

  /** The comparator never reports a pair out of order. */
  predicate SortedBy(s: seq<Policy>, order: Order) {
    forall m, n :: 0 <= m < n < |s| ==> Rank(s[m], order) <= Rank(s[n], order)
  }

  // ---------------------------------------------------------------- filters

  /** The search term: none for a blank query, otherwise the trimmed query in
      lower case. */
  function SearchTerm(query: string): (r: Option<string>)
    ensures r.None? <==> Trim(query) == []
  {
    if Trim(query) == [] then None else Some(ToLower(Trim(query)))
  }

  /** The search box: the term occurs in the lower-cased policy number or type. */
  predicate TermMatches(p: Policy, term: Option<string>) {
    term.None?
    || Contains(ToLower(p.policyNumber), term.value)
    || (p.kind.Some? && Contains(ToLower(p.kind.value), term.value))
  }

  predicate StatusMatches(p: Policy, statusFilter: string) {
    statusFilter == ALL_STATUSES || p.status == statusFilter
  }

  /** The policies the two filters keep, in their original order. */
  function Selected(policies: seq<Policy>, term: Option<string>, statusFilter: string): (r: seq<Policy>)
    ensures |r| <= |policies|
  {
    if policies == [] then []
    else
      var rest := Selected(policies[1..], term, statusFilter);
      if TermMatches(policies[0], term) && StatusMatches(policies[0], statusFilter)
      then [policies[0]] + rest else rest
  }

  /** A policy is listed exactly when it is one of the user's policies and
      both filters keep it. */
  lemma {:induction false} SelectedMembers(policies: seq<Policy>, term: Option<string>, statusFilter: string)
    ensures forall p :: p in Selected(policies, term, statusFilter) <==>
      p in policies && TermMatches(p, term) && StatusMatches(p, statusFilter)
    decreases |policies|
  {
    if policies != [] {
      SelectedMembers(policies[1..], term, statusFilter);
      assert policies == [policies[0]] + policies[1..];
    }
  }

  /** With a blank query and the status "all" the list is the fetched list. */
  lemma {:induction false} NoFilterKeepsAll(policies: seq<Policy>)
    ensures Selected(policies, None, ALL_STATUSES) == policies
    decreases |policies|
  {
    if policies != [] {
      NoFilterKeepsAll(policies[1..]);
      assert policies == [policies[0]] + policies[1..];
    }
  }

  // ---------------------------------------------------------------- the list

  /** `filteredSorted`: a copy of the selected policies, sorted in place when the
      sort key names a menu entry. `policies` is a value and stays as it was. */
  method FilteredSorted(policies: seq<Policy>, query: string, statusFilter: string, sortKey: string)
    returns (list: seq<Policy>)
    ensures multiset(list) == multiset(Selected(policies, SearchTerm(query), statusFilter))
    ensures OrderOf(sortKey).Some? ==> SortedBy(list, OrderOf(sortKey).value)
    ensures OrderOf(sortKey).None? ==> list == Selected(policies, SearchTerm(query), statusFilter)
  {
    list := Selected(policies, SearchTerm(query), statusFilter);
    var order := OrderOf(sortKey);
    if order.Some? {
      var selected := list;
      var a := new Policy[|selected|](i requires 0 <= i < |selected| => selected[i]);
      assert a[..] == selected;
      SortInPlace(a, order.value);
      list := a[..];
    }
  }

  /** The first `hi` entries are in the comparator's order. */
  predicate SortedUpTo(s: seq<Policy>, order: Order, hi: int) {
    forall m, n :: 0 <= m < n < hi && n < |s| ==> Rank(s[m], order) <= Rank(s[n], order)
  }

  /** `list.sort(compare)`: an insertion sort that swaps a pair only when the
      comparator puts it strictly out of order. */
  method SortInPlace(a: array<Policy>, order: Order)
    modifies a
    ensures SortedBy(a[..], order)
    ensures multiset(a[..]) == multiset(old(a[..]))
  {
    var i := 0;
    while i < a.Length
      invariant 0 <= i <= a.Length
      invariant SortedUpTo(a[..], order, i)
      invariant multiset(a[..]) == multiset(old(a[..]))
    {
      Insert(a, order, i);
      i := i + 1;
    }
  }

  /** While the cell that started at `i` sits at `j`: the first `i + 1` cells
      without it are in order, and it ranks no higher than any cell after it. */
  predicate Inserting(s: seq<Policy>, order: Order, i: int, j: int) {
    && 0 <= j <= i < |s|
    && (forall m, n :: 0 <= m < n <= i && m != j && n != j ==> Rank(s[m], order) <= Rank(s[n], order))
    && (forall n :: j < n <= i ==> Rank(s[j], order) <= Rank(s[n], order))
  }

  lemma InsertingStart(s: seq<Policy>, order: Order, i: int)
    requires 0 <= i < |s| && SortedUpTo(s, order, i)
    ensures Inserting(s, order, i, i)
  {
  }

  lemma InsertingStep(s: seq<Policy>, order: Order, i: int, j: int)
    requires Inserting(s, order, i, j) && j > 0 && Rank(s[j - 1], order) > Rank(s[j], order)
    ensures Inserting(s[j - 1 := s[j]][j := s[j - 1]], order, i, j - 1)
  {
  }

  lemma InsertingDone(s: seq<Policy>, order: Order, i: int, j: int)
    requires Inserting(s, order, i, j) && (j == 0 || Rank(s[j - 1], order) <= Rank(s[j], order))
    ensures SortedUpTo(s, order, i + 1)
  {
  }

  /** One pass of the insertion sort: the cell at `i` moves left past every
      cell whose rank is larger. */
  method Insert(a: array<Policy>, order: Order, i: int)
    requires 0 <= i < a.Length && SortedUpTo(a[..], order, i)
    modifies a
    ensures SortedUpTo(a[..], order, i + 1)
    ensures multiset(a[..]) == multiset(old(a[..]))
  {
    InsertingStart(a[..], order, i);
    var j := i;
    while j > 0 && Rank(a[j - 1], order) > Rank(a[j], order)
      invariant Inserting(a[..], order, i, j)
      invariant multiset(a[..]) == multiset(old(a[..]))
    {
      ghost var s := a[..];
      Swap(a, j - 1, j);
      assert a[..] == s[j - 1 := s[j]][j := s[j - 1]];
      InsertingStep(s, order, i, j);
      j := j - 1;
    }
    InsertingDone(a[..], order, i, j);
  }

  /** Exchanges two neighbouring cells; the contents stay the same multiset. */
  method Swap(a: array<Policy>, k: int, l: int)
    requires 0 <= k < a.Length && l == k + 1 < a.Length
    modifies a
    ensures a[k] == old(a[l]) && a[l] == old(a[k])
    ensures forall m :: 0 <= m < a.Length && m != k && m != l ==> a[m] == old(a[m])
    ensures multiset(a[..]) == multiset(old(a[..]))
  {
    ghost var before := a[..];
    a[k], a[l] := a[l], a[k];
    assert a[..] == before[..k] + [before[l], before[k]] + before[l + 1..];
    assert before == before[..k] + [before[k], before[l]] + before[l + 1..];
  }

  // ---------------------------------------------------------------- updates

  /** After a confirmed, successful delete: every entry with that id goes, the
      rest keep their order. */
  function WithoutPolicy(list: seq<Policy>, id: PolicyId): (r: seq<Policy>)
    ensures |r| <= |list|
  {
    if list == [] then []
    else (if list[0].id == id then [] else [list[0]]) + WithoutPolicy(list[1..], id)
  }

  /** The entries left are exactly those with another id. */
  lemma {:induction false} WithoutPolicyMembers(list: seq<Policy>, id: PolicyId)
    ensures forall p :: p in WithoutPolicy(list, id) <==> p in list && p.id != id
    decreases |list|
  {
    if list != [] {
      WithoutPolicyMembers(list[1..], id);
      assert list == [list[0]] + list[1..];
    }
  }

  /** A list without that id is left as it is. */
  lemma {:induction false} WithoutAbsentPolicy(list: seq<Policy>, id: PolicyId)
    requires forall k :: 0 <= k < |list| ==> list[k].id != id
    ensures WithoutPolicy(list, id) == list
    decreases |list|
  {
    if list != [] {
      WithoutAbsentPolicy(list[1..], id);
      assert list == [list[0]] + list[1..];
    }
  }

  /** `deletePolicy`: nothing changes unless the user confirmed and the server agreed. */
  function AfterDelete(list: seq<Policy>, id: PolicyId, confirmed: bool, deleted: bool): (r: seq<Policy>)
    ensures !(confirmed && deleted) ==> r == list
    ensures confirmed && deleted ==> forall p :: p in r <==> p in list && p.id != id
  {
    WithoutPolicyMembers(list, id);
    if confirmed && deleted then WithoutPolicy(list, id) else list
  }

  /** `renewPolicy` on success: the entries with that id become the renewed policy,
      every other entry stays where it was. */
  function AfterRenew(list: seq<Policy>, id: PolicyId, renewed: Option<Policy>): (r: seq<Policy>)
    ensures |r| == |list|
    ensures renewed.None? ==> r == list
    ensures renewed.Some? ==> forall k :: 0 <= k < |list| ==>
      r[k] == (if list[k].id == id then renewed.value else list[k])
  {
    if renewed.None? then list
    else seq(|list|, k requires 0 <= k < |list| => if list[k].id == id then renewed.value else list[k])
  }

  /** `handlePolicyAdded`: the new policy goes at the end. */
  function AfterAdd(list: seq<Policy>, created: Policy): (r: seq<Policy>)
    ensures |r| == |list| + 1 && r[|list|] == created && r[..|list|] == list
  {
    list + [created]
  }

  /** Deleting a policy just added to a list that did not hold its id gives the
      list back. */
  lemma AddThenDelete(list: seq<Policy>, created: Policy)
    requires forall k :: 0 <= k < |list| ==> list[k].id != created.id
    ensures AfterDelete(AfterAdd(list, created), created.id, true, true) == list
  {
    AppendedRemoved(list, created);
  }

  lemma {:induction false} AppendedRemoved(list: seq<Policy>, created: Policy)
    requires forall k :: 0 <= k < |list| ==> list[k].id != created.id
    ensures WithoutPolicy(list + [created], created.id) == list
    decreases |list|
  {
    if list == [] {
      assert [created][1..] == [];
    } else {
      AppendedRemoved(list[1..], created);
      assert (list + [created])[1..] == list[1..] + [created];
      assert list == [list[0]] + list[1..];
    }
  }

  /** A renewal that keeps the policy's id leaves the ids of the list as they were. */
  lemma RenewKeepsIds(list: seq<Policy>, id: PolicyId, renewed: Policy)
    requires renewed.id == id
    ensures var r := AfterRenew(list, id, Some(renewed));
      forall k :: 0 <= k < |list| ==> r[k].id == list[k].id
  {
  }
}
