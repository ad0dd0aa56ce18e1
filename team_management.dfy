/**
 * The team-management composite: a tab bar ("Team Members" with a count,
 * "Add Member"), the fetched member list, the filter criteria and the list
 * the filters leave visible.
 */
module TeamManagement {
  import opened Entities
  import opened Sequences
  import MemberFilters
  import AddMember

  datatype Tab = ListTab | AddTab

  /** One non-empty criterion, as one `.filter` call applies it. */
  datatype Criterion = ByBroker(brokerId: string) | BySegment(segmentId: string) | BySpecialization(specialization: string)

  /** The predicate passed to `.filter` for a criterion. */
  predicate Satisfies(m: Member, c: Criterion) {
    match c
    case ByBroker(id) => m.broker.id == id
    case BySegment(id) => exists s <- m.segments :: s.id == id
    // `memberDetails?.specialization`: a member without details yields undefined, never equal
    case BySpecialization(v) => m.memberDetails.Some? && m.memberDetails.value.specialization == v
  }

  /** `ms.filter(m => Satisfies(m, c))`. */
  function Select(ms: seq<Member>, c: Criterion): (r: seq<Member>)
    ensures |r| <= |ms|
    ensures forall m :: m in r <==> m in ms && Satisfies(m, c)
  {
    if ms == [] then []
    else
      assert ms == [ms[0]] + ms[1..];
      (if Satisfies(ms[0], c) then [ms[0]] else []) + Select(ms[1..], c)
  }

  /** `if (criterion) filtered = filtered.filter(...)`: one pass, applied only when its criterion is set. */
  function Pass(ms: seq<Member>, active: bool, c: Criterion): seq<Member> {
    if active then Select(ms, c) else ms
  }

  /**
   * `applyFilters`: starting from all members, one pass for each non-empty
   * criterion, in the order broker, segment, specialization.
   */
  function ApplyFilters(ms: seq<Member>, f: Filters): (r: seq<Member>)
    ensures |r| <= |ms|
    ensures forall m :: m in r <==> m in ms && Matches(m, f)
  {
    var byBroker := Pass(ms, f.broker != "", ByBroker(f.broker));
    var bySegment := Pass(byBroker, f.segment != "", BySegment(f.segment));
    Pass(bySegment, f.specialization != "", BySpecialization(f.specialization))
  }

  /** A member passes the filters: every non-empty criterion holds of it. */
  predicate Matches(m: Member, f: Filters) {
    && (f.broker == "" || m.broker.id == f.broker)
    && (f.segment == "" || exists s <- m.segments :: s.id == f.segment)
    && (f.specialization == "" || (m.memberDetails.Some? && m.memberDetails.value.specialization == f.specialization))
  }

  /** Matching is the conjunction of the `.filter` predicates of the criteria that are set. */
  lemma MatchesIsEverySetCriterion(m: Member, f: Filters)
    ensures Matches(m, f) <==>
      && (f.broker == "" || Satisfies(m, ByBroker(f.broker)))
      && (f.segment == "" || Satisfies(m, BySegment(f.segment)))
      && (f.specialization == "" || Satisfies(m, BySpecialization(f.specialization)))
  {
  }

  /** Reference definition: a single pass keeping the members that match. */
  function KeepMatching(ms: seq<Member>, f: Filters): seq<Member> {
    if ms == [] then []
    else (if Matches(ms[0], f) then [ms[0]] else []) + KeepMatching(ms[1..], f)
  }

  lemma {:induction false} SelectAppend(a: seq<Member>, b: seq<Member>, c: Criterion)
    ensures Select(a + b, c) == Select(a, c) + Select(b, c)
  {
    if a == [] {
      assert a + b == b;
    } else {
      assert (a + b)[0] == a[0];
      assert (a + b)[1..] == a[1..] + b;
      SelectAppend(a[1..], b, c);
    }
  }

  /** Filtering distributes over concatenation. */
  lemma ApplyFiltersAppend(a: seq<Member>, b: seq<Member>, f: Filters)
    ensures ApplyFilters(a + b, f) == ApplyFilters(a, f) + ApplyFilters(b, f)
  {
    var a1 := Pass(a, f.broker != "", ByBroker(f.broker));
    var b1 := Pass(b, f.broker != "", ByBroker(f.broker));
    SelectAppend(a, b, ByBroker(f.broker));
    var a2 := Pass(a1, f.segment != "", BySegment(f.segment));
    var b2 := Pass(b1, f.segment != "", BySegment(f.segment));
    SelectAppend(a1, b1, BySegment(f.segment));
    SelectAppend(a2, b2, BySpecialization(f.specialization));
  }

  /** Filtering a single member keeps it iff it matches. */
  lemma ApplyFiltersSingleton(m: Member, f: Filters)
    ensures ApplyFilters([m], f) == if Matches(m, f) then [m] else []
  {
    assert [m][1..] == [];
    forall c | true ensures Select([m], c) == if Satisfies(m, c) then [m] else [] {
      assert Select([m][1..], c) == [];
    }
    assert Select([], BySegment(f.segment)) == [];
    assert Select([], BySpecialization(f.specialization)) == [];
  }

  /** Filtering a list with a head filters the head on its own and the rest on its own. */
  lemma ApplyFiltersCons(m: Member, ms: seq<Member>, f: Filters)
    ensures ApplyFilters([m] + ms, f) == (if Matches(m, f) then [m] else []) + ApplyFilters(ms, f)
  {
    ApplyFiltersAppend([m], ms, f);
    ApplyFiltersSingleton(m, f);
  }

  /** The source's chain of passes equals the one-pass conjunction of all criteria. */
  lemma {:induction false} ApplyFiltersIsConjunction(ms: seq<Member>, f: Filters)
    ensures ApplyFilters(ms, f) == KeepMatching(ms, f)
  {
    if ms != [] {
      assert ms == [ms[0]] + ms[1..];
      ApplyFiltersCons(ms[0], ms[1..], f);
      ApplyFiltersIsConjunction(ms[1..], f);
    }
  }

  lemma {:induction false} KeepMatchingSubsequence(ms: seq<Member>, f: Filters)
    ensures IsSubsequence(KeepMatching(ms, f), ms)
  {
    if ms != [] {
      KeepMatchingSubsequence(ms[1..], f);
      var rest := KeepMatching(ms[1..], f);
      assert ms == [ms[0]] + ms[1..];
      SubsequenceCons(ms[0], rest, ms[1..]);
      if Matches(ms[0], f) {
        assert KeepMatching(ms, f) == [ms[0]] + rest;
      } else {
        assert KeepMatching(ms, f) == rest;
      }
    }
  }

  lemma {:induction false} KeepMatchingMembership(ms: seq<Member>, f: Filters)
    ensures forall m :: m in KeepMatching(ms, f) <==> m in ms && Matches(m, f)
  {
    if ms != [] {
      KeepMatchingMembership(ms[1..], f);
      assert ms == [ms[0]] + ms[1..];
    }
  }

  lemma {:induction false} KeepMatchingIdentity(ms: seq<Member>, f: Filters)
    ensures KeepMatching(ms, f) == ms <==> forall i :: 0 <= i < |ms| ==> Matches(ms[i], f)
  {
    if ms != [] {
      KeepMatchingIdentity(ms[1..], f);
      KeepMatchingSubsequence(ms[1..], f);
      var rest := KeepMatching(ms[1..], f);
      SubsequenceElements(rest, ms[1..]);
      if KeepMatching(ms, f) == ms {
        if !Matches(ms[0], f) {
          assert false;
        }
        assert [ms[0]] + rest == ms;
        assert rest == ms[1..];
        forall i | 0 <= i < |ms| ensures Matches(ms[i], f) {
          if i > 0 { assert ms[i] == ms[1..][i - 1]; }
        }
      }
      if forall i :: 0 <= i < |ms| ==> Matches(ms[i], f) {
        forall i | 0 <= i < |ms[1..]| ensures Matches(ms[1..][i], f) {
          assert ms[1..][i] == ms[i + 1];
        }
        assert ms == [ms[0]] + ms[1..];
      }
    }
  }

  lemma {:induction false} KeepMatchingIdempotent(ms: seq<Member>, f: Filters)
    ensures KeepMatching(KeepMatching(ms, f), f) == KeepMatching(ms, f)
  {
    if ms != [] {
      KeepMatchingIdempotent(ms[1..], f);
      var rest := KeepMatching(ms[1..], f);
      if Matches(ms[0], f) {
        var kept := [ms[0]] + rest;
        assert KeepMatching(ms, f) == kept;
        assert kept[0] == ms[0] && kept[1..] == rest;
        assert KeepMatching(kept, f) == [ms[0]] + KeepMatching(rest, f);
      } else {
        assert KeepMatching(ms, f) == rest;
      }
    }
  }

  /** A member is visible iff it was fetched and every non-empty criterion holds of it. */
  lemma FilterMembership(ms: seq<Member>, f: Filters, m: Member)
    ensures m in ApplyFilters(ms, f) <==> m in ms && Matches(m, f)
  {
    ApplyFiltersIsConjunction(ms, f);
    KeepMatchingMembership(ms, f);
  }

  /** The visible list is the fetched list with some members dropped: nothing added, order kept. */
  lemma FilterIsSubsequence(ms: seq<Member>, f: Filters)
    ensures IsSubsequence(ApplyFilters(ms, f), ms)
    ensures |ApplyFilters(ms, f)| <= |ms|
  {
    ApplyFiltersIsConjunction(ms, f);
    KeepMatchingSubsequence(ms, f);
    SubsequenceElements(ApplyFilters(ms, f), ms);
  }

  /** Filtering leaves the list unchanged iff every member already passes; with no criteria it always does. */
  lemma FilterIdentity(ms: seq<Member>, f: Filters)
    ensures ApplyFilters(ms, f) == ms <==> forall i :: 0 <= i < |ms| ==> Matches(ms[i], f)
    ensures ApplyFilters(ms, NoFilters) == ms
  {
    ApplyFiltersIsConjunction(ms, f);
    KeepMatchingIdentity(ms, f);
  }

  /** Applying the same filters to the visible list changes nothing. */
  lemma FilterIdempotent(ms: seq<Member>, f: Filters)
    ensures ApplyFilters(ApplyFilters(ms, f), f) == ApplyFilters(ms, f)
  {
    ApplyFiltersIsConjunction(ms, f);
    ApplyFiltersIsConjunction(KeepMatching(ms, f), f);
    KeepMatchingIdempotent(ms, f);
  }

  /** A member without `memberDetails` is hidden whenever a specialization is chosen. */
  lemma NoDetailsHiddenBySpecialization(ms: seq<Member>, f: Filters, m: Member)
    requires m.memberDetails.None? && f.specialization != ""
    ensures m !in ApplyFilters(ms, f)
  {
    FilterMembership(ms, f, m);
  }

  /** Two members, brokers A and B: filtering on broker A keeps exactly the first. */
  lemma BrokerFilterExample(a: Member, b: Member)
    requires a.broker.id == "A" && b.broker.id == "B"
    ensures ApplyFilters([a, b], Filters("A", "", "")) == [a]
  {
    assert [a, b] == [a] + [b];
    ApplyFiltersCons(a, [b], Filters("A", "", ""));
    ApplyFiltersCons(b, [], Filters("A", "", ""));
  }

  /** The component's state. */
  class TeamManagementPanel {
    var activeTab: Tab
    var members: seq<Member>
    var filteredMembers: seq<Member>
    var loading: bool
    var filters: Filters

    /** The filter effect has run: the visible list is the filtered fetched list. */
    ghost predicate Valid()
      reads this
    {
      filteredMembers == ApplyFilters(members, filters)
    }

    /** The initial state: list tab, no members, loading, no criteria. */
    constructor ()
      ensures Valid()
      ensures activeTab == ListTab && members == [] && filteredMembers == [] && loading
      ensures filters == NoFilters
    {
      activeTab := ListTab;
      members := [];
      filteredMembers := [];
      loading := true;
      filters := NoFilters;
    }

    /** The number shown on the "Team Members" tab: all fetched members, not the visible ones. */
    function MemberCount(): (n: nat)
      reads this
      requires Valid()
      ensures n == |members|
      ensures |filteredMembers| <= n
      ensures filters == NoFilters ==> n == |filteredMembers|
    {
      FilterIsSubsequence(members, filters);
      FilterIdentity(members, filters);
      |members|
    }

    /** `fetchTeamMembers` with the response as input: members replaced on success, loading off either way. */
    method FetchTeamMembers(response: Option<seq<Member>>)
      requires Valid()
      modifies this
      ensures Valid() && !loading
      ensures members == (if response.Some? then response.value else old(members))
      ensures filters == old(filters) && activeTab == old(activeTab)
    {
      if response.Some? {
        members := response.value;
      }
      loading := false;
      filteredMembers := ApplyFilters(members, filters);
    }

    /** `handleMemberAdded`: the new member goes first and the list tab is shown. */
    method HandleMemberAdded(m: Member)
      requires Valid()
      modifies this
      ensures Valid()
      ensures members == [m] + old(members) && |members| == |old(members)| + 1
      ensures activeTab == ListTab
      ensures filteredMembers == (if Matches(m, filters) then [m] else []) + old(filteredMembers)
      ensures filters == old(filters) && loading == old(loading)
    {
      members := [m] + members;
      activeTab := ListTab;
      filteredMembers := ApplyFilters(members, filters);
      ApplyFiltersCons(m, old(members), filters);
    }

    /** `handleFilterChange`: the criteria are replaced wholesale. */
    method HandleFilterChange(newFilters: Filters)
      requires Valid()
      modifies this
      ensures Valid()
      ensures filters == newFilters
      ensures members == old(members) && activeTab == old(activeTab) && loading == old(loading)
    {
      filters := newFilters;
      filteredMembers := ApplyFilters(members, filters);
    }

    /** A tab button or the form's cancel. */
    method SelectTab(tab: Tab)
      modifies this
      ensures activeTab == tab
      ensures members == old(members) && filteredMembers == old(filteredMembers)
      ensures filters == old(filters) && loading == old(loading)
    {
      activeTab := tab;
    }

    /**
     * An edit in the filter panel: the panel stores and emits the new
     * criteria, this component adopts them, and the panel's copy is resynced
     * from the prop, so both hold the same value afterwards.
     */
    method EditFilter(panel: MemberFilters.MemberFiltersPanel, name: MemberFilters.FilterName, value: string)
      requires Valid()
      modifies this, panel
      ensures Valid()
      ensures filters == MemberFilters.WithFilter(old(panel.filters), name, value)
      ensures panel.filters == filters
      ensures members == old(members) && activeTab == old(activeTab) && loading == old(loading)
    {
      var emitted := panel.HandleFilterChange(name, value);
      HandleFilterChange(emitted);
      panel.SyncWithProps(filters);
    }

    /**
     * The add-member form submits with this component's `handleMemberAdded`
     * as its callback: on success the form is empty and the created member
     * heads the list exactly once; on failure the list is unchanged.
     */
    method SubmitFromForm(form: AddMember.AddMemberForm, outcome: AddMember.SubmitOutcome)
      requires Valid()
      modifies this, form
      ensures Valid()
      ensures outcome.Created? ==>
        members == [outcome.member] + old(members) && activeTab == ListTab &&
        form.formData == AddMember.InitialForm
      ensures filters == old(filters) && loading == old(loading)
      ensures !form.loading
      ensures outcome.Created? ==> form.success == AddMember.SUCCESS_MESSAGE && form.error == ""
      ensures outcome.Rejected? ==> form.success == ""
      ensures outcome.Created? ==>
        filteredMembers == (if Matches(outcome.member, filters) then [outcome.member] else []) + old(filteredMembers)
      ensures outcome.Created? && filters == NoFilters ==> filteredMembers == [outcome.member] + old(filteredMembers)
      ensures outcome.Rejected? ==>
        members == old(members) && filteredMembers == old(filteredMembers) && activeTab == old(activeTab) &&
        form.formData == old(form.formData) && form.error == AddMember.ErrorMessage(outcome.message)
    {
      var _, notified := form.HandleSubmit(outcome, true);
      if notified.Some? {
        HandleMemberAdded(notified.value);
      }
    }
  }
}
