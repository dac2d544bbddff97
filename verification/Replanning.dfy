/** Planning again from what the first plan wrote back (`lou/application/live.py`). */
module Replanning {
  import opened Common
  import opened Sorting
  import opened WorkloadPlanner

  // ----- planning again

  /** The context after `inspect`: the first plan's selection and its reasons are written back. */
  function Rewritten(context: Context, selected: seq<Selection>): Context {
    context.(selectedIds := IdsOf(selected), reasons := context.reasons + ReasonsOf(selected))
  }

  function IdsOf(selected: seq<Selection>): (ids: seq<string>)
    ensures |ids| == |selected| && forall i :: 0 <= i < |ids| ==> ids[i] == selected[i].workload.id
  {
    seq(|selected|, i requires 0 <= i < |selected| => selected[i].workload.id)
  }

  function ReasonsOf(selected: seq<Selection>): seq<Reason> {
    seq(|selected|, i requires 0 <= i < |selected| => Reason(selected[i].workload.id, selected[i].reason))
  }

  /** Registry criteria look only at graph evidence, not at what planning itself writes back. */
  predicate ReadsOnlyGraph(entries: seq<Workload>) {
    forall w :: w in entries ==> forall c :: c in w.criteria ==> c.source !in {SelectedWorkloadIds, SelectionReasons}
  }

  /** The same workloads in the same order with the same reasons, confidence and fallback flag. */
  predicate SameSelections(a: seq<Selection>, b: seq<Selection>) {
    && |a| == |b|
    && forall i :: 0 <= i < |a| ==>
         a[i].workload == b[i].workload && a[i].reason == b[i].reason
         && a[i].confidence == b[i].confidence && a[i].fallback == b[i].fallback
  }

  lemma {:induction false} LookUpAppended(before: seq<Reason>, selected: seq<Selection>, i: nat)
    requires i < |selected|
    requires forall j, k :: 0 <= j < k < |selected| ==> selected[j].workload.id != selected[k].workload.id
    ensures LookUp(before + ReasonsOf(selected), selected[i].workload.id) == Some(selected[i].reason)
    decreases |selected|
  {
    var n := |selected| - 1;
    var all := before + ReasonsOf(selected);
    assert all[|all| - 1] == Reason(selected[n].workload.id, selected[n].reason);
    assert all[..|all| - 1] == before + ReasonsOf(selected[..n]);
    if i < n {
      LookUpAppended(before, selected[..n], i);
    }
  }

  /** Matching on graph evidence finds the same value after the rewrite; only the text may differ. */
  lemma {:induction false} SameEvidence(o: Setup, c: Criterion, a: seq<Reason>, b: seq<Reason>)
    requires |a| == |b| && forall i :: 0 <= i < |a| ==> a[i].key == b[i].key
    ensures FirstEvidence(o, c, a).Some? <==> FirstEvidence(o, c, b).Some?
  {
    if a != [] {
      SameEvidence(o, c, a[1..], b[1..]);
    }
  }

  lemma {:induction false} SameCriteria(o: Setup, criteria: seq<Criterion>, context: Context, selected: seq<Selection>)
    requires forall c :: c in criteria ==> c.source !in {SelectedWorkloadIds, SelectionReasons}
    ensures FirstCriterion(o, criteria, Rewritten(context, selected)).Some? <==>
            FirstCriterion(o, criteria, context).Some?
  {
    hide Sort;
    if criteria != [] {
      var c, again := criteria[0], Rewritten(context, selected);
      SameEvidence(o, c, CriterionEvidence(context, c.source), CriterionEvidence(again, c.source));
      SameCriteria(o, criteria[1..], context, selected);
    }
  }

  lemma {:induction false} ReasonNotEmpty(o: Setup, criteria: seq<Criterion>, context: Context)
    ensures FirstCriterion(o, criteria, context).Some? ==> FirstCriterion(o, criteria, context).value.reason != ""
  {
    if criteria != [] {
      EvidenceReasonNotEmpty(o, criteria[0], CriterionEvidence(context, criteria[0].source));
      ReasonNotEmpty(o, criteria[1..], context);
    }
  }

  lemma {:induction false} EvidenceReasonNotEmpty(o: Setup, c: Criterion, evidence: seq<Reason>)
    ensures FirstEvidence(o, c, evidence).Some? ==> FirstEvidence(o, c, evidence).value.reason != ""
  {
    if evidence != [] {
      EvidenceReasonNotEmpty(o, c, evidence[1..]);
    }
  }

  lemma CandidateReasonNotEmpty(o: Setup, w: Workload, context: Context)
    ensures Candidate(o, w, context).Some? ==> Candidate(o, w, context).value.reason != ""
  {
    hide FirstCriterion, SelectedReason, FallbackReason;
    ReasonNotEmpty(o, w.criteria, context);
    SelectedReasonNotEmpty(context, w.id);
    FallbackReasonNotEmpty(o, context);
  }

  lemma SelectedReasonNotEmpty(context: Context, id: string)
    ensures SelectedReason(context, id) != ""
  {
  }

  lemma FallbackReasonNotEmpty(o: Setup, context: Context)
    ensures FallbackReason(o, context) != ""
  {
  }

  /** Selections come from the planned entries, once each, with a nonempty reason. */
  lemma {:induction false} SelectedAreEntries(o: Setup, context: Context, entries: seq<Workload>)
    requires GoodRegistry(entries)
    ensures var s := PlanEntries(o, context, entries).selected;
            && (forall i :: 0 <= i < |s| ==> s[i].workload in entries && s[i].reason != "")
            && forall i, j :: 0 <= i < j < |s| ==> s[i].workload.id != s[j].workload.id
  {
    hide Candidate, PlanEntry;
    if entries != [] {
      var n := |entries| - 1;
      SelectedAreEntries(o, context, entries[..n]);
      CandidateReasonNotEmpty(o, entries[n], context);
      var p, w := PlanEntries(o, context, entries[..n]), entries[n];
      var s, s' := p.selected, PlanEntry(o, context, p, w).selected;
      AddedIsCandidate(o, context, p, w);
      LastAdds(o, context, entries);
      if s' != s {
        forall i | 0 <= i < |s| ensures s'[i].workload in entries && s'[i].reason != "" && s'[i].workload.id != w.id {
          assert s'[i] == s[i];
          var j :| 0 <= j < n && entries[..n][j] == s[i].workload;
        }
      } else {
        forall i | 0 <= i < |s| ensures s[i].workload in entries {
          var j :| 0 <= j < n && entries[..n][j] == s[i].workload;
        }
      }
    }
  }

  /** Later entries only add to the selection. */
  lemma {:induction false} SelectionGrows(o: Setup, context: Context, entries: seq<Workload>, k: nat)
    requires k <= |entries|
    ensures PlanEntries(o, context, entries[..k]).selected <= PlanEntries(o, context, entries).selected
  {
    hide Candidate;
    if k < |entries| {
      SelectionGrows(o, context, entries[..|entries| - 1], k);
      assert entries[..|entries| - 1][..k] == entries[..k];
    } else {
      assert entries[..k] == entries;
    }
  }

  /** An entry the first plan passed over is not among the selected IDs. */
  lemma {:induction false} PassedOver(o: Setup, context: Context, entries: seq<Workload>, k: nat)
    requires GoodRegistry(entries) && k < |entries|
    requires PlanEntries(o, context, entries[..k + 1]).selected == PlanEntries(o, context, entries[..k]).selected
    ensures entries[k].id !in IdsOf(PlanEntries(o, context, entries).selected)
  {
    hide PlanEntry;
    if k + 1 == |entries| {
      assert entries[..k + 1] == entries;
      SelectedAreEntries(o, context, entries[..k]);
      var s := PlanEntries(o, context, entries).selected;
      forall i | 0 <= i < |s| ensures s[i].workload.id != entries[k].id {
        var j :| 0 <= j < k && entries[..k][j] == s[i].workload;
      }
    } else {
      var n := |entries| - 1;
      assert entries[..n][..k + 1] == entries[..k + 1] && entries[..n][..k] == entries[..k];
      PassedOver(o, context, entries[..n], k);
      LastAdds(o, context, entries);
      assert entries[..n][k] == entries[k];
    }
  }

  /** How one entry fares in the second plan, given how it fared in the first. */
  lemma EntryStable(o: Setup, context: Context, again: Context, p: Progress, q: Progress, w: Workload)
    requires again.completeness == context.completeness
    requires SameSelections(p.selected, q.selected) && p.used == q.used
    requires var p' := PlanEntry(o, context, p, w);
             var second := Candidate(o, w, again);
             if p'.selected == p.selected
             then second.Some? ==> Candidate(o, w, context).Some?
             else second.Some? && second.value.reason == p'.selected[|p.selected|].reason
    ensures var p', q' := PlanEntry(o, context, p, w), PlanEntry(o, again, q, w);
            SameSelections(p'.selected, q'.selected) && p'.used == q'.used
  {
    hide Candidate;
  }

  lemma {:induction false} PrefixStable(o: Setup, context: Context, entries: seq<Workload>, k: nat)
    requires GoodRegistry(entries) && ReadsOnlyGraph(entries) && k <= |entries|
    ensures var again := Rewritten(context, PlanEntries(o, context, entries).selected);
            var p, q := PlanEntries(o, context, entries[..k]), PlanEntries(o, again, entries[..k]);
            SameSelections(p.selected, q.selected) && p.used == q.used
  {
    hide Candidate, PlanEntry, IdsOf, ReasonsOf;
    if k > 0 {
      var i, w := k - 1, entries[k - 1];
      var all := PlanEntries(o, context, entries).selected;
      var again := Rewritten(context, all);
      PrefixStable(o, context, entries, i);
      assert entries[..k][..i] == entries[..i];
      var p := PlanEntries(o, context, entries[..i]);
      var p' := PlanEntries(o, context, entries[..k]);
      SelectionGrows(o, context, entries, k);
      SelectedAreEntries(o, context, entries);
      LastAdds(o, context, entries[..k]);
      if p'.selected == p.selected {
        PassedOver(o, context, entries, i);
        RejectedStays(o, context, all, w);
      } else {
        assert all[|p.selected|] == p'.selected[|p.selected|];
        AddedIsCandidate(o, context, p, w);
        SelectedStays(o, context, all, |p.selected|);
      }
      EntryStable(o, context, again, p, PlanEntries(o, again, entries[..i]), w);
    }
  }

  lemma RejectedStays(o: Setup, context: Context, all: seq<Selection>, w: Workload)
    requires w.id !in IdsOf(all) && forall c :: c in w.criteria ==> c.source !in {SelectedWorkloadIds, SelectionReasons}
    ensures Candidate(o, w, Rewritten(context, all)).Some? ==> Candidate(o, w, context).Some?
  {
    hide FirstCriterion;
    SameCriteria(o, w.criteria, context, all);
  }

  lemma SelectedStays(o: Setup, context: Context, all: seq<Selection>, i: nat)
    requires i < |all| && all[i].reason != ""
    requires forall j, k :: 0 <= j < k < |all| ==> all[j].workload.id != all[k].workload.id
    requires Candidate(o, all[i].workload, context).Some?
    requires all[i] == SelectionFor(all[i].workload, Candidate(o, all[i].workload, context).value, context)
    ensures var w, again := all[i].workload, Rewritten(context, all);
            Candidate(o, w, again).Some? && Candidate(o, w, again).value.reason == all[i].reason
  {
    hide FirstCriterion;
    LookUpAppended(context.reasons, all, i);
    assert IdsOf(all)[i] == all[i].workload.id;
  }

  lemma OrderedIsGood(o: Setup)
    requires GoodRegistry(o.entries)
    ensures GoodRegistry(OrderedEntries(o)) && forall w :: w in OrderedEntries(o) <==> w in o.entries
  {
    var sorted := OrderedEntries(o);
    assert Distinct(o.entries);
    SortKeepsDistinct(o.entries, WorkloadLeq);
    SortKeepsMembers(o.entries, WorkloadLeq);
    forall i, j | 0 <= i < j < |sorted| ensures sorted[i].id != sorted[j].id {
      assert sorted[i] in o.entries && sorted[j] in o.entries;
    }
  }

  /** Planning again on the rewritten context selects the same workloads in the same order for the same
      reasons, whenever no registry criterion reads what planning writes back. */
  lemma ReplanningIsStable(o: Setup, context: Context)
    requires GoodRegistry(o.entries) && ReadsOnlyGraph(o.entries)
    ensures SameSelections(Plan(o, context).selected, Plan(o, Rewritten(context, Plan(o, context).selected)).selected)
  {
    hide PlanEntries, Rewritten;
    OrderedIsGood(o);
    var entries := OrderedEntries(o);
    PrefixStable(o, context, entries, |entries|);
    assert entries[..|entries|] == entries;
  }

  /** Does the registry hold an entry that is a candidate under `context`? */
  predicate AnyCandidate(o: Setup, entries: seq<Workload>, context: Context) {
    exists i :: 0 <= i < |entries| && Candidate(o, entries[i], context).Some?
  }

  /** A plan that selected nothing dropped something for its budget exactly when it had a candidate at all. */
  lemma {:induction false} BudgetMeansCandidate(o: Setup, context: Context, entries: seq<Workload>)
    requires PlanEntries(o, context, entries).selected == []
    ensures AnyBudget(PlanEntries(o, context, entries).omitted) <==> AnyCandidate(o, entries, context)
  {
    hide Candidate;
    if entries != [] {
      var n := |entries| - 1;
      LastAdds(o, context, entries);
      BudgetMeansCandidate(o, context, entries[..n]);
      var before, after := PlanEntries(o, context, entries[..n]).omitted, PlanEntries(o, context, entries).omitted;
      var last := after[|before|];
      assert after == before + [last] && (last.category == Budget <==> Candidate(o, entries[n], context).Some?);
      assert forall j :: 0 <= j < n ==> entries[..n][j] == entries[j];
      if AnyBudget(before) {
        var i :| 0 <= i < |before| && before[i].category == Budget;
        assert after[i].category == Budget;
        var j :| 0 <= j < n && Candidate(o, entries[..n][j], context).Some?;
        assert Candidate(o, entries[j], context).Some?;
      } else if last.category == Budget {
        assert after[|before|].category == Budget;
      } else {
        assert !AnyCandidate(o, entries[..n], context);
      }
    }
  }

  /** Some entry matches the evidence of the graph itself. */
  predicate AnyGraphMatch(o: Setup, context: Context) {
    exists w :: w in o.entries && FirstCriterion(o, w.criteria, context).Some?
  }

  /** With nothing selected, what is written back is an empty selection: only graph matches remain. */
  lemma CandidatesAfterEmptyPlan(o: Setup, context: Context)
    requires GoodRegistry(o.entries) && ReadsOnlyGraph(o.entries)
    ensures var entries, again := OrderedEntries(o), Rewritten(context, []);
            AnyCandidate(o, entries, again) <==>
              if context.completeness < 1.0 then AnyCandidate(o, entries, context) else AnyGraphMatch(o, context)
    ensures context.completeness >= 1.0 && AnyGraphMatch(o, context) ==> AnyCandidate(o, OrderedEntries(o), context)
  {
    hide OrderedEntries, FirstCriterion, FallbackReason;
    OrderedIsGood(o);
    var entries, again := OrderedEntries(o), Rewritten(context, []);
    forall i | 0 <= i < |entries|
      ensures Candidate(o, entries[i], again).Some? <==>
                if context.completeness < 1.0 then Candidate(o, entries[i], context).Some?
                else FirstCriterion(o, entries[i].criteria, context).Some?
    {
      assert entries[i] in o.entries;
      SameCriteria(o, entries[i].criteria, context, []);
    }
    if context.completeness >= 1.0 && AnyGraphMatch(o, context) {
      var w :| w in o.entries && FirstCriterion(o, w.criteria, context).Some?;
      var i :| 0 <= i < |entries| && entries[i] == w;
      assert Candidate(o, entries[i], context).Some? && Candidate(o, entries[i], again).Some?;
    }
  }

  /** The entry alone fits both budgets. */
  predicate Affordable(o: Setup, w: Workload) {
    o.limits.maxSelected > 0 && w.cost <= o.limits.maxCost
  }

  /** A plan is empty exactly when no candidate is affordable even alone. */
  lemma {:induction false} NothingSelectedIff(o: Setup, context: Context, entries: seq<Workload>)
    ensures var p := PlanEntries(o, context, entries);
            && (p.selected == [] <==> forall i :: 0 <= i < |entries| && Candidate(o, entries[i], context).Some? ==>
                                        !Affordable(o, entries[i]))
            && (p.selected == [] ==> p.used == 0.0)
  {
    hide Candidate;
    if entries != [] {
      var n := |entries| - 1;
      NothingSelectedIff(o, context, entries[..n]);
      LastAdds(o, context, entries);
      assert forall i :: 0 <= i < n ==> entries[..n][i] == entries[i];
    }
  }

  /** The budget of a plan is exhausted exactly when the registry holds a candidate but no affordable one. */
  predicate Unaffordable(o: Setup, context: Context) {
    && (exists w :: w in o.entries && Candidate(o, w, context).Some?)
    && forall w :: w in o.entries && Candidate(o, w, context).Some? ==> !Affordable(o, w)
  }

  lemma ExhaustedIff(o: Setup, context: Context)
    requires GoodRegistry(o.entries)
    ensures PlanOf(o, context).state == BudgetExhausted <==> Unaffordable(o, context)
    ensures Unaffordable(o, context) ==> Plan(o, context).selected == []
  {
    hide Candidate, OrderedEntries, Sort, RequestedTwice, NotRegistered;
    var entries := OrderedEntries(o);
    OrderedIsGood(o);
    NothingSelectedIff(o, context, entries);
    RequestsAreNotBudget(o, context, Plan(o, context).omitted);
    if Plan(o, context).selected == [] {
      BudgetMeansCandidate(o, context, entries);
    }
    assert forall w :: w in o.entries ==> exists i :: 0 <= i < |entries| && entries[i] == w;
    assert forall i :: 0 <= i < |entries| ==> entries[i] in o.entries;
  }

  /** Requested IDs that cannot be planned say nothing about budgets. */
  lemma RequestsAreNotBudget(o: Setup, context: Context, rest: seq<Omission>)
    ensures AnyBudget(RequestOmissions(o, context) + rest) <==> AnyBudget(rest)
  {
    hide RequestedTwice, NotRegistered;
    var before := RequestOmissions(o, context);
    if AnyBudget(rest) {
      var i :| 0 <= i < |rest| && rest[i].category == Budget;
      assert (before + rest)[|before| + i].category == Budget;
    }
  }

  /** Workloads were requested by ID only, and none of them is affordable: the graph is complete, no entry
      matches it, and every requested entry exceeds a budget by itself. */
  predicate ForgetsRequests(o: Setup, context: Context) {
    && context.completeness >= 1.0 && !AnyGraphMatch(o, context)
    && (exists w :: w in o.entries && w.id in context.selectedIds)
    && forall w :: w in o.entries && w.id in context.selectedIds ==> !Affordable(o, w)
  }

  lemma ForgetsIff(o: Setup, context: Context)
    ensures ForgetsRequests(o, context) <==>
              context.completeness >= 1.0 && !AnyGraphMatch(o, context) && Unaffordable(o, context)
  {
    hide FirstCriterion;
  }

  /** Planning again reports the same plan state if and only if it does not forget requests: when workloads were
      requested by ID alone and none is affordable, the rewritten context no longer requests them, and the
      exhausted budget turns into "nothing applicable". */
  lemma StateSurvivesReplanningIff(o: Setup, context: Context)
    requires GoodRegistry(o.entries) && ReadsOnlyGraph(o.entries)
    ensures PlanOf(o, Rewritten(context, Plan(o, context).selected)).state == PlanOf(o, context).state
            <==> !ForgetsRequests(o, context)
  {
    hide Plan, PlanOf, FirstCriterion, Candidate, OrderedEntries, Unaffordable, ForgetsRequests, AnyGraphMatch;
    hide AnyCandidate;
    var p, again := Plan(o, context).selected, Rewritten(context, Plan(o, context).selected);
    ReplanningIsStable(o, context);
    ExhaustedIff(o, context);
    ForgetsIff(o, context);
    StateOfPlan(o, context);
    StateOfPlan(o, again);
    if p == [] {
      assert again == Rewritten(context, []);
      CandidatesAfterEmptyPlan(o, context);
    }
  }

  lemma StateOfPlan(o: Setup, context: Context)
    ensures PlanOf(o, context).state ==
              if Plan(o, context).selected != [] then
                (if context.completeness < 1.0 then IncompleteWithFallback else Planned)
              else if AnyCandidate(o, OrderedEntries(o), context) then BudgetExhausted
              else if context.completeness < 1.0 then IncompleteNoFallback else CompleteNoApplicable
  {
    hide Candidate, OrderedEntries, RequestOmissions, Sort, AnyBudget, AnyCandidate;
    RequestsAreNotBudget(o, context, Plan(o, context).omitted);
    if Plan(o, context).selected == [] {
      BudgetMeansCandidate(o, context, OrderedEntries(o));
    }
  }

  /** How a forgotten request is reported: first as an exhausted budget, then as nothing applicable. */
  lemma ForgottenRequests(o: Setup, context: Context)
    requires GoodRegistry(o.entries) && ReadsOnlyGraph(o.entries) && ForgetsRequests(o, context)
    ensures PlanOf(o, context).state == BudgetExhausted
    ensures PlanOf(o, Rewritten(context, Plan(o, context).selected)).state == CompleteNoApplicable
  {
    hide Plan, PlanOf, FirstCriterion, Candidate, OrderedEntries, Unaffordable, AnyGraphMatch, AnyCandidate;
    ForgetsIff(o, context);
    ExhaustedIff(o, context);
    StateSurvivesReplanningIff(o, context);
    ReplanningIsStable(o, context);
    StateOfPlan(o, Rewritten(context, Plan(o, context).selected));
  }

  /** A registry whose only workload was requested by ID and is too expensive. */
  lemma ReplanningMayForget()
    ensures exists o: Setup, context: Context ::
              && GoodRegistry(o.entries) && ReadsOnlyGraph(o.entries)
              && PlanOf(o, context).state == BudgetExhausted
              && PlanOf(o, Rewritten(context, Plan(o, context).selected)).state == CompleteNoApplicable
  {
    hide FirstCriterion, CriterionEvidence, Plan, PlanOf, Rewritten;
    var a := Workload("a", Pytest, "a.py", 0, 400.0, [Criterion(ChangedSymbols, "f", ExactMatch)], false);
    var o := Setup([a], Limits(8, 300.0), [], text => text, number => "");
    var context := Context(map[], ["a"], [], 1.0);
    assert a in o.entries;
    NoEvidence(o, a.criteria[0], context);
    ForgottenRequests(o, context);
  }

  /** Why the registry must not read what is written back: a second workload selected by the first one's ID
      joins only in the second plan. */
  lemma ReplanningMayAdd()
    ensures exists o: Setup, context: Context ::
              GoodRegistry(o.entries)
              && |Plan(o, context).selected| < |Plan(o, Rewritten(context, Plan(o, context).selected)).selected|
  {
    hide FirstCriterion, CriterionEvidence, CriterionReason, Plan, SelectedReason, LookUp;
    var a := Workload("a", Pytest, "a.py", 0, 1.0, [Criterion(ChangedSymbols, "f", ExactMatch)], false);
    var b := Workload("b", Pytest, "b.py", 1, 1.0, [Criterion(SelectedWorkloadIds, "a", ExactMatch)], false);
    var o := Setup([a, b], Limits(2, 2.0), [], text => text, number => "");
    var context := Context(map[ChangedSymbols := ["f"]], [], [], 1.0);
    OneEvidence(o, a.criteria[0], context, "f");
    var again := Rewritten(context, [SelectionFor(a, Candidate(o, a, context).value, context)]);
    OneEvidence(o, b.criteria[0], again, "a");
    NoEvidence(o, b.criteria[0], context);
    SecondJoins(o, context, a, b);
  }

  lemma SecondJoins(o: Setup, context: Context, a: Workload, b: Workload)
    requires o.entries == [a, b] && a.priority < b.priority && context.completeness >= 1.0
    requires o.limits.maxSelected >= 2 && 0.0 + a.cost <= o.limits.maxCost && a.cost + b.cost <= o.limits.maxCost
    requires Candidate(o, a, context).Some? && Candidate(o, b, context).None?
    requires Candidate(o, b, Rewritten(context, [SelectionFor(a, Candidate(o, a, context).value, context)])).Some?
    ensures |Plan(o, context).selected| == 1
    ensures |Plan(o, Rewritten(context, Plan(o, context).selected)).selected| == 2
  {
    hide Plan, OrderedEntries, FirstCriterion, SelectedReason;
    var first := SelectionFor(a, Candidate(o, a, context).value, context);
    var again := Rewritten(context, [first]);
    TwoEntries(o, context, a, b);
    TwoEntries(o, again, a, b);
    assert IdsOf([first])[0] == a.id;
    assert Candidate(o, a, again).Some?;
    assert Plan(o, context).selected == [first];
  }

  lemma OneEvidence(o: Setup, c: Criterion, context: Context, value: string)
    requires c.matching == ExactMatch && c.value == value && value != "" && Visible(value[0])
    requires c.source != SelectionReasons
    requires (if c.source == SelectedWorkloadIds then context.selectedIds
              else if c.source in context.evidence then context.evidence[c.source] else []) == [value]
    ensures FirstCriterion(o, [c], context).Some?
  {
    OneValue(value);
    OneKey(context, c.source, value);
    hide CriterionEvidence, CriterionReason;
    var evidence := CriterionEvidence(context, c.source);
    assert NotBlank(evidence[0].key);
    assert FirstEvidence(o, c, evidence).Some?;
  }

  lemma NoEvidence(o: Setup, c: Criterion, context: Context)
    requires c.source != SelectionReasons
    requires if c.source == SelectedWorkloadIds then context.selectedIds == [] else c.source !in context.evidence
    ensures FirstCriterion(o, [c], context).None?
  {
    hide CriterionReason;
    assert CriterionEvidence(context, c.source) == [];
    assert [c][1..] == [];
  }

  lemma OneKey(context: Context, source: Source, value: string)
    requires source != SelectionReasons
    requires (if source == SelectedWorkloadIds then context.selectedIds
              else if source in context.evidence then context.evidence[source] else []) == [value]
    ensures |CriterionEvidence(context, source)| == 1 && CriterionEvidence(context, source)[0].key == value
  {
    OneValue(value);
    hide Sort, Deduplicated;
  }

  lemma OneValue(value: string)
    ensures Sort(Deduplicated([value]), StringLeq) == [value]
  {
    var values := [value];
    assert values[..0] == [];
    assert Deduplicated(values) == values;
    assert Sort(values, StringLeq) == Insert(value, [], StringLeq);
  }

  lemma TwoEntries(o: Setup, context: Context, a: Workload, b: Workload)
    requires o.entries == [a, b] && a.priority < b.priority
    ensures OrderedEntries(o) == [a, b]
    ensures Plan(o, context) == PlanEntry(o, context, PlanEntry(o, context, Progress([], [], 0.0), a), b)
  {
    hide PlanEntry;
    assert [a, b][..1] == [a] && [a][..0] == [];
    assert Sort([a], WorkloadLeq) == [a];
    assert PlanEntries(o, context, [a]) == PlanEntry(o, context, Progress([], [], 0.0), a);
  }
}
