/** Which workloads a plan selects and why it omits the others, read off the registry, the context and the limits
    (`lou/repository/workloads.py`). */
module WorkloadChoice {
  import opened Common
  import opened Sorting
  import opened WorkloadPlanner

  // ----- when a criterion applies

  /** The graph says this value about this source: it is listed there, or it is the last reason given for some key. */
  ghost predicate Says(context: Context, source: Source, value: string) {
    match source
    case SelectionReasons => exists i: nat :: IsLastReason(context.reasons, i) && context.reasons[i].text == value
    case SelectedWorkloadIds => value in context.selectedIds
    case _ => source in context.evidence && value in context.evidence[source]
  }

  /** No later reason has the same key. */
  predicate IsLastReason(reasons: seq<Reason>, i: nat) {
    i < |reasons| && forall j :: i < j < |reasons| ==> reasons[j].key != reasons[i].key
  }

  /** The value equals the criterion's, begins with it, or contains it up to case. */
  ghost predicate Satisfies(o: Setup, c: Criterion, value: string) {
    match c.matching
    case ExactMatch => value == c.value
    case PrefixMatch => exists rest :: value == c.value + rest
    case ContainsMatch => exists before, after :: Surrounds(o.fold(value), before, o.fold(c.value), after)
  }

  predicate Surrounds(text: string, before: string, part: string, after: string) {
    text == before + part + after
  }

  lemma ContainsIff(text: string, part: string)
    ensures Contains(text, part) <==> exists before, after :: Surrounds(text, before, part, after)
  {
    if Contains(text, part) {
      var i :| 0 <= i <= |text| && part <= text[i..];
      assert text == text[..i] + part + text[i..][|part|..];
      assert Surrounds(text, text[..i], part, text[i..][|part|..]);
    }
    if before, after :| Surrounds(text, before, part, after) {
      assert text[|before|..] == part + after;
    }
  }

  lemma MatchesIff(o: Setup, c: Criterion, value: string)
    ensures Matches(o, c, value) <==> Satisfies(o, c, value)
  {
    hide Contains, Surrounds;
    if c.matching.PrefixMatch? {
      if c.value <= value {
        assert value == c.value + value[|c.value|..];
      }
    } else if c.matching.ContainsMatch? {
      ContainsIff(o.fold(value), o.fold(c.value));
    }
  }

  /** The entry is wanted: the graph selected it by ID, or says something nonblank that satisfies a criterion of it. */
  ghost predicate Wanted(o: Setup, w: Workload, context: Context) {
    w.id in context.selectedIds
    || exists c :: c in w.criteria && Applies(o, c, context)
  }

  ghost predicate Applies(o: Setup, c: Criterion, context: Context) {
    exists value :: Supports(o, c, context, value)
  }

  ghost predicate Supports(o: Setup, c: Criterion, context: Context, value: string) {
    Says(context, c.source, value) && Satisfies(o, c, value)
    && exists i :: 0 <= i < |value| && value[i] !in {' ', '\t', '\n'}
  }

  lemma {:induction false} LookUpLast(reasons: seq<Reason>, key: string)
    ensures LookUp(reasons, key).Some? <==> exists i :: 0 <= i < |reasons| && reasons[i].key == key
    ensures LookUp(reasons, key).Some? ==>
              exists i: nat :: IsLastReason(reasons, i) && reasons[i] == Reason(key, LookUp(reasons, key).value)
    ensures forall i: nat :: IsLastReason(reasons, i) && reasons[i].key == key ==>
              LookUp(reasons, key) == Some(reasons[i].text)
  {
    if reasons != [] {
      var n := |reasons| - 1;
      LookUpLast(reasons[..n], key);
      if reasons[n].key == key {
        assert IsLastReason(reasons, n);
      } else {
        forall i: nat | i < n
          ensures IsLastReason(reasons[..n], i) && reasons[i].key == key ==> IsLastReason(reasons, i)
        {
        }
        forall i: nat | IsLastReason(reasons, i) && reasons[i].key == key ensures IsLastReason(reasons[..n], i) {
          assert i != n;
        }
      }
    }
  }

  ghost predicate Lists(evidence: seq<Reason>, value: string) {
    exists k :: 0 <= k < |evidence| && evidence[k].key == value
  }

  /** The evidence a criterion is held against is what the graph says about its source. */
  lemma EvidenceIff(context: Context, source: Source, value: string)
    requires NotBlank(value)
    ensures Lists(CriterionEvidence(context, source), value) <==> Says(context, source, value)
  {
    if source == SelectionReasons {
      ReasonsSay(context, value);
    } else {
      var values := if source == SelectedWorkloadIds then context.selectedIds
                    else if source in context.evidence then context.evidence[source] else [];
      SortKeepsMembers(Deduplicated(values), StringLeq);
      DeduplicatedMembers(values, value);
      ListedKeys(context, source, Sort(Deduplicated(values), StringLeq), value);
    }
  }

  lemma ListedKeys(context: Context, source: Source, keys: seq<string>, value: string)
    requires |CriterionEvidence(context, source)| == |keys|
    requires forall k :: 0 <= k < |keys| ==> CriterionEvidence(context, source)[k].key == keys[k]
    ensures Lists(CriterionEvidence(context, source), value) <==> value in keys
  {
    hide CriterionEvidence;
    if value in keys {
      var k :| 0 <= k < |keys| && keys[k] == value;
      assert CriterionEvidence(context, source)[k].key == value;
    }
  }

  /** The keys that reasons were given for, as the evidence lists them. */
  function ReasonKeys(context: Context): seq<string> {
    Sort(Deduplicated(KeysOf(context.reasons)), StringLeq)
  }

  lemma ReasonKeysSay(context: Context, key: string)
    ensures key in ReasonKeys(context) <==> LookUp(context.reasons, key).Some?
  {
    SortKeepsMembers(Deduplicated(KeysOf(context.reasons)), StringLeq);
    DeduplicatedMembers(KeysOf(context.reasons), key);
    LookUpLast(context.reasons, key);
    hide Sort, Deduplicated, LookUp;
    if i :| 0 <= i < |context.reasons| && context.reasons[i].key == key {
      assert KeysOf(context.reasons)[i] == key;
    }
  }

  lemma ReasonEvidence(context: Context, k: nat)
    requires k < |ReasonKeys(context)|
    ensures |CriterionEvidence(context, SelectionReasons)| == |ReasonKeys(context)|
    ensures CriterionEvidence(context, SelectionReasons)[k].key
            == OrDefault(LookUp(context.reasons, ReasonKeys(context)[k]), "")
  {
  }

  lemma ReasonsSay(context: Context, value: string)
    requires NotBlank(value)
    ensures Lists(CriterionEvidence(context, SelectionReasons), value) <==> Says(context, SelectionReasons, value)
  {
    var evidence := CriterionEvidence(context, SelectionReasons);
    var keys := ReasonKeys(context);
    if Says(context, SelectionReasons, value) {
      var i: nat :| IsLastReason(context.reasons, i) && context.reasons[i].text == value;
      LookUpLast(context.reasons, context.reasons[i].key);
      ReasonKeysSay(context, context.reasons[i].key);
      var k :| 0 <= k < |keys| && keys[k] == context.reasons[i].key;
      ReasonEvidence(context, k);
      hide CriterionEvidence, ReasonKeys, LookUp;
      assert evidence[k].key == value;
    }
    if Lists(evidence, value) {
      var k :| 0 <= k < |evidence| && evidence[k].key == value;
      assert |evidence| == |keys|;
      ReasonEvidence(context, k);
      LookUpLast(context.reasons, keys[k]);
      hide CriterionEvidence, ReasonKeys, LookUp, IsLastReason;
    }
  }

  lemma {:induction false} FirstEvidenceIff(o: Setup, c: Criterion, evidence: seq<Reason>)
    ensures FirstEvidence(o, c, evidence).Some? <==>
              exists value :: Lists(evidence, value) && NotBlank(value) && Matches(o, c, value)
    ensures FirstEvidence(o, c, evidence).Some? ==>
              var m := FirstEvidence(o, c, evidence).value;
              m.source == Some(c.source) && NotBlank(m.value) && Matches(o, c, m.value) && Lists(evidence, m.value)
  {
    if evidence != [] {
      hide NotBlank, Matches, Lists;
      FirstEvidenceIff(o, c, evidence[1..]);
      ListsFirst(evidence);
    }
  }

  lemma ListsFirst(evidence: seq<Reason>)
    requires evidence != []
    ensures forall value :: Lists(evidence, value) <==> value == evidence[0].key || Lists(evidence[1..], value)
  {
    forall value ensures Lists(evidence, value) <==> value == evidence[0].key || Lists(evidence[1..], value) {
      if Lists(evidence[1..], value) {
        var k :| 0 <= k < |evidence[1..]| && evidence[1..][k].key == value;
        assert evidence[k + 1].key == value;
      }
      if Lists(evidence, value) && value != evidence[0].key {
        var k :| 0 <= k < |evidence| && evidence[k].key == value;
        assert evidence[1..][k - 1].key == value;
      }
    }
  }

  lemma CriterionIff(o: Setup, c: Criterion, context: Context)
    ensures var m := FirstEvidence(o, c, CriterionEvidence(context, c.source));
            && (m.Some? <==> Applies(o, c, context))
            && (m.Some? ==> m.value.source == Some(c.source) && Supports(o, c, context, m.value.value))
  {
    hide Matches, Satisfies, Says, CriterionEvidence, Lists, FirstEvidence;
    var evidence := CriterionEvidence(context, c.source);
    FirstEvidenceIff(o, c, evidence);
    if value :| Supports(o, c, context, value) {
      EvidenceIff(context, c.source, value);
      MatchesIff(o, c, value);
      assert Lists(evidence, value);
    }
    var m := FirstEvidence(o, c, evidence);
    if m.Some? {
      EvidenceIff(context, c.source, m.value.value);
      MatchesIff(o, c, m.value.value);
      assert Supports(o, c, context, m.value.value);
    }
  }

  lemma {:induction false} FirstCriterionIff(o: Setup, criteria: seq<Criterion>, context: Context)
    ensures var m := FirstCriterion(o, criteria, context);
            && (m.Some? <==> exists c :: c in criteria && Applies(o, c, context))
            && (m.Some? ==> exists c :: c in criteria && m.value.source == Some(c.source)
                                        && Supports(o, c, context, m.value.value))
  {
    hide Supports, Applies, CriterionEvidence;
    if criteria != [] {
      CriterionIff(o, criteria[0], context);
      FirstCriterionIff(o, criteria[1..], context);
      assert criteria == [criteria[0]] + criteria[1..];
    }
  }

  /** An entry matches the complete graph if and only if it is wanted; the evidence recorded for it is one that does. */
  lemma MatchEntryIff(o: Setup, w: Workload, context: Context)
    ensures MatchEntry(o, w, context).Some? <==> Wanted(o, w, context)
    ensures MatchEntry(o, w, context).Some? ==>
              var m := MatchEntry(o, w, context).value;
              if w.id in context.selectedIds then m.source == Some(SelectedWorkloadIds) && m.value == w.id
              else exists c :: c in w.criteria && m.source == Some(c.source) && Supports(o, c, context, m.value)
  {
    hide Supports;
    FirstCriterionIff(o, w.criteria, context);
  }

  /** The graph gives this text for the key, and no later one. */
  ghost predicate Gives(context: Context, key: string, text: string) {
    exists i: nat :: IsLastReason(context.reasons, i) && context.reasons[i] == Reason(key, text)
  }

  predicate Tells(r: Reason, m: Match) {
    r.key == m.value && (r.text != "" ==> m.reason == r.text)
  }

  lemma {:induction false} FirstReasonSays(o: Setup, c: Criterion, evidence: seq<Reason>)
    ensures var m := FirstEvidence(o, c, evidence);
            m.Some? ==> m.value.reason != "" && exists k :: 0 <= k < |evidence| && Tells(evidence[k], m.value)
  {
    hide NotBlank, Matches;
    if evidence != [] {
      FirstReasonSays(o, c, evidence[1..]);
      var m := FirstEvidence(o, c, evidence[1..]);
      if m.Some? {
        var k :| 0 <= k < |evidence[1..]| && Tells(evidence[1..][k], m.value);
        assert evidence[k + 1] == evidence[1..][k];
      }
    }
  }

  lemma CriterionReasonSays(o: Setup, c: Criterion, context: Context)
    ensures var m := FirstEvidence(o, c, CriterionEvidence(context, c.source));
            m.Some? ==>
              && m.value.reason != ""
              && (c.source == SelectionReasons ==> m.value.reason == m.value.value)
              && (c.source != SelectionReasons ==>
                    forall text :: Gives(context, m.value.value, text) && text != "" ==> m.value.reason == text)
  {
    hide CriterionEvidence, Gives, FirstEvidence;
    var evidence := CriterionEvidence(context, c.source);
    FirstReasonSays(o, c, evidence);
    var m := FirstEvidence(o, c, evidence);
    if m.Some? {
      var k :| 0 <= k < |evidence| && Tells(evidence[k], m.value);
      FirstEvidenceIff(o, c, evidence);
      EvidenceText(context, c.source, k);
      KeyIsNotEmpty(m.value.value);
    }
  }

  lemma KeyIsNotEmpty(value: string)
    requires NotBlank(value)
    ensures value != ""
  {
  }

  lemma EvidenceText(context: Context, source: Source, k: nat)
    requires k < |CriterionEvidence(context, source)|
    ensures var r := CriterionEvidence(context, source)[k];
            if source == SelectionReasons then r.text == r.key
            else forall text :: Gives(context, r.key, text) && text != "" ==> r.text == text
  {
    var r := CriterionEvidence(context, source)[k];
    if source != SelectionReasons {
      assert r.text == OrDefault(LookUp(context.reasons, r.key), "");
      hide CriterionEvidence, LookUp, IsLastReason;
      LookUpLast(context.reasons, r.key);
    }
  }

  lemma {:induction false} FirstCriterionReason(o: Setup, criteria: seq<Criterion>, context: Context)
    ensures var m := FirstCriterion(o, criteria, context);
            m.Some? ==> ReasonIsGiven(context, m.value)
  {
    hide CriterionEvidence;
    if criteria != [] {
      CriterionReasonSays(o, criteria[0], context);
      CriterionIff(o, criteria[0], context);
      FirstCriterionReason(o, criteria[1..], context);
    }
  }

  /** A match's reason is the graph's own for the value it matched, if it gave one, and never empty. */
  ghost predicate ReasonIsGiven(context: Context, m: Match) {
    && m.reason != ""
    && if m.source == Some(SelectionReasons) then m.reason == m.value
       else forall text :: Gives(context, m.value, text) && text != "" ==> m.reason == text
  }

  lemma MatchReasonSays(o: Setup, w: Workload, context: Context)
    ensures MatchEntry(o, w, context).Some? ==> ReasonIsGiven(context, MatchEntry(o, w, context).value)
  {
    FirstCriterionReason(o, w.criteria, context);
    LookUpLast(context.reasons, w.id);
  }

  // ----- greedy choice

  /** The entry may run: on a complete graph it is wanted, on an incomplete one it is a configured eligible fallback. */
  ghost predicate MayRun(o: Setup, w: Workload, context: Context) {
    if context.completeness < 1.0 then w.id in o.fallbacks && w.fallbackEligible else Wanted(o, w, context)
  }

  lemma MayRunIff(o: Setup, w: Workload, context: Context)
    ensures Candidate(o, w, context).Some? <==> MayRun(o, w, context)
  {
    hide Wanted, MatchEntry, FallbackReason;
    MatchEntryIff(o, w, context);
  }

  /** There is room for the entry after what was selected before it. */
  predicate HasRoom(o: Setup, before: seq<Selection>, w: Workload) {
    |before| < o.limits.maxSelected && CostOf(before) + w.cost <= o.limits.maxCost
  }

  /** What became of the last of these entries: it is selected if and only if it may run and there is room, and else
      omitted for want of room, of evidence, or of a complete graph. */
  lemma LastEntryIff(o: Setup, context: Context, entries: seq<Workload>)
    requires entries != [] && o.limits.maxCost >= 0.0
    ensures var n := |entries| - 1;
            var before, after, w := PlanEntries(o, context, entries[..n]), PlanEntries(o, context, entries), entries[n];
            var incomplete := context.completeness < 1.0;
            if MayRun(o, w, context) && HasRoom(o, before.selected, w) then
              && after.omitted == before.omitted && |after.selected| == |before.selected| + 1
              && before.selected <= after.selected && after.selected[|before.selected|].workload == w
              && after.selected[|before.selected|].fallback == incomplete
              && after.selected[|before.selected|].confidence
                 == context.completeness * if incomplete then 0.5 else 1.0
            else
              && after.selected == before.selected
              && after.omitted == before.omitted
                                  + [Omission(w.id, if MayRun(o, w, context) then Budget
                                                    else if incomplete then IncompleteGraph else NodeEvidence)]
  {
    hide MayRun, Candidate;
    var n := |entries| - 1;
    PlanWithinBudget(o, context, entries[..n]);
    MayRunIff(o, entries[n], context);
  }

  /** Tests before static analysis before custom checks before load tests. */
  predicate Before(a: WorkloadType, b: WorkloadType) {
    match a
    case Pytest => b != Pytest
    case Semgrep => b == Custom || b == K6
    case Custom => b == K6
    case K6 => false
  }

  /** The entries are planned by priority, then by type, then by ID, each exactly once. */
  lemma EntriesAreOrdered(o: Setup)
    ensures multiset(OrderedEntries(o)) == multiset(o.entries)
    ensures forall i, j :: 0 <= i < j < |OrderedEntries(o)| ==>
              var a, b := OrderedEntries(o)[i], OrderedEntries(o)[j];
              || a.priority < b.priority
              || (a.priority == b.priority && Before(a.workloadType, b.workloadType))
              || (a.priority == b.priority && a.workloadType == b.workloadType && StringLeq(a.id, b.id))
  {
    WorkloadsAreOrdered();
    SortSorts(o.entries, WorkloadLeq);
    forall a, b ensures TypeOrder(a) < TypeOrder(b) <==> Before(a, b) {
    }
    hide Sort;
  }

  lemma WorkloadsAreOrdered()
    ensures TotalPreorder(WorkloadLeq)
  {
    forall x, y ensures WorkloadLeq(x, y) || WorkloadLeq(y, x) {
      StringTotal(x.id, y.id);
    }
    forall x, y, z | WorkloadLeq(x, y) && WorkloadLeq(y, z) ensures WorkloadLeq(x, z) {
      if x.priority == y.priority == z.priority && x.workloadType == y.workloadType == z.workloadType {
        StringTransitive(x.id, y.id, z.id);
      }
    }
  }

  /** Unless the budget is exhausted, the state says whether the graph was complete and anything was selected. */
  lemma PlanStateSays(o: Setup, context: Context)
    ensures var plan := PlanOf(o, context);
            var none, incomplete := plan.selected == [], context.completeness < 1.0;
            && (plan.state == BudgetExhausted ==> none)
            && (plan.state == Planned <==> !none && !incomplete)
            && (plan.state == IncompleteWithFallback <==> !none && incomplete)
            && (plan.state == CompleteNoApplicable <==> none && !incomplete && plan.state != BudgetExhausted)
            && (plan.state == IncompleteNoFallback <==> none && incomplete && plan.state != BudgetExhausted)
  {
    hide Plan, Sort, RequestOmissions, PlanConfidence, AnyBudget;
  }

  /** The omissions are listed by ID and then by category, each one the plan made and none else. */
  lemma OmissionsAreOrdered(o: Setup, context: Context)
    ensures var omitted := PlanOf(o, context).omitted;
            && multiset(omitted) == multiset(RequestOmissions(o, context) + Plan(o, context).omitted)
            && forall i, j :: 0 <= i < j < |omitted| ==>
                 if omitted[i].id != omitted[j].id then StringLeq(omitted[i].id, omitted[j].id)
                 else StringLeq(CategoryName(omitted[i].category), CategoryName(omitted[j].category))
  {
    hide Plan, RequestOmissions, Sort;
    OmissionsOrder();
    SortSorts(RequestOmissions(o, context) + Plan(o, context).omitted, OmissionLeq);
  }

  lemma OmissionsOrder()
    ensures TotalPreorder(OmissionLeq)
  {
    forall x, y ensures OmissionLeq(x, y) || OmissionLeq(y, x) {
      StringTotal(x.id, y.id);
      StringTotal(CategoryName(x.category), CategoryName(y.category));
    }
    forall x, y, z | OmissionLeq(x, y) && OmissionLeq(y, z) ensures OmissionLeq(x, z) {
      StringTotal(x.id, y.id);
      StringTotal(y.id, z.id);
      StringTransitive(x.id, y.id, z.id);
      if x.id == y.id == z.id {
        StringTransitive(CategoryName(x.category), CategoryName(y.category), CategoryName(z.category));
      }
    }
  }
}
