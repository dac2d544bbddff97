/** Greedy workload planning and planning again from its own result (`lou/repository/workloads.py`,
    `lou/application/live.py`). */
module WorkloadPlanner {
  import opened Common
  import opened Sorting

  datatype WorkloadType = Pytest | Semgrep | Custom | K6

  datatype Source = ChangedSymbols | AffectedSymbols | AffectedTests | AffectedEndpoints | AffectedDataDependencies
                  | SelectedWorkloadIds | SelectionReasons

  datatype Matching = ExactMatch | PrefixMatch | ContainsMatch

  datatype Criterion = Criterion(source: Source, value: string, matching: Matching)

  datatype Workload = Workload(id: string, workloadType: WorkloadType, definitionPath: string, priority: nat,
                               cost: real, criteria: seq<Criterion>, fallbackEligible: bool)

  /** A dictionary entry; in a list of reasons the last entry of a key is the one that counts. */
  datatype Reason = Reason(key: string, text: string)

  datatype Context = Context(evidence: map<Source, seq<string>>, selectedIds: seq<string>, reasons: seq<Reason>,
                             completeness: real)

  datatype Limits = Limits(maxSelected: nat, maxCost: real)

  datatype Match = Match(source: Option<Source>, value: string, reason: string)

  datatype Selection = Selection(workload: Workload, reason: string, confidence: real, fallback: bool,
                                 evidenceSource: Option<Source>, evidenceValue: string)

  datatype PlanState = BudgetExhausted | IncompleteWithFallback | IncompleteNoFallback | Planned | CompleteNoApplicable

  datatype Category = NodeEvidence | Budget | IncompleteGraph | Duplicate | Unregistered

  datatype Omission = Omission(id: string, category: Category)

  datatype Progress = Progress(selected: seq<Selection>, omitted: seq<Omission>, used: real)

  datatype ValidationPlan = ValidationPlan(selected: seq<Selection>, omitted: seq<Omission>, completeness: real,
                                           confidence: real, state: PlanState, used: real)

  /** The request besides the context: registry entries, limits, fallbacks, `str.casefold`, and how a
      completeness is written with three decimals. */
  datatype Setup = Setup(entries: seq<Workload>, limits: Limits, fallbacks: seq<string>, fold: string -> string,
                         show: real -> string)

  /** What the registry's constructor checked. */
  predicate GoodRegistry(entries: seq<Workload>) {
    forall i, j :: 0 <= i < j < |entries| ==> entries[i].id != entries[j].id
  }

  // ----- order

  function TypeOrder(t: WorkloadType): nat {
    match t case Pytest => 0 case Semgrep => 1 case Custom => 2 case K6 => 3
  }

  predicate WorkloadLeq(a: Workload, b: Workload) {
    if a.priority != b.priority then a.priority < b.priority
    else if a.workloadType != b.workloadType then TypeOrder(a.workloadType) < TypeOrder(b.workloadType)
    else StringLeq(a.id, b.id)
  }

  function OrderedEntries(o: Setup): seq<Workload> {
    Sort(o.entries, WorkloadLeq)
  }

  // ----- graph evidence

  function LookUp(reasons: seq<Reason>, key: string): Option<string> {
    if reasons == [] then None
    else if reasons[|reasons| - 1].key == key then Some(reasons[|reasons| - 1].text)
    else LookUp(reasons[..|reasons| - 1], key)
  }

  /** `value or default` for strings. */
  function OrDefault(text: Option<string>, default: string): string {
    if text.Some? && text.value != "" then text.value else default
  }

  function Deduplicated(values: seq<string>): seq<string> {
    if values == [] then []
    else
      var rest, last := Deduplicated(values[..|values| - 1]), values[|values| - 1];
      if last in rest then rest else rest + [last]
  }

  predicate Visible(c: char) {
    c != ' ' && c != '\t' && c != '\n'
  }

  /** `value.strip()` is nonempty. */
  predicate NotBlank(value: string) {
    exists i :: 0 <= i < |value| && Visible(value[i])
  }

  function KeysOf(reasons: seq<Reason>): seq<string> {
    seq(|reasons|, i requires 0 <= i < |reasons| => reasons[i].key)
  }

  /** `_criterion_evidence`: values in order, each with the text a match would report. */
  function CriterionEvidence(context: Context, source: Source): seq<Reason> {
    if source == SelectionReasons then
      var keys := Sort(Deduplicated(KeysOf(context.reasons)), StringLeq);
      seq(|keys|, i requires 0 <= i < |keys| =>
        var text := OrDefault(LookUp(context.reasons, keys[i]), ""); Reason(text, text))
    else
      var values := if source == SelectedWorkloadIds then context.selectedIds
                    else if source in context.evidence then context.evidence[source] else [];
      var keys := Sort(Deduplicated(values), StringLeq);
      seq(|keys|, i requires 0 <= i < |keys| => Reason(keys[i], OrDefault(LookUp(context.reasons, keys[i]), "")))
  }

  /** `_matches`. */
  predicate Matches(o: Setup, c: Criterion, evidence: string) {
    match c.matching
    case ExactMatch => evidence == c.value
    case PrefixMatch => c.value <= evidence
    case ContainsMatch => Contains(o.fold(evidence), o.fold(c.value))
  }

  function SourceName(source: Source): string {
    match source
    case ChangedSymbols => "changed_symbols"
    case AffectedSymbols => "affected_symbols"
    case AffectedTests => "affected_tests"
    case AffectedEndpoints => "affected_endpoints"
    case AffectedDataDependencies => "affected_data_dependencies"
    case SelectedWorkloadIds => "selected_workload_ids"
    case SelectionReasons => "selection_reasons"
  }

  function CriterionReason(source: Source, value: string): string {
    "Matched registered graph criterion " + SourceName(source) + "=" + value + "."
  }

  function FirstEvidence(o: Setup, c: Criterion, evidence: seq<Reason>): Option<Match> {
    if evidence == [] then None
    else if NotBlank(evidence[0].key) && Matches(o, c, evidence[0].key) then
      Some(Match(Some(c.source), evidence[0].key,
                 if evidence[0].text != "" then evidence[0].text else CriterionReason(c.source, evidence[0].key)))
    else FirstEvidence(o, c, evidence[1..])
  }

  function FirstCriterion(o: Setup, criteria: seq<Criterion>, context: Context): Option<Match> {
    if criteria == [] then None
    else
      var m := FirstEvidence(o, criteria[0], CriterionEvidence(context, criteria[0].source));
      if m.Some? then m else FirstCriterion(o, criteria[1..], context)
  }

  function SelectedReason(context: Context, id: string): string {
    OrDefault(LookUp(context.reasons, id), "Graph explicitly selected registered workload ID " + id + ".")
  }

  /** `_match_entry`. */
  function MatchEntry(o: Setup, w: Workload, context: Context): Option<Match> {
    if w.id in context.selectedIds then Some(Match(Some(SelectedWorkloadIds), w.id, SelectedReason(context, w.id)))
    else FirstCriterion(o, w.criteria, context)
  }

  function FallbackReason(o: Setup, context: Context): string {
    "Configured trusted-registry fallback because repository graph extraction is incomplete ("
    + o.show(context.completeness) + " complete)."
  }

  // ----- greedy selection

  /** What makes an entry a candidate, before budgets: a match, or being a configured eligible fallback when
      the graph is incomplete. */
  function Candidate(o: Setup, w: Workload, context: Context): Option<Match> {
    if context.completeness < 1.0 then
      if w.id in o.fallbacks && w.fallbackEligible then
        Some(Match(None, w.id, FallbackReason(o, context)))
      else None
    else MatchEntry(o, w, context)
  }

  function SelectionFor(w: Workload, m: Match, context: Context): Selection {
    if context.completeness < 1.0 then Selection(w, m.reason, context.completeness * 0.5, true, m.source, m.value)
    else Selection(w, m.reason, context.completeness, false, m.source, m.value)
  }

  predicate Fits(o: Setup, p: Progress, w: Workload) {
    |p.selected| < o.limits.maxSelected && p.used + w.cost <= o.limits.maxCost
  }

  function PlanEntry(o: Setup, context: Context, p: Progress, w: Workload): Progress {
    match Candidate(o, w, context)
    case None =>
      p.(omitted := p.omitted + [Omission(w.id, if context.completeness < 1.0 then IncompleteGraph else NodeEvidence)])
    case Some(m) =>
      if !Fits(o, p, w) then p.(omitted := p.omitted + [Omission(w.id, Budget)])
      else Progress(p.selected + [SelectionFor(w, m, context)], p.omitted, p.used + w.cost)
  }

  function PlanEntries(o: Setup, context: Context, entries: seq<Workload>): Progress {
    if entries == [] then Progress([], [], 0.0)
    else PlanEntry(o, context, PlanEntries(o, context, entries[..|entries| - 1]), entries[|entries| - 1])
  }

  function Plan(o: Setup, context: Context): Progress {
    PlanEntries(o, context, OrderedEntries(o))
  }

  // ----- requested IDs that cannot be planned

  function CategoryName(c: Category): string {
    match c
    case NodeEvidence => "node_evidence"
    case Budget => "budget"
    case IncompleteGraph => "incomplete_graph"
    case Duplicate => "duplicate"
    case Unregistered => "unregistered"
  }

  predicate OmissionLeq(a: Omission, b: Omission) {
    if a.id != b.id then StringLeq(a.id, b.id) else StringLeq(CategoryName(a.category), CategoryName(b.category))
  }

  function Keep(ids: seq<string>, p: string -> bool): (kept: seq<string>)
    ensures forall id :: id in kept <==> id in ids && p(id)
  {
    if ids == [] then []
    else
      var before := Keep(ids[..|ids| - 1], p);
      if p(ids[|ids| - 1]) then before + [ids[|ids| - 1]] else before
  }

  predicate Registered(entries: seq<Workload>, id: string) {
    exists i :: 0 <= i < |entries| && entries[i].id == id
  }

  /** The IDs the graph selected more than once, sorted. */
  function RequestedTwice(context: Context): seq<string> {
    Sort(Keep(Deduplicated(context.selectedIds), id => multiset(context.selectedIds)[id] > 1), StringLeq)
  }

  /** The requested and fallback IDs that the registry does not hold, sorted. */
  function NotRegistered(o: Setup, context: Context): seq<string> {
    Sort(Keep(Deduplicated(context.selectedIds + o.fallbacks), id => !Registered(o.entries, id)), StringLeq)
  }

  function Omit(ids: seq<string>, category: Category): seq<Omission> {
    seq(|ids|, i requires 0 <= i < |ids| => Omission(ids[i], category))
  }

  function RequestOmissions(o: Setup, context: Context): seq<Omission> {
    Omit(RequestedTwice(context), Duplicate) + Omit(NotRegistered(o, context), Unregistered)
  }

  // ----- the plan

  /** `_plan_state`. */
  function PlanStateOf(context: Context, selected: seq<Selection>, omitted: seq<Omission>): PlanState {
    if selected == [] && AnyBudget(omitted) then BudgetExhausted
    else if context.completeness < 1.0 then (if selected != [] then IncompleteWithFallback else IncompleteNoFallback)
    else if selected != [] then Planned else CompleteNoApplicable
  }

  predicate AnyBudget(omitted: seq<Omission>) {
    exists i :: 0 <= i < |omitted| && omitted[i].category == Budget
  }

  /** `min(item.confidence for item in selected, default=...)`. */
  function LeastConfidence(selected: seq<Selection>, default: real): real {
    if selected == [] then default
    else if |selected| == 1 then selected[0].confidence
    else Min(LeastConfidence(selected[..|selected| - 1], default), selected[|selected| - 1].confidence)
  }

  function PlanConfidence(context: Context, selected: seq<Selection>): real {
    if context.completeness < 1.0 && selected == [] then 0.0 else LeastConfidence(selected, context.completeness)
  }

  function PlanOf(o: Setup, context: Context): ValidationPlan {
    var p := Plan(o, context);
    var omitted := RequestOmissions(o, context) + p.omitted;
    ValidationPlan(p.selected, Sort(omitted, OmissionLeq), context.completeness, PlanConfidence(context, p.selected),
                   PlanStateOf(context, p.selected, omitted), p.used)
  }

  /** The loop over the ordered registry entries. */
  method SelectWorkloads(o: Setup, context: Context, before: seq<Omission>)
    returns (selected: seq<Selection>, omitted: seq<Omission>, used: real)
    ensures selected == Plan(o, context).selected && used == Plan(o, context).used
    ensures omitted == before + Plan(o, context).omitted
  {
    hide OrderedEntries, Candidate, SelectionFor;
    var ordered := OrderedEntries(o);
    selected, omitted, used := [], before, 0.0;
    ghost var p := Progress([], [], 0.0);
    for i := 0 to |ordered|
      invariant p == PlanEntries(o, context, ordered[..i])
      invariant selected == p.selected && omitted == before + p.omitted && used == p.used
    {
      assert ordered[..i + 1][..i] == ordered[..i];
      var w := ordered[i];
      var candidate := Candidate(o, w, context);
      p := PlanEntry(o, context, p, w);
      if candidate.None? {
        omitted := omitted + [Omission(w.id, if context.completeness < 1.0 then IncompleteGraph else NodeEvidence)];
      } else if |selected| >= o.limits.maxSelected {
        omitted := omitted + [Omission(w.id, Budget)];
      } else if used + w.cost > o.limits.maxCost {
        omitted := omitted + [Omission(w.id, Budget)];
      } else {
        selected := selected + [SelectionFor(w, candidate.value, context)];
        used := used + w.cost;
      }
    }
    assert ordered[..|ordered|] == ordered;
  }

  /** `plan_validation_workloads`. */
  method PlanWorkloads(o: Setup, context: Context) returns (plan: ValidationPlan)
    ensures plan == PlanOf(o, context)
  {
    hide Plan, Sort, Keep, Deduplicated;
    var omitted: seq<Omission> := [];
    var twice := RequestedTwice(context);
    for i := 0 to |twice|
      invariant omitted == Omit(twice[..i], Duplicate)
    {
      omitted := omitted + [Omission(twice[i], Duplicate)];
    }
    assert twice[..|twice|] == twice;
    var unknown := NotRegistered(o, context);
    for i := 0 to |unknown|
      invariant omitted == Omit(twice, Duplicate) + Omit(unknown[..i], Unregistered)
    {
      omitted := omitted + [Omission(unknown[i], Unregistered)];
    }
    assert unknown[..|unknown|] == unknown;
    var selected: seq<Selection>, used: real;
    selected, omitted, used := SelectWorkloads(o, context, omitted);
    plan := ValidationPlan(selected, Sort(omitted, OmissionLeq), context.completeness,
                           PlanConfidence(context, selected), PlanStateOf(context, selected, omitted), used);
  }

  // ----- budgets

  function CostOf(selected: seq<Selection>): real {
    if selected == [] then 0.0 else CostOf(selected[..|selected| - 1]) + selected[|selected| - 1].workload.cost
  }

  /** A plan stays within both budgets and its recorded cost is the cost of what it selected. */
  lemma {:induction false} PlanWithinBudget(o: Setup, context: Context, entries: seq<Workload>)
    requires o.limits.maxCost >= 0.0
    ensures var p := PlanEntries(o, context, entries);
            |p.selected| <= o.limits.maxSelected && p.used == CostOf(p.selected) <= o.limits.maxCost
            && |p.selected| + |p.omitted| == |entries|
  {
    hide Candidate;
    if entries != [] {
      PlanWithinBudget(o, context, entries[..|entries| - 1]);
    }
  }

  lemma LastAdds(o: Setup, context: Context, entries: seq<Workload>)
    requires entries != []
    ensures var n := |entries| - 1;
            var before := PlanEntries(o, context, entries[..n]).selected;
            var after := PlanEntries(o, context, entries).selected;
            after == before || (|after| == |before| + 1 && after[..|before|] == before
                                && after[|before|].workload == entries[n])
  {
    hide Candidate;
  }

  lemma AddedIsCandidate(o: Setup, context: Context, p: Progress, w: Workload)
    ensures var p' := PlanEntry(o, context, p, w);
            p'.selected != p.selected ==>
              Candidate(o, w, context).Some? && |p'.selected| == |p.selected| + 1
              && p'.selected[|p.selected|] == SelectionFor(w, Candidate(o, w, context).value, context)
  {
    hide Candidate;
  }

  // ----- every entry and every request is accounted for

  predicate Selects(p: Progress, w: Workload) {
    exists i :: 0 <= i < |p.selected| && p.selected[i].workload == w
  }

  predicate Omits(omitted: seq<Omission>, id: string) {
    exists i :: 0 <= i < |omitted| && omitted[i].id == id
  }

  /** Selected and omitted IDs come from the entries. */
  ghost predicate OnlyEntries(entries: seq<Workload>, p: Progress) {
    && (forall i :: 0 <= i < |p.selected| ==> p.selected[i].workload in entries)
    && forall i :: 0 <= i < |p.omitted| ==> Registered(entries, p.omitted[i].id)
  }

  /** Every entry is either selected or omitted with a reason, and never both. */
  ghost predicate Accounted(entries: seq<Workload>, p: Progress) {
    && OnlyEntries(entries, p)
    && forall i :: 0 <= i < |entries| ==> (Selects(p, entries[i]) <==> !Omits(p.omitted, entries[i].id))
  }

  lemma NewEntry(entries: seq<Workload>, p: Progress, w: Workload)
    requires GoodRegistry(entries + [w]) && OnlyEntries(entries, p)
    ensures !Selects(p, w) && !Omits(p.omitted, w.id)
  {
    var all := entries + [w];
    assert all[|entries|] == w && forall i :: 0 <= i < |entries| ==> all[i] == entries[i] && all[i].id != w.id;
  }

  lemma SelectedNext(entries: seq<Workload>, p: Progress, w: Workload, x: Selection, used: real)
    requires GoodRegistry(entries + [w]) && Accounted(entries, p) && x.workload == w
    ensures Accounted(entries + [w], Progress(p.selected + [x], p.omitted, used))
  {
    NewEntry(entries, p, w);
    var all, q := entries + [w], Progress(p.selected + [x], p.omitted, used);
    forall i | 0 <= i < |all| ensures Selects(q, all[i]) <==> !Omits(q.omitted, all[i].id) {
      if i < |entries| {
        assert all[i].id != all[|entries|].id;
        assert Selects(p, all[i]) ==> Selects(q, all[i]) by {
          if Selects(p, all[i]) {
            var k :| 0 <= k < |p.selected| && p.selected[k].workload == all[i];
            assert q.selected[k].workload == all[i];
          }
        }
      } else {
        assert q.selected[|p.selected|].workload == all[i];
      }
    }
    assert forall k :: 0 <= k < |p.omitted| ==> Registered(all, p.omitted[k].id) by { RegisteredLonger(entries, p, w); }
  }

  lemma OmittedNext(entries: seq<Workload>, p: Progress, w: Workload, category: Category)
    requires GoodRegistry(entries + [w]) && Accounted(entries, p)
    ensures Accounted(entries + [w], p.(omitted := p.omitted + [Omission(w.id, category)]))
  {
    NewEntry(entries, p, w);
    var all, q := entries + [w], p.(omitted := p.omitted + [Omission(w.id, category)]);
    forall i | 0 <= i < |all| ensures Selects(q, all[i]) <==> !Omits(q.omitted, all[i].id) {
      assert Selects(q, all[i]) == Selects(p, all[i]);
      if i < |entries| {
        assert all[i].id != all[|entries|].id;
        assert Omits(p.omitted, all[i].id) ==> Omits(q.omitted, all[i].id) by {
          if Omits(p.omitted, all[i].id) {
            var k :| 0 <= k < |p.omitted| && p.omitted[k].id == all[i].id;
            assert q.omitted[k].id == all[i].id;
          }
        }
      } else {
        assert q.omitted[|p.omitted|].id == all[i].id;
      }
    }
    RegisteredLonger(entries, p, w);
    assert all[|entries|].id == w.id;
  }

  lemma RegisteredLonger(entries: seq<Workload>, p: Progress, w: Workload)
    requires OnlyEntries(entries, p)
    ensures forall k :: 0 <= k < |p.omitted| ==> Registered(entries + [w], p.omitted[k].id)
  {
    forall k | 0 <= k < |p.omitted| ensures Registered(entries + [w], p.omitted[k].id) {
      var i :| 0 <= i < |entries| && entries[i].id == p.omitted[k].id;
      assert (entries + [w])[i].id == p.omitted[k].id;
    }
  }

  lemma {:induction false} EveryEntryIsAccountedFor(o: Setup, context: Context, entries: seq<Workload>)
    requires GoodRegistry(entries)
    ensures Accounted(entries, PlanEntries(o, context, entries))
  {
    hide Candidate, Accounted;
    if entries == [] {
      NothingAccounted();
    } else {
      var n := |entries| - 1;
      var before, w := entries[..n], entries[n];
      var p := PlanEntries(o, context, before);
      assert entries == before + [w];
      EveryEntryIsAccountedFor(o, context, before);
      var candidate := Candidate(o, w, context);
      if candidate.Some? && Fits(o, p, w) {
        SelectedNext(before, p, w, SelectionFor(w, candidate.value, context), p.used + w.cost);
      } else {
        OmittedNext(before, p, w, if candidate.Some? then Budget
                                  else if context.completeness < 1.0 then IncompleteGraph else NodeEvidence);
      }
    }
  }

  lemma NothingAccounted()
    ensures Accounted([], Progress([], [], 0.0))
  {
  }

  /** A requested ID is reported as a duplicate exactly when it was requested twice, and as unregistered exactly
      when it was requested (or configured as a fallback) and the registry does not hold it. */
  lemma RequestsAreAccountedFor(o: Setup, context: Context, id: string)
    ensures Omission(id, Duplicate) in PlanOf(o, context).omitted <==> multiset(context.selectedIds)[id] > 1
    ensures Omission(id, Unregistered) in PlanOf(o, context).omitted <==>
              (id in context.selectedIds || id in o.fallbacks) && !Registered(o.entries, id)
  {
    hide Plan, Sort, RequestedTwice, NotRegistered, OmissionLeq, Registered, Omit;
    RequestedMembers(o, context, id);
    PlanOmissions(o, context, Omission(id, Duplicate));
    PlanOmissions(o, context, Omission(id, Unregistered));
    OmitMembers(RequestedTwice(context), id, Duplicate);
    OmitMembers(NotRegistered(o, context), id, Unregistered);
    EntryCategories(o, context, OrderedEntries(o));
    PlanIsOrdered(o, context);
  }

  lemma PlanIsOrdered(o: Setup, context: Context)
    ensures Plan(o, context) == PlanEntries(o, context, OrderedEntries(o))
  {
  }

  lemma PlanOmissions(o: Setup, context: Context, x: Omission)
    ensures x in PlanOf(o, context).omitted <==>
              x in Omit(RequestedTwice(context), Duplicate) || x in Omit(NotRegistered(o, context), Unregistered)
              || x in Plan(o, context).omitted
  {
    hide Plan, RequestedTwice, NotRegistered, OmissionLeq, Omit, Sort;
    SortKeepsMembers(RequestOmissions(o, context) + Plan(o, context).omitted, OmissionLeq);
  }

  lemma OmitMembers(ids: seq<string>, id: string, category: Category)
    ensures forall c :: Omission(id, c) in Omit(ids, category) <==> id in ids && c == category
  {
    if id in ids {
      var i :| 0 <= i < |ids| && ids[i] == id;
      assert Omit(ids, category)[i] == Omission(id, category);
    }
  }

  lemma RequestedMembers(o: Setup, context: Context, id: string)
    ensures id in RequestedTwice(context) <==> multiset(context.selectedIds)[id] > 1
    ensures id in NotRegistered(o, context) <==>
              (id in context.selectedIds || id in o.fallbacks) && !Registered(o.entries, id)
  {
    var requested := context.selectedIds + o.fallbacks;
    DeduplicatedMembers(context.selectedIds, id);
    DeduplicatedMembers(requested, id);
    SortKeepsMembers(Keep(Deduplicated(context.selectedIds), id => multiset(context.selectedIds)[id] > 1), StringLeq);
    SortKeepsMembers(Keep(Deduplicated(requested), id => !Registered(o.entries, id)), StringLeq);
  }

  lemma {:induction false} DeduplicatedMembers(values: seq<string>, value: string)
    ensures value in Deduplicated(values) <==> value in values
  {
    if values != [] {
      var n := |values| - 1;
      DeduplicatedMembers(values[..n], value);
      assert values == values[..n] + [values[n]];
    }
  }

  lemma {:induction false} EntryCategories(o: Setup, context: Context, entries: seq<Workload>)
    ensures forall x :: x in PlanEntries(o, context, entries).omitted ==> x.category !in {Duplicate, Unregistered}
  {
    hide Candidate, SelectionFor;
    if entries != [] {
      EntryCategories(o, context, entries[..|entries| - 1]);
    }
  }

  /** The plan's confidence is the completeness, halved for fallbacks, and nothing for an incomplete graph
      without any. */
  lemma ConfidenceFollowsCompleteness(o: Setup, context: Context)
    ensures var plan := PlanOf(o, context);
            plan.confidence == if context.completeness >= 1.0 then context.completeness
                               else if plan.selected == [] then 0.0 else context.completeness * 0.5
  {
    hide Sort, RequestOmissions, OrderedEntries;
    var selected := Plan(o, context).selected;
    EqualConfidence(o, context, OrderedEntries(o));
    LeastOfEqual(selected, context.completeness,
                 if context.completeness < 1.0 then context.completeness * 0.5 else context.completeness);
  }

  lemma {:induction false} EqualConfidence(o: Setup, context: Context, entries: seq<Workload>)
    ensures forall x :: x in PlanEntries(o, context, entries).selected ==>
              x.confidence == if context.completeness < 1.0 then context.completeness * 0.5 else context.completeness
  {
    hide Candidate;
    if entries != [] {
      EqualConfidence(o, context, entries[..|entries| - 1]);
    }
  }

  lemma {:induction false} LeastOfEqual(selected: seq<Selection>, default: real, confidence: real)
    requires forall x :: x in selected ==> x.confidence == confidence
    ensures LeastConfidence(selected, default) == if selected == [] then default else confidence
  {
    if |selected| > 1 {
      LeastOfEqual(selected[..|selected| - 1], default, confidence);
    }
  }
}
