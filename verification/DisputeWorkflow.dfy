/** The dispute state graph: parse, evaluate, route, then draft and audit until it ends. */
module DisputeWorkflow {
  import opened Options
  import opened PyStrings
  import opened Disputes
  import opened EvidenceRules
  import opened ExpectedValue

  datatype Status =
    | PendingStatus
    | ContestedDossierFinalized
    | AutoSettledMerchantNotified
    | EscalatedHumanReview
    | EscalatedMaxIterations

  datatype Source = StaticTable | LlmFallback | SystemFault

  datatype Gap = NoGap | Because(reasons: seq<Reason>) | ChainSatisfied | DefaultFor(claim: Claim) | ParkedAfterFault

  datatype AuditRecord = AuditRecord(iteration: int, passed: bool, llmFailed: bool)

  datatype Classification = Classification(claim: Claim, confidence: real)

  /** What the surroundings do during one run: the classifier's answer, the auditor's verdict
      per audit (none when it cannot be parsed) and the step at which a node raises, if any. */
  datatype World = World(classified: Option<Classification>, verdicts: seq<Option<bool>>, faultAt: Option<nat>)

  datatype Settings = Settings(maxAudits: int, fee: real, cost: real)

  datatype State = State(
    event: Event, claim: Option<Claim>, source: Source, needsReview: bool, rules: Option<RuleResult>,
    gap: Gap, win: int, values: Values, decision: Decision, audit: Option<AuditRecord>,
    history: seq<AuditRecord>, iterations: int, maxIterations: int, noticed: bool, status: Status)

  function InitialState(e: Event, c: Settings): State {
    State(e, None, StaticTable, false, None, NoGap, 0, Values(0.0, 0.0), Pending, None, [], 0, c.maxAudits, false,
          PendingStatus)
  }

  datatype Node =
    | Enrich | Parse | Rules | Route | Draft | Audit | Notice
    | FinalizeFought | FinalizeSettled | FinalizeEscalated | End

  // ----- the nodes

  /** The static reason-code table. */
  function Lookup(network: Network, reasonCode: string): Option<Claim> {
    var code := Strip(reasonCode);
    match network
    case Visa =>
      if code == "10.1" || code == "10.4" then Some(FraudUnrecognized)
      else if code == "13.1" || code == "13.2" then Some(ProductNotReceived)
      else if code == "13.3" then Some(ServiceNotAsDescribed)
      else if code == "12.6" then Some(DuplicateCharge)
      else if code == "13.6" || code == "12.1" then Some(ProcessingError)
      else None
    case Mastercard =>
      if code == "4837" || code == "4863" || code == "4840" then Some(FraudUnrecognized)
      else if code == "4853" then Some(ProductNotReceived)
      else if code == "4842" then Some(DuplicateCharge)
      else if code == "4859" then Some(ServiceNotAsDescribed)
      else if code == "4860" || code == "4871" then Some(ProcessingError)
      else None
    case Npci =>
      if code == "FRM-DUP" then Some(DuplicateCharge)
      else if code == "FRM-GNR" then Some(ProductNotReceived)
      else if code == "FRM-CNF" then Some(FraudUnrecognized)
      else if code == "SRV-NAD" then Some(ServiceNotAsDescribed)
      else if code == "SYS-ERR" then Some(ProcessingError)
      else None
    case UnknownNetwork => None
  }

  function Classify(w: World): Classification {
    if w.classified.Some? then w.classified.value else Classification(UnknownRequiresHumanReview, 0.0)
  }

  function ParseDispute(s: State, w: World): State {
    var known := Lookup(s.event.network, s.event.reasonCode);
    if known.Some? then s.(claim := known, source := StaticTable, needsReview := false)
    else
      var c := Classify(w);
      s.(claim := Some(c.claim), source := LlmFallback,
         needsReview := c.claim == UnknownRequiresHumanReview || c.confidence < 0.4)
  }

  function GapOf(claim: Claim, r: RuleResult): Gap {
    if r.reasons != [] then Because(r.reasons)
    else if r.qualified then ChainSatisfied
    else DefaultFor(claim)
  }

  function RouteDecision(s: State, claim: Claim, r: RuleResult, c: Settings): State {
    var win := WinProbability(claim, r);
    var values := ExpectedValues(s.event.amount, AsProbability(win), c.fee, c.cost);
    s.(win := win, values := values, decision := DecideRoute(s.needsReview, values), gap := GapOf(claim, r))
  }

  function VerdictAt(w: World, i: int): Option<bool> {
    if 0 <= i < |w.verdicts| then w.verdicts[i] else None
  }

  /** An audit that yields no verdict is recorded as failed. */
  function RecordOf(i: int, verdict: Option<bool>): AuditRecord {
    AuditRecord(i, verdict == Some(true), verdict.None?)
  }

  /** `run_audit` */
  function RunAudit(s: State, w: World): State {
    var record := RecordOf(s.iterations + 1, VerdictAt(w, s.iterations));
    s.(audit := Some(record), history := s.history + [record], iterations := s.iterations + 1)
  }

  function FinalizeEscalatedState(s: State): State {
    var exhausted := s.iterations >= s.maxIterations && s.history != [];
    s.(status := if exhausted then EscalatedMaxIterations else EscalatedHumanReview)
  }

  /** The state after a node, or none when the node raises on what it finds. */
  function Work(n: Node, s: State, c: Settings, w: World): Option<State> {
    match n
    case Enrich => Some(s)
    case Parse => Some(ParseDispute(s, w))
    case Rules =>
      if s.claim.None? then None
      else Some(s.(rules := Some(Evaluated(s.event.telemetry, s.event.history, s.claim.value))))
    case Route =>
      if s.claim.None? || s.rules.None? then None else Some(RouteDecision(s, s.claim.value, s.rules.value, c))
    case Draft => Some(s)
    case Audit => Some(RunAudit(s, w))
    case Notice => Some(s.(noticed := true))
    case FinalizeFought => Some(s.(status := ContestedDossierFinalized))
    case FinalizeSettled => Some(s.(status := AutoSettledMerchantNotified))
    case FinalizeEscalated => Some(FinalizeEscalatedState(s))
    case End => Some(s)
  }

  function RouteAfterAudit(s: State): Node {
    if s.audit.Some? && s.audit.value.passed then FinalizeFought
    else if s.iterations < s.maxIterations then Draft
    else FinalizeEscalated
  }

  /** The edges of the state graph; none for a route it has no edge for. */
  function NodeAfter(n: Node, s: State): Option<Node> {
    match n
    case Enrich => Some(Parse)
    case Parse => Some(Rules)
    case Rules => Some(Route)
    case Route =>
      (match s.decision
       case Fight => Some(Draft)
       case Settle => Some(Notice)
       case Escalate => Some(FinalizeEscalated)
       case Pending => None)
    case Draft => Some(Audit)
    case Audit => Some(RouteAfterAudit(s))
    case Notice => Some(FinalizeSettled)
    case FinalizeFought => Some(End)
    case FinalizeSettled => Some(End)
    case FinalizeEscalated => Some(End)
    case End => Some(End)
  }

  function AuditsLeft(s: State): nat { if s.iterations < s.maxIterations then s.maxIterations - s.iterations else 0 }

  function Measure(n: Node, s: State): nat {
    match n
    case Enrich => 2 * AuditsLeft(s) + 7
    case Parse => 2 * AuditsLeft(s) + 6
    case Rules => 2 * AuditsLeft(s) + 5
    case Route => 2 * AuditsLeft(s) + 4
    case Draft => 2 * AuditsLeft(s) + 3
    case Audit => 2 * AuditsLeft(s) + 2
    case Notice => 2
    case FinalizeFought => 1
    case FinalizeSettled => 1
    case FinalizeEscalated => 1
    case End => 0
  }

  /** Every edge of the graph brings the run closer to its end, from any state at all. */
  lemma EveryStepGetsCloser(n: Node, s: State, c: Settings, w: World)
    requires n != End && Work(n, s, c, w).Some? && NodeAfter(n, Work(n, s, c, w).value).Some?
    ensures var t := Work(n, s, c, w).value;
      Measure(NodeAfter(n, t).value, t) < Measure(n, s)
  {
    hide Evaluated, WinProbability, ExpectedValues, Lookup;
  }

  /** The whole run from a node, `step` nodes into it; none when some node raised. */
  function Execute(n: Node, s: State, c: Settings, w: World, step: nat): Option<State>
    decreases Measure(n, s)
  {
    if n == End then Some(s)
    else if w.faultAt == Some(step) then None
    else
      var t := Work(n, s, c, w);
      if t.None? then None
      else
        var next := NodeAfter(n, t.value);
        if next.None? then None
        else
          EveryStepGetsCloser(n, s, c, w);
          Execute(next.value, t.value, c, w, step + 1)
  }

  // ----- the draft and audit loop

  /** A first audit is always made; further ones only while the limit allows. */
  function AuditLimit(max: int): nat { if max < 1 then 1 else max }

  predicate Passes(w: World, i: int) { VerdictAt(w, i) == Some(true) }

  /** The first passing audit from `i` on, or `limit` when none before it passes. */
  function FirstPass(w: World, i: nat, limit: nat): (r: nat)
    requires i <= limit
    ensures i <= r <= limit
    ensures forall j | i <= j < r :: !Passes(w, j)
    ensures r < limit ==> Passes(w, r)
    decreases limit - i
  {
    if i == limit || Passes(w, i) then i else FirstPass(w, i + 1, limit)
  }

  function AuditCount(w: World, limit: nat): nat
  {
    var p := FirstPass(w, 0, limit);
    if p < limit then p + 1 else limit
  }

  /** The records of the first `n` audits. */
  function Trail(w: World, n: nat): seq<AuditRecord> {
    seq(n, i requires 0 <= i < n => RecordOf(i + 1, VerdictAt(w, i)))
  }

  predicate FaultWithin(w: World, lo: nat, hi: nat) { w.faultAt.Some? && lo <= w.faultAt.value < hi }

  /** The state in which the loop ends. */
  function AfterLoop(s: State, w: World, limit: nat): State
  {
    var n := AuditCount(w, limit);
    s.(audit := Some(RecordOf(n, VerdictAt(w, n - 1))), history := Trail(w, n), iterations := n,
       status := if FirstPass(w, 0, limit) < limit then ContestedDossierFinalized else EscalatedMaxIterations)
  }

  predicate InLoop(s: State, w: World, i: nat, limit: nat) {
    && limit == AuditLimit(s.maxIterations)
    && s.iterations == i < limit
    && s.history == Trail(w, i)
    && FirstPass(w, 0, limit) >= i
  }

  lemma OneAudit(s: State, w: World, i: nat, limit: nat)
    requires InLoop(s, w, i, limit)
    ensures var t := RunAudit(s, w);
      && t.history == Trail(w, i + 1) && t.iterations == i + 1
      && (RouteAfterAudit(t) == FinalizeFought <==> Passes(w, i))
      && (Passes(w, i) ==> FirstPass(w, 0, limit) == i && AuditCount(w, limit) == i + 1)
      && (RouteAfterAudit(t) == Draft ==> InLoop(t, w, i + 1, limit))
      && (RouteAfterAudit(t) == FinalizeEscalated ==>
            FirstPass(w, 0, limit) == limit == i + 1 && FinalizeEscalatedState(t).status == EscalatedMaxIterations)
  {
  }

  /** From the drafting node the loop makes exactly the audits up to the first that passes, or
      up to the limit, unless a node raises on the way. */
  lemma {:induction false} LoopExactly(s: State, c: Settings, w: World, step: nat, i: nat, limit: nat)
    requires InLoop(s, w, i, limit)
    ensures i < AuditCount(w, limit)
    ensures Execute(Draft, s, c, w, step)
         == if FaultWithin(w, step, step + 2 * (AuditCount(w, limit) - i) + 1) then None
            else Some(AfterLoop(s, w, limit))
    decreases limit - i
  {
    hide RunAudit, FinalizeEscalatedState, Trail;
    OneAudit(s, w, i, limit);
    var t := RunAudit(s, w);
    LoopStep(s, c, w, step);
    if RouteAfterAudit(t) == Draft {
      LoopExactly(t, c, w, step + 2, i + 1, limit);
      assert AfterLoop(t, w, limit) == AfterLoop(s, w, limit) by {
        OnlyAudits(s, w);
      }
    } else {
      LoopEnd(s, c, w, step, i, limit);
    }
  }

  lemma OnlyAudits(s: State, w: World)
    ensures var t := RunAudit(s, w);
      t == s.(audit := t.audit, history := t.history, iterations := t.iterations)
  {
  }

  lemma LoopStep(s: State, c: Settings, w: World, step: nat)
    ensures Execute(Draft, s, c, w, step)
         == if FaultWithin(w, step, step + 2) then None
            else Execute(RouteAfterAudit(RunAudit(s, w)), RunAudit(s, w), c, w, step + 2)
  {
    hide RunAudit, RouteAfterAudit;
    assert Execute(Draft, s, c, w, step) == if w.faultAt == Some(step) then None else Execute(Audit, s, c, w, step + 1);
  }

  lemma LoopEnd(s: State, c: Settings, w: World, step: nat, i: nat, limit: nat)
    requires InLoop(s, w, i, limit) && RouteAfterAudit(RunAudit(s, w)) != Draft
    ensures AuditCount(w, limit) == i + 1
    ensures Execute(RouteAfterAudit(RunAudit(s, w)), RunAudit(s, w), c, w, step + 2)
         == if w.faultAt == Some(step + 2) then None else Some(AfterLoop(s, w, limit))
  {
    OneAudit(s, w, i, limit);
  }

  // ----- a whole run

  /** Everything a run knows once it has routed: the claim, the rules' answer and the decision. */
  function Assessed(e: Event, c: Settings, w: World): State {
    var parsed := ParseDispute(InitialState(e, c), w);
    var r := Evaluated(e.telemetry, e.history, parsed.claim.value);
    RouteDecision(parsed.(rules := Some(r)), parsed.claim.value, r, c)
  }

  lemma AssessedShape(e: Event, c: Settings, w: World)
    ensures var a := Assessed(e, c, w);
      && a.event == e && a.claim.Some? && a.iterations == 0 && a.history == [] && a.maxIterations == c.maxAudits
      && a.audit.None? && a.status == PendingStatus && !a.decision.Pending?
      && a.decision == RouteOf(e, a.claim.value, a.needsReview, c.fee, c.cost)
      && (a.decision.Escalate? <==> a.needsReview)
  {
    hide Lookup, Evaluated, WinProbability, ExpectedValues;
  }

  lemma ExecuteUntilRouted(e: Event, c: Settings, w: World)
    ensures Execute(Enrich, InitialState(e, c), c, w, 0)
         == if FaultWithin(w, 0, 4) then None
            else Execute(NodeAfter(Route, Assessed(e, c, w)).value, Assessed(e, c, w), c, w, 4)
  {
    hide Lookup, Evaluated, WinProbability, ExpectedValues, GapOf, Classify, Measure;
    AssessedShape(e, c, w);
    var s := InitialState(e, c);
    var parsed := ParseDispute(s, w);
    var ruled := Work(Rules, parsed, c, w).value;
    assert Execute(Enrich, s, c, w, 0) == if w.faultAt == Some(0) then None else Execute(Parse, s, c, w, 1);
    assert Execute(Parse, s, c, w, 1) == if w.faultAt == Some(1) then None else Execute(Rules, parsed, c, w, 2);
    assert Execute(Rules, parsed, c, w, 2) == if w.faultAt == Some(2) then None else Execute(Route, ruled, c, w, 3);
    assert Work(Route, ruled, c, w) == Some(Assessed(e, c, w));
  }

  function StepsOf(e: Event, c: Settings, w: World): nat {
    match Assessed(e, c, w).decision
    case Fight => 5 + 2 * AuditCount(w, AuditLimit(c.maxAudits))
    case Settle => 6
    case _ => 5
  }

  function Ending(a: State, w: World): State {
    match a.decision
    case Fight => AfterLoop(a, w, AuditLimit(a.maxIterations))
    case Settle => a.(noticed := true, status := AutoSettledMerchantNotified)
    case _ => a.(status := EscalatedHumanReview)
  }

  lemma SettleExactly(a: State, c: Settings, w: World)
    ensures Execute(Notice, a, c, w, 4)
         == if FaultWithin(w, 4, 6) then None else Some(a.(noticed := true, status := AutoSettledMerchantNotified))
  {
    var noted := a.(noticed := true);
    assert Execute(Notice, a, c, w, 4) == if w.faultAt == Some(4) then None
      else Execute(FinalizeSettled, noted, c, w, 5);
    assert Execute(FinalizeSettled, noted, c, w, 5) == if w.faultAt == Some(5) then None
      else Some(noted.(status := AutoSettledMerchantNotified));
  }

  lemma EscalateExactly(a: State, c: Settings, w: World)
    requires a.history == []
    ensures Execute(FinalizeEscalated, a, c, w, 4)
         == if FaultWithin(w, 4, 5) then None else Some(a.(status := EscalatedHumanReview))
  {
  }

  /** The run, exactly: it raises if and only if a fault strikes one of its steps, and it ends
      otherwise in the state its decision and the verdicts call for. */
  lemma ExecuteExactly(e: Event, c: Settings, w: World)
    ensures Execute(Enrich, InitialState(e, c), c, w, 0)
         == if FaultWithin(w, 0, StepsOf(e, c, w)) then None else Some(Ending(Assessed(e, c, w), w))
  {
    hide Assessed, AfterLoop, FirstPass, Execute, Measure, AuditCount;
    AssessedShape(e, c, w);
    ExecuteUntilRouted(e, c, w);
    var a := Assessed(e, c, w);
    if a.decision.Fight? {
      assert InLoop(a, w, 0, AuditLimit(c.maxAudits));
      LoopExactly(a, c, w, 4, 0, AuditLimit(c.maxAudits));
    } else if a.decision.Settle? {
      SettleExactly(a, c, w);
    } else {
      EscalateExactly(a, c, w);
    }
  }

  // ----- the webhook

  const NoFlags := Flags(false, false, false, false, false)

  /** What a dispute is left as when its run raises. */
  function Parked(e: Event, c: Settings): State {
    InitialState(e, c).(
      claim := Some(UnknownRequiresHumanReview), source := SystemFault, needsReview := true,
      decision := Escalate, status := EscalatedHumanReview, gap := ParkedAfterFault,
      rules := Some(RuleResult(false, false, 0, [], [PipelineFault], NoFlags)))
  }

  function Concluded(e: Event, c: Settings, w: World): State {
    var r := Execute(Enrich, InitialState(e, c), c, w, 0);
    if r.Some? then r.value else Parked(e, c)
  }

  datatype Row = Row(
    network: Network, reasonCode: string, claim: Claim, decision: Decision, status: Status, win: int,
    iterations: int, event: Event, result: State)

  class DisputeRepository {
    var rows: map<string, Row>

    constructor ()
      ensures rows == map[]
    {
      rows := map[];
    }

    /** Insert or update; nothing is stored when the database cannot be reached. */
    method SaveDispute(id: string, row: Row, reachable: bool) returns (persisted: bool)
      modifies this
      ensures persisted == reachable
      ensures rows == if reachable then old(rows)[id := row] else old(rows)
    {
      if reachable {
        rows := rows[id := row];
      }
      persisted := reachable;
    }
  }

  function RowOf(e: Event, s: State): Row {
    Row(s.event.network, s.event.reasonCode, if s.claim.Some? then s.claim.value else UnknownRequiresHumanReview,
        s.decision, s.status, s.win, s.iterations, e, s)
  }

  datatype Response = Response(state: State, persisted: bool, warned: bool)

  /** `ingest_dispute`: run the graph, fall back to human review on a fault, save, answer. */
  method IngestDispute(repo: DisputeRepository, e: Event, c: Settings, w: World, reachable: bool)
    returns (r: Response)
    modifies repo
    ensures r == Response(Concluded(e, c, w), reachable, !reachable)
    ensures repo.rows ==
            if reachable then old(repo.rows)[e.id := RowOf(e, Concluded(e, c, w))] else old(repo.rows)
  {
    hide Execute, RowOf;
    var run := Execute(Enrich, InitialState(e, c), c, w, 0);
    var finalState: State;
    if run.Some? {
      finalState := run.value;
    } else {
      finalState := InitialState(e, c);
      finalState := finalState.(
        claim := Some(UnknownRequiresHumanReview), source := SystemFault, needsReview := true,
        decision := Escalate, status := EscalatedHumanReview, gap := ParkedAfterFault,
        rules := Some(RuleResult(false, false, 0, [], [PipelineFault], NoFlags)));
    }
    var persisted := repo.SaveDispute(e.id, RowOf(e, finalState), reachable);
    r := Response(finalState, persisted, !persisted);
  }

  // ----- what every dispute ends as

  /** The run's fate in terms of its inputs. */
  lemma ConcludedExactly(e: Event, c: Settings, w: World)
    ensures Concluded(e, c, w)
         == if FaultWithin(w, 0, StepsOf(e, c, w)) then Parked(e, c) else Ending(Assessed(e, c, w), w)
  {
    ExecuteExactly(e, c, w);
  }

  ghost predicate AllFailed(h: seq<AuditRecord>) { forall i | 0 <= i < |h| :: !h[i].passed }

  lemma LoopTrail(a: State, w: World, limit: nat)
    requires limit > 0
    ensures var f := AfterLoop(a, w, limit);
      && f.iterations == |f.history| && 0 < |f.history| <= limit
      && (forall i | 0 <= i < |f.history| :: f.history[i] == RecordOf(i + 1, VerdictAt(w, i)))
      && AllFailed(f.history[..|f.history| - 1])
      && (f.status == ContestedDossierFinalized <==> f.history[|f.history| - 1].passed)
      && (f.status == EscalatedMaxIterations <==> !f.history[|f.history| - 1].passed)
      && (f.status == EscalatedMaxIterations ==> |f.history| == limit)
  {
    var n := AuditCount(w, limit);
    var h := AfterLoop(a, w, limit).history;
    assert h == Trail(w, n);
    var failed := h[..n - 1];
    forall i | 0 <= i < n - 1 ensures !failed[i].passed {
      assert !Passes(w, i);
    }
    assert h[n - 1].passed <==> Passes(w, n - 1);
  }

  /** The audit trail of any concluded dispute: numbered from 1, as long as the iteration
      counter, within the limit, and failed everywhere but perhaps at its last entry. */
  lemma TrailIsSound(e: Event, c: Settings, w: World)
    ensures var f := Concluded(e, c, w);
      && f.iterations == |f.history| <= AuditLimit(c.maxAudits)
      && (forall i | 0 <= i < |f.history| :: f.history[i] == RecordOf(i + 1, VerdictAt(w, i)))
      && (f.history != [] ==> AllFailed(f.history[..|f.history| - 1]))
      && (f.history != [] <==> f.decision.Fight?)
  {
    hide Assessed, StepsOf, Execute, AfterLoop, RecordOf, VerdictAt, AllFailed;
    ConcludedExactly(e, c, w);
    AssessedShape(e, c, w);
    LoopTrail(Assessed(e, c, w), w, AuditLimit(c.maxAudits));
    KeepsDecision(Assessed(e, c, w), w);
  }

  /** Every record of the trail in terms of the auditor's answers: none given or unreadable counts
      as failed by the model. */
  lemma TrailRecords(e: Event, c: Settings, w: World, i: nat)
    requires i < |Concluded(e, c, w).history|
    ensures var record := Concluded(e, c, w).history[i];
      && record.iteration == i + 1
      && (record.passed <==> i < |w.verdicts| && w.verdicts[i] == Some(true))
      && (record.llmFailed <==> i >= |w.verdicts| || w.verdicts[i].None?)
  {
    hide Concluded;
    TrailIsSound(e, c, w);
  }

  lemma KeepsDecision(a: State, w: World)
    ensures AfterLoop(a, w, AuditLimit(a.maxIterations)).decision == a.decision
  {
  }

  /** One right status per dispute, faults included: contested exactly when the last audit
      passed, out of iterations exactly when there were audits and all failed, never pending. */
  lemma EndsInOneRightStatus(e: Event, c: Settings, w: World)
    ensures var f := Concluded(e, c, w);
      && f.status != PendingStatus && f.decision != Pending
      && (f.status == ContestedDossierFinalized <==> f.history != [] && f.history[|f.history| - 1].passed)
      && (f.status == EscalatedMaxIterations <==> f.history != [] && AllFailed(f.history))
      && (f.status == EscalatedMaxIterations ==> |f.history| == AuditLimit(c.maxAudits))
      && (f.status == AutoSettledMerchantNotified <==> f.decision == Settle)
      && (f.status == EscalatedHumanReview <==> f.decision == Escalate)
  {
    hide Assessed, StepsOf, Execute, AfterLoop, RecordOf, VerdictAt;
    ConcludedExactly(e, c, w);
    AssessedShape(e, c, w);
    LoopTrail(Assessed(e, c, w), w, AuditLimit(c.maxAudits));
    KeepsDecision(Assessed(e, c, w), w);
  }

  /** A fault at any step of the run parks the dispute with a human, with no audit on record. */
  lemma FaultParksExactly(e: Event, c: Settings, w: World)
    ensures Concluded(e, c, w).source == SystemFault <==> FaultWithin(w, 0, StepsOf(e, c, w))
    ensures Concluded(e, c, w).source == SystemFault ==>
              && Concluded(e, c, w).status == EscalatedHumanReview
              && Concluded(e, c, w).history == []
              && RowOf(e, Concluded(e, c, w)).claim == UnknownRequiresHumanReview
  {
    hide StepsOf, Execute, Lookup, Evaluated, WinProbability, ExpectedValues, AfterLoop;
    ConcludedExactly(e, c, w);
    assert Ending(Assessed(e, c, w), w).source == Assessed(e, c, w).source by {
      OnlyLoopFields(Assessed(e, c, w), w);
    }
    assert Assessed(e, c, w).source != SystemFault;
  }

  lemma OnlyLoopFields(a: State, w: World)
    ensures var f := Ending(a, w);
      f.source == a.source && f.gap == a.gap && f.rules == a.rules && f.claim == a.claim && f.decision == a.decision
  {
  }

  /** A dispute is contested exactly when its evidence is worth fighting on, some verdict
      within the audit limit passes, and nothing raises. */
  lemma ContestedExactly(e: Event, c: Settings, w: World)
    ensures Concluded(e, c, w).status == ContestedDossierFinalized <==>
            && !FaultWithin(w, 0, StepsOf(e, c, w))
            && Assessed(e, c, w).decision == Fight
            && exists j: nat :: j < AuditLimit(c.maxAudits) && Passes(w, j)
  {
    hide Assessed, StepsOf, Execute;
    ConcludedExactly(e, c, w);
    AssessedShape(e, c, w);
  }

  /** A claim that cannot be told, or told only with little confidence, always reaches a human
      and is never drafted for. */
  lemma UncertainClaimsReachHuman(e: Event, c: Settings, w: World)
    requires Lookup(e.network, e.reasonCode).None?
    requires Classify(w).claim == UnknownRequiresHumanReview || Classify(w).confidence < 0.4
    ensures Concluded(e, c, w).status == EscalatedHumanReview && Concluded(e, c, w).history == []
  {
    hide StepsOf, Execute, Lookup, Evaluated, WinProbability, ExpectedValues, Classify;
    ConcludedExactly(e, c, w);
    AssessedShape(e, c, w);
  }

  /** And only such claims and faults do. */
  lemma HumanExactly(e: Event, c: Settings, w: World)
    ensures Concluded(e, c, w).status == EscalatedHumanReview <==>
            || FaultWithin(w, 0, StepsOf(e, c, w))
            || (Lookup(e.network, e.reasonCode).None?
                && (Classify(w).claim == UnknownRequiresHumanReview || Classify(w).confidence < 0.4))
  {
    hide StepsOf, Execute, Lookup, Evaluated, WinProbability, ExpectedValues, Classify;
    ConcludedExactly(e, c, w);
    AssessedShape(e, c, w);
  }

  /** Where the claim of a concluded dispute comes from: the table, the classifier or a fault. */
  lemma ClaimExactly(e: Event, c: Settings, w: World)
    ensures var f, known := Concluded(e, c, w), Lookup(e.network, e.reasonCode);
      if FaultWithin(w, 0, StepsOf(e, c, w))
      then f.claim == Some(UnknownRequiresHumanReview) && f.source == SystemFault && f.needsReview
      else if known.Some? then f.claim == known && f.source == StaticTable && !f.needsReview
      else f.claim == Some(Classify(w).claim) && f.source == LlmFallback
  {
    hide StepsOf, Execute, Lookup, Evaluated, WinProbability, ExpectedValues, Classify;
    ConcludedExactly(e, c, w);
  }

  /** What an unfaulted dispute carries to its end: the rule engine's answer for its claim, the
      probability and values that follow from it, and as its gap the reasons given, if any. */
  lemma AssessmentExactly(e: Event, c: Settings, w: World)
    requires !FaultWithin(w, 0, StepsOf(e, c, w))
    ensures var f := Concluded(e, c, w);
      && f.claim.Some?
      && var r := Evaluated(e.telemetry, e.history, f.claim.value);
      && f.rules == Some(r)
      && f.win == WinProbability(f.claim.value, r)
      && f.values == ExpectedValues(e.amount, AsProbability(f.win), c.fee, c.cost)
      && f.decision == DecideRoute(f.needsReview, f.values)
      && f.gap == if r.reasons != [] then Because(r.reasons) else ChainSatisfied
  {
    ConcludedExactly(e, c, w);
    AssessedShape(e, c, w);
    var a := Assessed(e, c, w);
    if Evaluated(e.telemetry, e.history, a.claim.value).reasons == [] {
      NoReasonMeansQualified(e.telemetry, e.history, a.claim.value);
    }
    hide StepsOf, Execute, Lookup, Evaluated, WinProbability, ExpectedValues, Classify, DecideRoute;
  }

  /** The per-claim default text for the evidence gap is never used: a rule engine with no
      reason to give has qualified the dispute. */
  lemma DefaultGapNeverUsed(e: Event, c: Settings, w: World)
    ensures !Concluded(e, c, w).gap.DefaultFor?
  {
    hide StepsOf, Execute, Lookup, Evaluated, WinProbability, ExpectedValues, Classify;
    ConcludedExactly(e, c, w);
    var a := Assessed(e, c, w);
    OnlyLoopFields(a, w);
    if Evaluated(e.telemetry, e.history, a.claim.value).reasons == [] {
      NoReasonMeansQualified(e.telemetry, e.history, a.claim.value);
    }
  }

  // ----- comparing runs

  lemma MoreEvidenceSameRoute(e: Event, more: seq<Telemetry>, c: Settings, w: World)
    requires multiset(e.history) <= multiset(more) && KeepsFight(e.amount, c.fee, c.cost)
    requires Assessed(e, c, w).decision == Fight
    ensures Assessed(e.(history := more), c, w).decision == Fight
  {
    hide Assessed, RouteOf, KeepsFight;
    var a, b := Assessed(e, c, w), Assessed(e.(history := more), c, w);
    AssessedShape(e, c, w);
    AssessedShape(e.(history := more), c, w);
    assert a.claim == b.claim && a.needsReview == b.needsReview by {
      SameClaim(e, more, c, w);
    }
    MoreEvidenceNeverHurts(e, more, a.claim.value, a.needsReview, c.fee, c.cost);
  }

  lemma SameClaim(e: Event, more: seq<Telemetry>, c: Settings, w: World)
    ensures var a, b := Assessed(e, c, w), Assessed(e.(history := more), c, w);
      a.claim == b.claim && a.needsReview == b.needsReview
  {
    hide Lookup, Evaluated, WinProbability, ExpectedValues, Classify;
  }

  /** Whatever the auditor then says: with the same classification and no fault, a dispute that
      was fought is fought with further history too, and ends contested or out of audits. */
  lemma MoreEvidenceStillFought(e: Event, more: seq<Telemetry>, c: Settings, w: World, v: World)
    requires multiset(e.history) <= multiset(more) && KeepsFight(e.amount, c.fee, c.cost)
    requires v.classified == w.classified && !FaultWithin(v, 0, StepsOf(e.(history := more), c, v))
    requires Concluded(e, c, w).decision == Fight
    ensures var g := Concluded(e.(history := more), c, v);
      g.decision == Fight && (g.status == ContestedDossierFinalized || g.status == EscalatedMaxIterations)
  {
    hide Assessed, Execute, AfterLoop, KeepsFight, StepsOf;
    var e' := e.(history := more);
    ConcludedExactly(e, c, w);
    ConcludedExactly(e', c, v);
    AssessedShape(e, c, w);
    AssessedShape(e', c, v);
    MoreEvidenceSameRoute(e, more, c, w);
    SameClassification(e', c, w, v);
    EndsInOneRightStatus(e', c, v);
    KeepsDecision(Assessed(e', c, v), v);
  }

  lemma SameClassification(e: Event, c: Settings, w: World, v: World)
    requires v.classified == w.classified
    ensures Assessed(e, c, v) == Assessed(e, c, w)
  {
    hide Lookup, Evaluated, WinProbability, ExpectedValues;
  }

  /** Through the whole graph, loop and faults included, and for the same verdicts and faults:
      a dispute that is fought ends the same way, audit by audit, when further historical
      transactions come with it. (The auditor is shown the history, so it may judge otherwise;
      what is excluded is that rules and router take the fight away.) */
  lemma MoreEvidenceSameEnding(e: Event, more: seq<Telemetry>, c: Settings, w: World)
    requires multiset(e.history) <= multiset(more) && KeepsFight(e.amount, c.fee, c.cost)
    requires Concluded(e, c, w).decision == Fight
    ensures var f, g := Concluded(e, c, w), Concluded(e.(history := more), c, w);
      g.decision == Fight && g.status == f.status && g.history == f.history && g.win >= f.win
  {
    hide Assessed, Execute, FirstPass, AuditCount, Trail, WinProbability, Evaluated;
    ConcludedExactly(e, c, w);
    ConcludedExactly(e.(history := more), c, w);
    AssessedShape(e, c, w);
    AssessedShape(e.(history := more), c, w);
    MoreEvidenceSameRoute(e, more, c, w);
    MoreEvidenceMoreWin(e, more, c, w);
  }

  lemma MoreEvidenceMoreWin(e: Event, more: seq<Telemetry>, c: Settings, w: World)
    requires multiset(e.history) <= multiset(more)
    ensures Assessed(e, c, w).win <= Assessed(e.(history := more), c, w).win
  {
    hide Lookup, Evaluated, WinProbability, ExpectedValues, Classify;
    SameClaim(e, more, c, w);
    MoreHistoryMoreBonus(e.telemetry, e.history, more, Assessed(e, c, w).claim.value);
  }

  lemma {:induction false} FirstPassUnderHigherLimit(w: World, i: nat, limit: nat, higher: nat)
    requires i <= limit <= higher && FirstPass(w, i, limit) < limit
    ensures FirstPass(w, i, higher) == FirstPass(w, i, limit)
    decreases limit - i
  {
    if i < limit && !Passes(w, i) {
      FirstPassUnderHigherLimit(w, i + 1, limit, higher);
    }
  }

  /** For the same verdicts and faults, allowing more audits never loses a contested dispute:
      same audits, same ending. (The auditor's prompt names the limit, so it may judge otherwise;
      what is excluded is that the loop does.) */
  lemma MoreAuditsNeverHurt(e: Event, c: Settings, w: World, maxAudits: int)
    requires maxAudits >= c.maxAudits
    requires Concluded(e, c, w).status == ContestedDossierFinalized
    ensures var f, g := Concluded(e, c, w), Concluded(e, c.(maxAudits := maxAudits), w);
      g.status == ContestedDossierFinalized && g.history == f.history
  {
    hide Assessed, Execute, FirstPass;
    var d := c.(maxAudits := maxAudits);
    ConcludedExactly(e, c, w);
    ConcludedExactly(e, d, w);
    AssessedShape(e, c, w);
    AssessedShape(e, d, w);
    assert Assessed(e, d, w).decision == Assessed(e, c, w).decision by {
      SameRoute(e, c, d, w);
    }
    FirstPassUnderHigherLimit(w, 0, AuditLimit(c.maxAudits), AuditLimit(maxAudits));
  }

  lemma SameRoute(e: Event, c: Settings, d: Settings, w: World)
    requires d == c.(maxAudits := d.maxAudits)
    ensures Assessed(e, d, w).decision == Assessed(e, c, w).decision
  {
    hide Lookup, Evaluated, WinProbability, ExpectedValues, Classify;
  }
}
