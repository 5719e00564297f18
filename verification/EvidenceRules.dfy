/** The dispute event as the rule engine sees it. */
module Disputes {
  import opened Options
  import opened PyStrings

  datatype Claim =
    | FraudUnrecognized | ProductNotReceived | DuplicateCharge
    | ServiceNotAsDescribed | ProcessingError | UnknownRequiresHumanReview

  /** One transaction. `day` is the UTC date of its timestamp, absent when that does not parse. */
  datatype Telemetry = Telemetry(
    transactionId: Option<string>, day: Option<int>, ip: Option<string>, device: Option<string>,
    eci: Option<string>, threeDsStatus: Option<string>, carrier: Option<string>,
    deliveredAt: Option<string>, signature: Option<string>)

  datatype Network = Visa | Mastercard | Npci | UnknownNetwork

  datatype Event = Event(
    id: string, network: Network, reasonCode: string, amount: real,
    telemetry: Telemetry, history: seq<Telemetry>)

  /** `text or ""` */
  function OrEmpty(text: Option<string>): string { if text.Some? then text.value else "" }

  predicate Present(text: Option<string>) { OrEmpty(text) != "" }

  predicate Filled(text: Option<string>) { Strip(OrEmpty(text)) != "" }

  function LowerChar(c: char): char { if 'A' <= c <= 'Z' then c - 'A' + 'a' else c }

  function Lower(s: string): string { seq(|s|, i requires 0 <= i < |s| => LowerChar(s[i])) }

  predicate ReadsAs(text: Option<string>, word: string) { Lower(Strip(OrEmpty(text))) == word }
}

/** Compelling Evidence 3.0 qualification. */
module EvidenceRules {
  import opened Options
  import opened SetSums
  import opened PyStrings
  import opened Disputes

  const WINDOW_MIN_DAYS := 120
  const WINDOW_MAX_DAYS := 365
  const MIN_QUALIFYING := 2

  datatype Identifier = IpAddress | DeviceHash

  function SharesIdentifier(disputed: Telemetry, h: Telemetry): Option<Identifier> {
    if Present(disputed.ip) && Present(h.ip) && disputed.ip == h.ip then Some(IpAddress)
    else if Present(disputed.device) && Present(h.device) && disputed.device == h.device then Some(DeviceHash)
    else None
  }

  datatype Judgement =
    | BadTimestamp
    | OutsideWindow(days: int)
    | NoIdentifier
    | Qualifies(days: int, identifier: Identifier)

  /** The first test a historical transaction fails, or how it qualifies. */
  function Judge(disputed: Telemetry, h: Telemetry): Judgement {
    if disputed.day.None? || h.day.None? then BadTimestamp
    else
      var days := disputed.day.value - h.day.value;
      var matched := SharesIdentifier(disputed, h);
      if days < WINDOW_MIN_DAYS || days > WINDOW_MAX_DAYS then OutsideWindow(days)
      else if matched.None? then NoIdentifier
      else Qualifies(days, matched.value)
  }

  datatype Reason =
    | DisputedTimestampMissing
    | NoHistory
    | Excluded(position: nat, why: Judgement)
    | OnlyOneQualifies
    | NotApplicable(claim: Claim)
    | PipelineFault

  datatype Chosen = Chosen(transactionId: Option<string>, days: int, identifier: Identifier)

  datatype Flags = Flags(
    threeDsCompleted: bool, threeDsAttemptedOnly: bool, namedSignature: bool,
    physicalProof: bool, identifierMatch: bool)

  datatype RuleResult = RuleResult(
    applicable: bool, qualified: bool, count: nat, qualifying: seq<Chosen>,
    reasons: seq<Reason>, flags: Flags)

  function QualifyingOf(d: Telemetry, hs: seq<Telemetry>): seq<Chosen> {
    if hs == [] then []
    else
      var before, h := QualifyingOf(d, hs[..|hs| - 1]), hs[|hs| - 1];
      match Judge(d, h)
      case Qualifies(days, identifier) => before + [Chosen(h.transactionId, days, identifier)]
      case _ => before
  }

  function ExclusionsOf(d: Telemetry, hs: seq<Telemetry>): seq<Reason> {
    if hs == [] then []
    else
      var n := |hs| - 1;
      var before, why := ExclusionsOf(d, hs[..n]), Judge(d, hs[n]);
      if why.Qualifies? then before else before + [Excluded(n, why)]
  }

  predicate AnyMatch(d: Telemetry, hs: seq<Telemetry>) {
    exists i | 0 <= i < |hs| :: SharesIdentifier(d, hs[i]).Some?
  }

  function FlagsOf(d: Telemetry, matched: bool): Flags {
    var completed := ReadsAs(d.threeDsStatus, "completed") || Strip(OrEmpty(d.eci)) == "05";
    var attempted := ReadsAs(d.threeDsStatus, "attempted") || Strip(OrEmpty(d.eci)) == "06";
    var named := Filled(d.signature);
    Flags(completed, !completed && attempted, named, named && Filled(d.carrier) && Filled(d.deliveredAt), matched)
  }

  function Opening(d: Telemetry, hs: seq<Telemetry>): seq<Reason> {
    (if d.day.None? then [DisputedTimestampMissing] else []) + (if hs == [] then [NoHistory] else [])
  }

  function Closing(count: nat, hs: seq<Telemetry>, claim: Claim): seq<Reason> {
    (if hs != [] && count == 1 then [OnlyOneQualifies] else [])
    + (if claim != FraudUnrecognized then [NotApplicable(claim)] else [])
  }

  /** What the rule engine answers, stated over the whole history. */
  function Evaluated(d: Telemetry, hs: seq<Telemetry>, claim: Claim): RuleResult {
    var chosen := QualifyingOf(d, hs);
    var applicable := claim == FraudUnrecognized;
    RuleResult(
      applicable, |chosen| >= MIN_QUALIFYING && applicable, |chosen|, chosen,
      Opening(d, hs) + ExclusionsOf(d, hs) + Closing(|chosen|, hs, claim),
      FlagsOf(d, AnyMatch(d, hs)))
  }

  /** The pass over the history: what qualifies, what is excluded and why, and whether any
      identifier is shared at all. */
  method JudgeHistory(d: Telemetry, hs: seq<Telemetry>, reasons0: seq<Reason>)
    returns (qualifying: seq<Chosen>, reasons: seq<Reason>, matchedAny: bool)
    ensures qualifying == QualifyingOf(d, hs) && reasons == reasons0 + ExclusionsOf(d, hs)
    ensures matchedAny == AnyMatch(d, hs)
  {
    hide QualifyingOf, ExclusionsOf, AnyMatch, SharesIdentifier;
    NothingJudged(d);
    qualifying, reasons, matchedAny := [], reasons0, false;
    for i := 0 to |hs|
      invariant qualifying == QualifyingOf(d, hs[..i])
      invariant reasons == reasons0 + ExclusionsOf(d, hs[..i])
      invariant matchedAny == AnyMatch(d, hs[..i])
    {
      var h := hs[i];
      assert hs[..i + 1] == hs[..i] + [h];
      JudgeStep(d, hs[..i], h);
      MatchStep(d, hs[..i], h);
      var matched := SharesIdentifier(d, h);
      if matched.Some? {
        matchedAny := true;
      }
      if d.day.None? || h.day.None? {
        reasons := reasons + [Excluded(i, BadTimestamp)];
        continue;
      }
      var days := d.day.value - h.day.value;
      if days < WINDOW_MIN_DAYS || days > WINDOW_MAX_DAYS {
        reasons := reasons + [Excluded(i, OutsideWindow(days))];
        continue;
      }
      if matched.None? {
        reasons := reasons + [Excluded(i, NoIdentifier)];
        continue;
      }
      qualifying := qualifying + [Chosen(h.transactionId, days, matched.value)];
    }
    assert hs[..|hs|] == hs;
  }

  /** `evaluate_rule_engine` */
  method EvaluateRuleEngine(e: Event, claim: Claim) returns (r: RuleResult)
    ensures r == Evaluated(e.telemetry, e.history, claim)
  {
    hide QualifyingOf, ExclusionsOf, AnyMatch, FlagsOf, Opening, Closing;
    var d, hs := e.telemetry, e.history;
    var reasons := OpeningReasons(d, hs);
    var qualifying, matchedAny;
    qualifying, reasons, matchedAny := JudgeHistory(d, hs, reasons);
    var qualified := |qualifying| >= MIN_QUALIFYING;
    var closing := ClosingReasons(hs, qualifying, claim);
    reasons := reasons + closing;
    var applicable := claim == FraudUnrecognized;
    r := RuleResult(applicable, qualified && applicable, |qualifying|, qualifying, reasons, FlagsOf(d, matchedAny));
  }

  /** The reasons given before the history is looked at. */
  method OpeningReasons(d: Telemetry, hs: seq<Telemetry>) returns (reasons: seq<Reason>)
    ensures reasons == Opening(d, hs)
  {
    reasons := [];
    if d.day.None? {
      reasons := reasons + [DisputedTimestampMissing];
    }
    if hs == [] {
      reasons := reasons + [NoHistory];
    }
  }

  /** The reasons given once it is judged. */
  method ClosingReasons(hs: seq<Telemetry>, qualifying: seq<Chosen>, claim: Claim) returns (reasons: seq<Reason>)
    ensures reasons == Closing(|qualifying|, hs, claim)
  {
    reasons := [];
    var qualified := |qualifying| >= MIN_QUALIFYING;
    if hs != [] && !qualified && |qualifying| < MIN_QUALIFYING {
      if |qualifying| == 1 {
        reasons := reasons + [OnlyOneQualifies];
      }
    }
    if claim != FraudUnrecognized {
      reasons := reasons + [NotApplicable(claim)];
    }
  }

  lemma NothingJudged(d: Telemetry)
    ensures QualifyingOf(d, []) == [] && ExclusionsOf(d, []) == [] && !AnyMatch(d, [])
  {
  }

  lemma JudgeStep(d: Telemetry, hs: seq<Telemetry>, h: Telemetry)
    ensures var why := Judge(d, h);
      && QualifyingOf(d, hs + [h]) == QualifyingOf(d, hs)
         + (if why.Qualifies? then [Chosen(h.transactionId, why.days, why.identifier)] else [])
      && ExclusionsOf(d, hs + [h]) == ExclusionsOf(d, hs) + (if why.Qualifies? then [] else [Excluded(|hs|, why)])
  {
    hide Judge;
    assert (hs + [h])[..|hs|] == hs;
  }

  lemma MatchStep(d: Telemetry, hs: seq<Telemetry>, h: Telemetry)
    ensures AnyMatch(d, hs + [h]) <==> AnyMatch(d, hs) || SharesIdentifier(d, h).Some?
  {
    hide SharesIdentifier;
    var all := hs + [h];
    assert forall i | 0 <= i < |hs| :: all[i] == hs[i];
    assert all[|hs|] == h;
  }

  // ----- what the scheme asks for

  predicate InWindow(d: Telemetry, h: Telemetry) {
    && d.day.Some? && h.day.Some?
    && 120 <= d.day.value - h.day.value <= 365
  }

  predicate SameDevice(d: Telemetry, h: Telemetry) {
    || (Present(d.ip) && d.ip == h.ip)
    || (Present(d.device) && d.device == h.device)
  }

  predicate Compelling(d: Telemetry, h: Telemetry) { InWindow(d, h) && SameDevice(d, h) }

  lemma JudgedExactly(d: Telemetry, h: Telemetry)
    ensures Judge(d, h).Qualifies? <==> Compelling(d, h)
    ensures SharesIdentifier(d, h).Some? <==> SameDevice(d, h)
  {
  }

  /** Which test fails first, and what a transaction that passes them all is recorded with: the
      days between, and the address where it is the same, else the device. */
  lemma JudgementsMean(d: Telemetry, h: Telemetry)
    ensures var j := Judge(d, h);
      && (j.BadTimestamp? <==> d.day.None? || h.day.None?)
      && (j.OutsideWindow? <==> d.day.Some? && h.day.Some? && !InWindow(d, h))
      && (j.OutsideWindow? ==> j.days == d.day.value - h.day.value)
      && (j.NoIdentifier? <==> InWindow(d, h) && !SameDevice(d, h))
      && (j.Qualifies? ==> j == Qualifies(d.day.value - h.day.value, SharedBy(d, h)))
  {
  }

  function SharedBy(d: Telemetry, h: Telemetry): Identifier {
    if Present(d.ip) && d.ip == h.ip then IpAddress else DeviceHash
  }

  ghost function Positions(d: Telemetry, hs: seq<Telemetry>): set<nat> {
    set i: nat | i < |hs| && Compelling(d, hs[i])
  }

  lemma PositionsStep(d: Telemetry, hs: seq<Telemetry>)
    requires hs != []
    ensures var n := |hs| - 1;
      && Positions(d, hs) == Positions(d, hs[..n]) + (if Compelling(d, hs[n]) then {n} else {})
      && n !in Positions(d, hs[..n])
  {
    hide Compelling;
  }

  lemma {:induction false} CountIsPositions(d: Telemetry, hs: seq<Telemetry>)
    ensures |QualifyingOf(d, hs)| == |Positions(d, hs)|
  {
    hide Judge, Compelling;
    if hs == [] {
      assert Positions(d, hs) == {};
    } else {
      hide Positions;
      var n := |hs| - 1;
      CountIsPositions(d, hs[..n]);
      JudgedExactly(d, hs[n]);
      PositionsStep(d, hs);
    }
  }

  /** A dispute qualifies exactly when it is an unrecognised-fraud claim and two different
      historical transactions are compelling. */
  lemma QualifiedExactly(d: Telemetry, hs: seq<Telemetry>, claim: Claim)
    ensures Evaluated(d, hs, claim).qualified <==>
            && claim == FraudUnrecognized
            && exists i: nat, j: nat | i < j < |hs| :: Compelling(d, hs[i]) && Compelling(d, hs[j])
  {
    CountIsPositions(d, hs);
    var p := Positions(d, hs);
    if |p| >= 2 {
      var i :| i in p;
      assert |p - {i}| == |p| - 1;
      var j :| j in p - {i};
      assert Compelling(d, hs[i]) && Compelling(d, hs[j]);
      assert i < j || j < i;
    }
    if i: nat, j: nat :| i < j < |hs| && Compelling(d, hs[i]) && Compelling(d, hs[j]) {
      assert {i, j} <= p;
      SubsetSize({i, j}, p);
    }
  }

  /** Every historical transaction either qualifies or is excluded for exactly one reason:
      the exclusions name the other positions, each once and in order. */
  lemma {:induction false} EveryTransactionJudgedOnce(d: Telemetry, hs: seq<Telemetry>)
    ensures |QualifyingOf(d, hs)| + |ExclusionsOf(d, hs)| == |hs|
    ensures forall k | 0 <= k < |ExclusionsOf(d, hs)| ::
              var r := ExclusionsOf(d, hs)[k];
              r.Excluded? && r.position < |hs| && r.why == Judge(d, hs[r.position]) && !Compelling(d, hs[r.position])
    ensures forall k, l | 0 <= k < l < |ExclusionsOf(d, hs)| ::
              ExclusionsOf(d, hs)[k].position < ExclusionsOf(d, hs)[l].position
    ensures forall i: nat | i < |hs| && !Compelling(d, hs[i]) ::
              Excluded(i, Judge(d, hs[i])) in ExclusionsOf(d, hs)
  {
    hide Judge, Compelling;
    if hs == [] {
    } else {
      var n := |hs| - 1;
      EveryTransactionJudgedOnce(d, hs[..n]);
      JudgedExactly(d, hs[n]);
      var before := ExclusionsOf(d, hs[..n]);
      assert forall i: nat | i < n :: hs[..n][i] == hs[i];
      assert forall k | 0 <= k < |before| :: before[k].Excluded? && before[k].position < n;
    }
  }

  /** `q` records the compelling transaction at `i`: its own id, the days between and the
      identifier it shares. */
  ghost predicate Records(d: Telemetry, hs: seq<Telemetry>, q: Chosen, i: nat) {
    && i < |hs| && InWindow(d, hs[i]) && SameDevice(d, hs[i])
    && q == Chosen(hs[i].transactionId, d.day.value - hs[i].day.value, SharedBy(d, hs[i]))
  }

  lemma LastIsRecorded(d: Telemetry, hs: seq<Telemetry>)
    requires hs != []
    ensures var n := |hs| - 1;
      var before := QualifyingOf(d, hs[..n]);
      if Compelling(d, hs[n])
      then |QualifyingOf(d, hs)| == |before| + 1 && QualifyingOf(d, hs)[..|before|] == before
           && Records(d, hs, QualifyingOf(d, hs)[|before|], n)
      else QualifyingOf(d, hs) == before
  {
    JudgementsMean(d, hs[|hs| - 1]);
    JudgedExactly(d, hs[|hs| - 1]);
    hide Judge;
  }

  /** What is listed as qualifying: every compelling transaction, in order, and nothing else. */
  lemma {:induction false} ChosenExactly(d: Telemetry, hs: seq<Telemetry>) returns (ps: seq<nat>)
    ensures |ps| == |QualifyingOf(d, hs)|
    ensures forall k | 0 <= k < |ps| :: Records(d, hs, QualifyingOf(d, hs)[k], ps[k])
    ensures forall k, l | 0 <= k < l < |ps| :: ps[k] < ps[l]
    ensures forall i: nat | i < |hs| && Compelling(d, hs[i]) :: i in ps
  {
    if hs == [] {
      ps := [];
    } else {
      var n := |hs| - 1;
      var before := ChosenExactly(d, hs[..n]);
      LastIsRecorded(d, hs);
      hide QualifyingOf, Compelling;
      forall k | 0 <= k < |before| ensures Records(d, hs, QualifyingOf(d, hs[..n])[k], before[k]) {
        assert Records(d, hs[..n], QualifyingOf(d, hs[..n])[k], before[k]);
      }
      hide Records;
      if Compelling(d, hs[n]) {
        ps := before + [n];
      } else {
        ps := before;
      }
      forall i: nat | i < |hs| && Compelling(d, hs[i]) ensures i in ps {
        if i < n {
          assert hs[..n][i] == hs[i];
        } else {
          assert ps[|before|] == n;
        }
      }
      BelowEnd(d, hs[..n], QualifyingOf(d, hs[..n]), before);
    }
  }

  lemma BelowEnd(d: Telemetry, hs: seq<Telemetry>, qs: seq<Chosen>, ps: seq<nat>)
    requires |ps| == |qs| && forall k | 0 <= k < |ps| :: Records(d, hs, qs[k], ps[k])
    ensures forall k | 0 <= k < |ps| :: ps[k] < |hs|
  {
    hide InWindow, SameDevice, SharedBy;
  }

  lemma {:induction false} ExclusionsAreExcluded(d: Telemetry, hs: seq<Telemetry>)
    ensures forall r | r in ExclusionsOf(d, hs) :: r.Excluded?
  {
    hide Judge;
    if hs == [] {
    } else {
      ExclusionsAreExcluded(d, hs[..|hs| - 1]);
    }
  }

  lemma ReasonIn(d: Telemetry, hs: seq<Telemetry>, claim: Claim, r: Reason)
    requires !r.Excluded?
    ensures r in Evaluated(d, hs, claim).reasons <==>
            r in Opening(d, hs) || r in Closing(|QualifyingOf(d, hs)|, hs, claim)
  {
    ExclusionsAreExcluded(d, hs);
    hide ExclusionsOf, QualifyingOf, Opening, Closing, AnyMatch, FlagsOf;
  }

  lemma OpeningHas(d: Telemetry, hs: seq<Telemetry>, r: Reason)
    ensures r in Opening(d, hs) <==>
            (r == DisputedTimestampMissing && d.day.None?) || (r == NoHistory && hs == [])
  {
  }

  lemma ClosingHas(count: nat, hs: seq<Telemetry>, claim: Claim, r: Reason)
    ensures r in Closing(count, hs, claim) <==>
            (r == OnlyOneQualifies && hs != [] && count == 1) || (r == NotApplicable(claim) && claim != FraudUnrecognized)
  {
  }

  /** The reasons beside the exclusions: no usable date, no history, one compelling transaction
      alone, another claim. */
  lemma ReasonsExactly(d: Telemetry, hs: seq<Telemetry>, claim: Claim, r: Reason)
    requires !r.Excluded?
    ensures r in Evaluated(d, hs, claim).reasons <==>
            match r
            case DisputedTimestampMissing => d.day.None?
            case NoHistory => hs == []
            case OnlyOneQualifies => |Positions(d, hs)| == 1
            case NotApplicable(c) => c == claim && claim != FraudUnrecognized
            case _ => false
  {
    ReasonIn(d, hs, claim, r);
    OpeningHas(d, hs, r);
    ClosingHas(|QualifyingOf(d, hs)|, hs, claim, r);
    CountIsPositions(d, hs);
    if hs == [] {
      assert Positions(d, hs) == {};
    }
    hide Evaluated, Opening, Closing, QualifyingOf, Positions;
  }

  /** When the engine reports no reason at all, the dispute qualifies. */
  lemma NoReasonMeansQualified(d: Telemetry, hs: seq<Telemetry>, claim: Claim)
    requires Evaluated(d, hs, claim).reasons == []
    ensures Evaluated(d, hs, claim).qualified && |QualifyingOf(d, hs)| == |hs|
  {
    EveryTransactionJudgedOnce(d, hs);
    var chosen := QualifyingOf(d, hs);
    var a, b, c := Opening(d, hs), ExclusionsOf(d, hs), Closing(|chosen|, hs, claim);
    assert |a + b + c| == |a| + |b| + |c|;
    assert a == [] && b == [] && c == [];
  }

  // ----- more history is never worse

  /** One transaction more or less in front of the rest. */
  lemma CountStep(d: Telemetry, hs: seq<Telemetry>, h: Telemetry)
    ensures |QualifyingOf(d, hs + [h])| == |QualifyingOf(d, hs)| + (if Compelling(d, h) then 1 else 0)
  {
    hide Judge, Compelling;
    JudgedExactly(d, h);
    JudgeStep(d, hs, h);
  }

  lemma {:induction false} RemoveOne(d: Telemetry, hs: seq<Telemetry>, k: nat)
    requires k < |hs|
    ensures |QualifyingOf(d, hs)| == |QualifyingOf(d, hs[..k] + hs[k + 1..])| + (if Compelling(d, hs[k]) then 1 else 0)
    decreases |hs|
  {
    hide QualifyingOf, Compelling;
    var n := |hs| - 1;
    var init := hs[..n];
    assert hs == init + [hs[n]];
    CountStep(d, init, hs[n]);
    if k == n {
      assert hs[..k] + hs[k + 1..] == init;
    } else {
      RemoveOne(d, init, k);
      assert hs[..k] + hs[k + 1..] == (init[..k] + init[k + 1..]) + [hs[n]];
      CountStep(d, init[..k] + init[k + 1..], hs[n]);
    }
  }

  lemma MatchKept(d: Telemetry, hs: seq<Telemetry>, more: seq<Telemetry>)
    requires multiset(hs) <= multiset(more) && AnyMatch(d, hs)
    ensures AnyMatch(d, more)
  {
    var i :| 0 <= i < |hs| && SharesIdentifier(d, hs[i]).Some?;
    assert hs[i] in multiset(hs);
    assert hs[i] in multiset(more);
    var k :| 0 <= k < |more| && more[k] == hs[i];
  }

  lemma LessOne(a: multiset<Telemetry>, b: multiset<Telemetry>, h: Telemetry)
    requires a + multiset{h} <= b + multiset{h}
    ensures a <= b
  {
    forall x ensures a[x] <= b[x] {
      assert (a + multiset{h})[x] <= (b + multiset{h})[x];
    }
  }

  lemma DropOne(hs: seq<Telemetry>, more: seq<Telemetry>) returns (k: nat)
    requires hs != [] && multiset(hs) <= multiset(more)
    ensures k < |more| && more[k] == hs[|hs| - 1]
    ensures multiset(hs[..|hs| - 1]) <= multiset(more[..k] + more[k + 1..])
  {
    var n := |hs| - 1;
    var h := hs[n];
    assert h in multiset(hs);
    assert h in multiset(more);
    k :| 0 <= k < |more| && more[k] == h;
    assert hs == hs[..n] + [h];
    assert more == more[..k] + [h] + more[k + 1..];
    assert multiset(more[..k] + more[k + 1..]) + multiset{h} == multiset(more);
    assert multiset(hs[..n]) + multiset{h} == multiset(hs);
    LessOne(multiset(hs[..n]), multiset(more[..k] + more[k + 1..]), h);
  }

  /** Further transactions, wherever they are inserted, take nothing away. */
  lemma {:induction false} MoreHistory(d: Telemetry, hs: seq<Telemetry>, more: seq<Telemetry>)
    requires multiset(hs) <= multiset(more)
    ensures |QualifyingOf(d, hs)| <= |QualifyingOf(d, more)|
  {
    hide Judge, Compelling, SharesIdentifier;
    if hs == [] {
    } else {
      var n := |hs| - 1;
      var k := DropOne(hs, more);
      MoreHistory(d, hs[..n], more[..k] + more[k + 1..]);
      RemoveOne(d, more, k);
      assert hs[..n] + hs[n + 1..] == hs[..n];
      RemoveOne(d, hs, n);
    }
  }

  /** The verdict depends on which transactions there are, not on their order. */
  lemma OrderIrrelevant(d: Telemetry, hs: seq<Telemetry>, other: seq<Telemetry>, claim: Claim)
    requires multiset(hs) == multiset(other)
    ensures Evaluated(d, hs, claim).qualified == Evaluated(d, other, claim).qualified
    ensures Evaluated(d, hs, claim).count == Evaluated(d, other, claim).count
    ensures Evaluated(d, hs, claim).flags == Evaluated(d, other, claim).flags
  {
    hide QualifyingOf, AnyMatch, ExclusionsOf;
    MoreHistory(d, hs, other);
    MoreHistory(d, other, hs);
    if AnyMatch(d, hs) { MatchKept(d, hs, other); }
    if AnyMatch(d, other) { MatchKept(d, other, hs); }
  }
}
