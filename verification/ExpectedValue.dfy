/** Win probability, in hundredths, and the expected-value route it leads to. */
module ExpectedValue {
  import opened Options
  import opened Numeric
  import opened PyStrings
  import opened Disputes
  import opened EvidenceRules

  const MIN_WIN := 2
  const MAX_WIN := 95

  function BaseWin(claim: Claim): int {
    match claim
    case FraudUnrecognized => 35
    case ProductNotReceived => 30
    case DuplicateCharge => 55
    case ServiceNotAsDescribed => 30
    case ProcessingError => 45
    case UnknownRequiresHumanReview => 25
  }

  function HistoryBonus(r: RuleResult): int {
    if r.qualified then 35 else if r.flags.identifierMatch then 5 else 0
  }

  function ProofBonus(f: Flags): int {
    (if f.threeDsCompleted then 15 else if f.threeDsAttemptedOnly then -3 else 0)
    + (if f.namedSignature then 8 else 0)
    + (if f.physicalProof then 3 else 0)
  }

  function RawWin(claim: Claim, r: RuleResult): int { BaseWin(claim) + HistoryBonus(r) + ProofBonus(r.flags) }

  function Clamp(p: int): int { if p < MIN_WIN then MIN_WIN else if p > MAX_WIN then MAX_WIN else p }

  function WinProbability(claim: Claim, r: RuleResult): int { Clamp(RawWin(claim, r)) }

  /** `compute_win_probability`. The result has two decimals, so its `round(_, 4)` keeps it. */
  method ComputeWinProbability(claim: Claim, r: RuleResult) returns (probability: int)
    ensures probability == WinProbability(claim, r)
    ensures MIN_WIN <= probability <= MAX_WIN
  {
    probability := BaseWin(claim);
    if r.qualified {
      probability := probability + 35;
    } else if r.flags.identifierMatch {
      probability := probability + 5;
    }
    if r.flags.threeDsCompleted {
      probability := probability + 15;
    } else if r.flags.threeDsAttemptedOnly {
      probability := probability - 3;
    }
    if r.flags.namedSignature {
      probability := probability + 8;
    }
    if r.flags.physicalProof {
      probability := probability + 3;
    }
    probability := if probability < MAX_WIN then probability else MAX_WIN;
    probability := if MIN_WIN > probability then MIN_WIN else probability;
  }

  /** On what the rule engine answers the lower clamp never binds, and the upper one binds
      exactly on a qualified dispute with completed 3-D Secure and physical proof. */
  lemma ClampBindsExactly(e: Event, claim: Claim)
    ensures var r := Evaluated(e.telemetry, e.history, claim);
      && RawWin(claim, r) >= 22
      && (RawWin(claim, r) > MAX_WIN <==> r.qualified && r.flags.threeDsCompleted && r.flags.physicalProof)
  {
    hide QualifyingOf, ExclusionsOf, AnyMatch;
    var r := Evaluated(e.telemetry, e.history, claim);
    assert r.qualified ==> claim == FraudUnrecognized;
    assert r.flags.physicalProof ==> r.flags.namedSignature;
  }

  // ----- expected values

  datatype Values = Values(fight: real, settle: real)

  function AsProbability(hundredths: int): real { hundredths as real / 100.0 }

  function FightValue(amount: real, p: real, fee: real, cost: real): real {
    p * amount - (1.0 - p) * (amount + fee) - cost
  }

  /** `compute_expected_values` */
  function ExpectedValues(amount: real, p: real, fee: real, cost: real): Values {
    Values(Round2(FightValue(amount, p, fee, cost)), Round2(-amount))
  }

  datatype Decision = Pending | Fight | Settle | Escalate

  /** `decide_route` */
  function DecideRoute(needsReview: bool, v: Values): Decision {
    if needsReview then Escalate else if v.fight > v.settle then Fight else Settle
  }

  /** What fighting is worth beyond settling, before rounding. */
  function Advantage(amount: real, p: real, fee: real, cost: real): real {
    p * (2.0 * amount + fee) - (fee + cost)
  }

  lemma AdvantageIsGap(amount: real, p: real, fee: real, cost: real)
    ensures Advantage(amount, p, fee, cost) == FightValue(amount, p, fee, cost) + amount
  {
  }

  /** Fighting is chosen only above break-even, and always when it is ahead by more than a cent. */
  lemma FightsAboveBreakEven(amount: real, p: real, fee: real, cost: real)
    ensures DecideRoute(false, ExpectedValues(amount, p, fee, cost)).Fight? ==> Advantage(amount, p, fee, cost) > 0.0
    ensures Advantage(amount, p, fee, cost) > 0.01 ==> DecideRoute(false, ExpectedValues(amount, p, fee, cost)).Fight?
  {
    AdvantageIsGap(amount, p, fee, cost);
    var f := FightValue(amount, p, fee, cost);
    if f <= -amount {
      Round2Monotone(f, -amount);
    }
    RoundIsNearest(f * 100.0);
    RoundIsNearest(-amount * 100.0);
  }

  predicate Ahead(cents: int, p: real, fee: real, cost: real) {
    var ahead := Advantage(cents as real / 100.0, p, fee, cost) * 100.0;
    ahead > 0.5 || (ahead == 0.5 && cents % 2 != 0)
  }

  /** On an amount in whole cents the choice is exact: more than half a cent ahead, or exactly
      half a cent ahead of an odd number of cents, which rounds to the even one above. */
  lemma FightsExactly(cents: int, p: real, fee: real, cost: real)
    ensures DecideRoute(false, ExpectedValues(cents as real / 100.0, p, fee, cost)).Fight? <==> Ahead(cents, p, fee, cost)
  {
    var amount := cents as real / 100.0;
    AdvantageIsGap(amount, p, fee, cost);
    var ahead := Advantage(amount, p, fee, cost) * 100.0;
    assert FightValue(amount, p, fee, cost) * 100.0 == ahead - cents as real;
    assert -amount * 100.0 == (-cents) as real;
    RoundOfInteger(-cents);
    RoundAhead(-cents, ahead);
  }

  lemma RoundAhead(n: int, ahead: real)
    ensures RoundHalfEven(n as real + ahead) > n <==> ahead > 0.5 || (ahead == 0.5 && n % 2 != 0)
  {
    if ahead >= 1.0 {
      RoundOfInteger(n + 1);
      RoundMonotone((n + 1) as real, n as real + ahead);
    } else if ahead <= 0.0 {
      RoundOfInteger(n);
      RoundMonotone(n as real + ahead, n as real);
    } else {
      assert (n as real + ahead).Floor == n;
    }
  }

  lemma Times(a: real, p: real, q: real)
    requires a >= 0.0 && p <= q
    ensures p * a <= q * a
  {
  }

  /** A higher probability never lowers the value of fighting exactly when twice the amount
      plus the fee is not negative. */
  lemma ProbabilityHelpsExactly(amount: real, fee: real, cost: real)
    ensures 2.0 * amount + fee >= 0.0 <==>
            forall p, q :: p <= q ==> FightValue(amount, p, fee, cost) <= FightValue(amount, q, fee, cost)
  {
    var a := 2.0 * amount + fee;
    if a >= 0.0 {
      forall p, q | p <= q ensures FightValue(amount, p, fee, cost) <= FightValue(amount, q, fee, cost) {
        Times(a, p, q);
        AdvantageIsGap(amount, p, fee, cost);
        AdvantageIsGap(amount, q, fee, cost);
      }
    } else {
      AdvantageIsGap(amount, 0.0, fee, cost);
      AdvantageIsGap(amount, 1.0, fee, cost);
      assert FightValue(amount, 0.0, fee, cost) > FightValue(amount, 1.0, fee, cost);
    }
  }

  // ----- evidence monotonicity, end to end

  lemma MoreHistoryMoreBonus(d: Telemetry, hs: seq<Telemetry>, more: seq<Telemetry>, claim: Claim)
    requires multiset(hs) <= multiset(more)
    ensures var r, s := Evaluated(d, hs, claim), Evaluated(d, more, claim);
      && HistoryBonus(r) <= HistoryBonus(s)
      && ProofBonus(r.flags) == ProofBonus(s.flags)
      && WinProbability(claim, r) <= WinProbability(claim, s)
  {
    hide QualifyingOf, ExclusionsOf, AnyMatch;
    MoreHistory(d, hs, more);
    if AnyMatch(d, hs) {
      MatchKept(d, hs, more);
    }
  }

  function RouteOf(e: Event, claim: Claim, needsReview: bool, fee: real, cost: real): Decision {
    var p := WinProbability(claim, Evaluated(e.telemetry, e.history, claim));
    DecideRoute(needsReview, ExpectedValues(e.amount, AsProbability(p), fee, cost))
  }

  // ----- when better evidence keeps a dispute fought

  predicate Fights(amount: real, win: int, fee: real, cost: real) {
    DecideRoute(false, ExpectedValues(amount, AsProbability(win), fee, cost)).Fight?
  }

  const LOWEST := 22

  /** Fighting at the lowest probability there is means fighting at the highest. */
  predicate KeepsFight(amount: real, fee: real, cost: real) {
    Fights(amount, LOWEST, fee, cost) ==> Fights(amount, MAX_WIN, fee, cost)
  }

  lemma ProbabilityRange(e: Event, claim: Claim)
    ensures LOWEST <= WinProbability(claim, Evaluated(e.telemetry, e.history, claim)) <= MAX_WIN
  {
    hide Evaluated;
    ClampBindsExactly(e, claim);
  }

  lemma HigherFights(amount: real, p: int, q: int, fee: real, cost: real)
    requires 2.0 * amount + fee >= 0.0 && p <= q && Fights(amount, p, fee, cost)
    ensures Fights(amount, q, fee, cost)
  {
    ProbabilityHelpsExactly(amount, fee, cost);
    Round2Monotone(FightValue(amount, AsProbability(p), fee, cost), FightValue(amount, AsProbability(q), fee, cost));
  }

  lemma LowerFights(amount: real, p: int, q: int, fee: real, cost: real)
    requires 2.0 * amount + fee < 0.0 && p <= q && Fights(amount, q, fee, cost)
    ensures Fights(amount, p, fee, cost)
  {
    var a := 2.0 * amount + fee;
    var x, y := AsProbability(p), AsProbability(q);
    Times(-a, x, y);
    AdvantageIsGap(amount, x, fee, cost);
    AdvantageIsGap(amount, y, fee, cost);
    Round2Monotone(FightValue(amount, y, fee, cost), FightValue(amount, x, fee, cost));
  }

  lemma BetterChanceStillFights(amount: real, p: int, q: int, fee: real, cost: real)
    requires KeepsFight(amount, fee, cost) && LOWEST <= p <= q <= MAX_WIN && Fights(amount, p, fee, cost)
    ensures Fights(amount, q, fee, cost)
  {
    hide Fights;
    if 2.0 * amount + fee >= 0.0 {
      HigherFights(amount, p, q, fee, cost);
    } else {
      LowerFights(amount, LOWEST, p, fee, cost);
      LowerFights(amount, q, MAX_WIN, fee, cost);
    }
  }

  /** Inserting historical transactions anywhere never lowers the win probability; and where the
      terms keep a fight, it never turns a dispute that is fought into one that is not. */
  lemma MoreEvidenceNeverHurts(
    e: Event, more: seq<Telemetry>, claim: Claim, needsReview: bool, fee: real, cost: real)
    requires multiset(e.history) <= multiset(more)
    ensures WinProbability(claim, Evaluated(e.telemetry, e.history, claim))
         <= WinProbability(claim, Evaluated(e.telemetry, more, claim))
    ensures KeepsFight(e.amount, fee, cost) && RouteOf(e, claim, needsReview, fee, cost).Fight?
        ==> RouteOf(e.(history := more), claim, needsReview, fee, cost).Fight?
  {
    hide Evaluated, WinProbability, ExpectedValues, KeepsFight;
    MoreHistoryMoreBonus(e.telemetry, e.history, more, claim);
    ProbabilityRange(e, claim);
    ProbabilityRange(e.(history := more), claim);
    var p := WinProbability(claim, Evaluated(e.telemetry, e.history, claim));
    var q := WinProbability(claim, Evaluated(e.telemetry, more, claim));
    if KeepsFight(e.amount, fee, cost) && RouteOf(e, claim, needsReview, fee, cost).Fight? {
      BetterChanceStillFights(e.amount, p, q, fee, cost);
    }
  }

  /** On an amount, fee and cost, no dispute of that amount is ever fought and then, with
      further historical transactions, not fought any more. */
  ghost predicate EvidenceKeepsFight(amount: real, fee: real, cost: real) {
    forall e: Event, more: seq<Telemetry>, claim: Claim |
      e.amount == amount && multiset(e.history) <= multiset(more) && RouteOf(e, claim, false, fee, cost).Fight? ::
      RouteOf(e.(history := more), claim, false, fee, cost).Fight?
  }

  const Match := Telemetry(None, Some(0), Some("i"), None, None, None, None, None, None)

  /** A dispute 200 days after the matching transaction, with 3-D Secure only attempted, or
      completed along with a signed and carried delivery. */
  function Disputed(amount: real, proven: bool): Event {
    var text := if proven then Some("x") else None;
    Event("d", Visa, "", amount,
          Telemetry(None, Some(200), Some("i"), None, Some(if proven then "05" else "06"), None, text, text, text), [])
  }

  lemma DisputedProof(amount: real, proven: bool, matched: bool)
    ensures ProofBonus(FlagsOf(Disputed(amount, proven).telemetry, matched)) == if proven then 26 else -3
  {
    NothingToStrip("05");
    NothingToStrip("06");
    NothingToStrip("x");
    assert Strip("") == "" && |Lower("")| == 0;
    assert "06"[1] != "05"[1];
  }

  lemma DisputedHistory(amount: real, proven: bool, claim: Claim)
    ensures var d := Disputed(amount, proven).telemetry;
      && HistoryBonus(Evaluated(d, [], claim)) == 0
      && HistoryBonus(Evaluated(d, [Match], claim)) == 5
      && HistoryBonus(Evaluated(d, [Match, Match], claim)) == if claim == FraudUnrecognized then 35 else 5
  {
    var d := Disputed(amount, proven).telemetry;
    assert Compelling(d, Match) && SharesIdentifier(d, Match).Some?;
    NothingJudged(d);
    QualifiedExactly(d, [], claim);
    QualifiedExactly(d, [Match], claim);
    QualifiedExactly(d, [Match, Match], claim);
    assert [Match][0] == Match && [Match, Match][0] == Match && [Match, Match][1] == Match;
    hide Compelling, SharesIdentifier, QualifyingOf, ExclusionsOf, FlagsOf;
    assert AnyMatch(d, [Match]) && AnyMatch(d, [Match, Match]);
  }

  lemma DisputedWin(amount: real, proven: bool, claim: Claim)
    ensures var d, low := Disputed(amount, proven).telemetry, BaseWin(claim) + (if proven then 26 else -3);
      && WinProbability(claim, Evaluated(d, [], claim)) == Clamp(low)
      && WinProbability(claim, Evaluated(d, [Match], claim)) == Clamp(low + 5)
      && (claim == FraudUnrecognized ==> WinProbability(claim, Evaluated(d, [Match, Match], claim)) == Clamp(low + 35))
  {
    var d := Disputed(amount, proven).telemetry;
    DisputedHistory(amount, proven, claim);
    DisputedProof(amount, proven, AnyMatch(d, []));
    DisputedProof(amount, proven, AnyMatch(d, [Match]));
    DisputedProof(amount, proven, AnyMatch(d, [Match, Match]));
    hide FlagsOf, QualifyingOf, ExclusionsOf, AnyMatch, HistoryBonus, ProofBonus, Disputed;
  }

  /** One link: evidence that lifts a real dispute from `p` to `q` keeps its fight. */
  lemma Link(amount: real, proven: bool, claim: Claim, more: seq<Telemetry>, fee: real, cost: real)
    requires EvidenceKeepsFight(amount, fee, cost)
    ensures var d := Disputed(amount, proven).telemetry;
      Fights(amount, WinProbability(claim, Evaluated(d, [], claim)), fee, cost)
      ==> Fights(amount, WinProbability(claim, Evaluated(d, more, claim)), fee, cost)
  {
    hide WinProbability, Evaluated, ExpectedValues;
    var e := Disputed(amount, proven);
    assert multiset(e.history) <= multiset(more);
    assert RouteOf(e.(history := more), claim, false, fee, cost).Fight?
      <==> Fights(amount, WinProbability(claim, Evaluated(e.telemetry, more, claim)), fee, cost);
  }

  /** The steps that real evidence makes lead from the lowest probability to the highest. */
  lemma LinksCoverRange(amount: real, fee: real, cost: real)
    requires EvidenceKeepsFight(amount, fee, cost) && Fights(amount, LOWEST, fee, cost)
    ensures Fights(amount, MAX_WIN, fee, cost)
  {
    DisputedWin(amount, false, UnknownRequiresHumanReview);
    DisputedWin(amount, false, ProductNotReceived);
    DisputedWin(amount, false, FraudUnrecognized);
    DisputedWin(amount, true, FraudUnrecognized);
    hide WinProbability, Evaluated, Fights, Disputed, EvidenceKeepsFight;
    Link(amount, false, UnknownRequiresHumanReview, [Match], fee, cost);
    assert Fights(amount, 27, fee, cost);
    Link(amount, false, ProductNotReceived, [Match], fee, cost);
    assert Fights(amount, 32, fee, cost);
    Link(amount, false, FraudUnrecognized, [Match, Match], fee, cost);
    assert Fights(amount, 67, fee, cost);
    if 2.0 * amount + fee >= 0.0 {
      HigherFights(amount, 67, MAX_WIN, fee, cost);
    } else {
      LowerFights(amount, 61, 67, fee, cost);
      Link(amount, true, FraudUnrecognized, [Match, Match], fee, cost);
    }
  }

  /** Exactly which terms keep every fight: those on which a dispute at 0.22 is not fought or
      one at 0.95 is. The two comparisons can be made before any dispute comes in. */
  lemma EvidenceKeepsFightExactly(amount: real, fee: real, cost: real)
    ensures EvidenceKeepsFight(amount, fee, cost) <==> KeepsFight(amount, fee, cost)
  {
    if KeepsFight(amount, fee, cost) {
      hide KeepsFight, RouteOf;
      forall e: Event, more: seq<Telemetry>, claim: Claim |
        e.amount == amount && multiset(e.history) <= multiset(more) && RouteOf(e, claim, false, fee, cost).Fight?
        ensures RouteOf(e.(history := more), claim, false, fee, cost).Fight?
      {
        MoreEvidenceNeverHurts(e, more, claim, false, fee, cost);
      }
    }
    if EvidenceKeepsFight(amount, fee, cost) && Fights(amount, LOWEST, fee, cost) {
      LinksCoverRange(amount, fee, cost);
    }
  }

  /** The same in numbers, for amounts in whole cents. */
  lemma EvidenceKeepsFightInCents(cents: int, fee: real, cost: real)
    ensures EvidenceKeepsFight(cents as real / 100.0, fee, cost) <==>
            (Ahead(cents, 0.22, fee, cost) ==> Ahead(cents, 0.95, fee, cost))
  {
    hide EvidenceKeepsFight, Advantage, ExpectedValues;
    EvidenceKeepsFightExactly(cents as real / 100.0, fee, cost);
    FightsExactly(cents, 0.22, fee, cost);
    FightsExactly(cents, 0.95, fee, cost);
  }

  /** Where fee and cost are not together a gain, or the amount is not too negative, the terms
      keep every fight. */
  lemma NoNetGainKeepsFight(amount: real, fee: real, cost: real)
    requires fee + cost >= 0.0 || 2.0 * amount + fee >= 0.0
    ensures KeepsFight(amount, fee, cost)
  {
    if Fights(amount, LOWEST, fee, cost) {
      FightsAboveBreakEven(amount, 0.22, fee, cost);
      if 2.0 * amount + fee < 0.0 {
        Times(0.22, 2.0 * amount + fee, 0.0);
      } else {
        HigherFights(amount, LOWEST, MAX_WIN, fee, cost);
      }
    }
  }

  /** Terms that do not: a refund of 1000 whose contest pays 1000 is fought without history and
      settled once two compelling transactions come with it. */
  lemma RefundReversesFight()
    ensures var e := Disputed(-1000.0, false);
      && RouteOf(e, FraudUnrecognized, false, 15.0, -1000.0).Fight?
      && RouteOf(e.(history := [Match, Match]), FraudUnrecognized, false, 15.0, -1000.0).Settle?
    ensures !EvidenceKeepsFight(-1000.0, 15.0, -1000.0)
  {
    var e := Disputed(-1000.0, false);
    DisputedWin(-1000.0, false, FraudUnrecognized);
    FightsAboveBreakEven(-1000.0, 0.32, 15.0, -1000.0);
    FightsAboveBreakEven(-1000.0, 0.67, 15.0, -1000.0);
    hide WinProbability, Evaluated, ExpectedValues;
    assert multiset(e.history) <= multiset([Match, Match]);
  }
}
