/** The fixed tables of the dispute workflow and what is read off and stored by them. */
module DisputeTables {
  import opened Options
  import opened PyStrings
  import opened Disputes
  import opened EvidenceRules
  import opened ExpectedValue
  import opened DisputeWorkflow

  // ----- reason codes

  predicate Stripped(code: string, a: string, b: string, c: string) {
    var text := Strip(code);
    text == a || text == b || text == c
  }

  lemma VisaCodes(code: string)
    ensures var known := Lookup(Visa, code);
      && (known == Some(FraudUnrecognized) <==> Stripped(code, "10.1", "10.4", "10.4"))
      && (known == Some(ProductNotReceived) <==> Stripped(code, "13.1", "13.2", "13.2"))
      && (known == Some(ServiceNotAsDescribed) <==> Stripped(code, "13.3", "13.3", "13.3"))
      && (known == Some(DuplicateCharge) <==> Stripped(code, "12.6", "12.6", "12.6"))
      && (known == Some(ProcessingError) <==> Stripped(code, "13.6", "12.1", "12.1"))
      && known != Some(UnknownRequiresHumanReview)
  {
    hide Strip;
  }

  lemma MastercardCodes(code: string)
    ensures var known := Lookup(Mastercard, code);
      && (known == Some(FraudUnrecognized) <==> Stripped(code, "4837", "4863", "4840"))
      && (known == Some(ProductNotReceived) <==> Stripped(code, "4853", "4853", "4853"))
      && (known == Some(ServiceNotAsDescribed) <==> Stripped(code, "4859", "4859", "4859"))
      && (known == Some(DuplicateCharge) <==> Stripped(code, "4842", "4842", "4842"))
      && (known == Some(ProcessingError) <==> Stripped(code, "4860", "4871", "4871"))
      && known != Some(UnknownRequiresHumanReview)
  {
    hide Strip;
  }

  lemma NpciCodes(code: string)
    ensures var known := Lookup(Npci, code);
      && (known == Some(FraudUnrecognized) <==> Stripped(code, "FRM-CNF", "FRM-CNF", "FRM-CNF"))
      && (known == Some(ProductNotReceived) <==> Stripped(code, "FRM-GNR", "FRM-GNR", "FRM-GNR"))
      && (known == Some(ServiceNotAsDescribed) <==> Stripped(code, "SRV-NAD", "SRV-NAD", "SRV-NAD"))
      && (known == Some(DuplicateCharge) <==> Stripped(code, "FRM-DUP", "FRM-DUP", "FRM-DUP"))
      && (known == Some(ProcessingError) <==> Stripped(code, "SYS-ERR", "SYS-ERR", "SYS-ERR"))
      && known != Some(UnknownRequiresHumanReview)
    ensures Lookup(UnknownNetwork, code).None?
  {
    hide Strip;
  }

  // ----- evidence flags

  lemma FlagsRead(d: Telemetry, matched: bool)
    ensures var f := FlagsOf(d, matched);
      && (f.threeDsCompleted <==> Lower(Strip(OrEmpty(d.threeDsStatus))) == "completed" || Strip(OrEmpty(d.eci)) == "05")
      && (f.threeDsAttemptedOnly <==>
            !f.threeDsCompleted
            && (Lower(Strip(OrEmpty(d.threeDsStatus))) == "attempted" || Strip(OrEmpty(d.eci)) == "06"))
      && (f.namedSignature <==> Strip(OrEmpty(d.signature)) != "")
      && (f.physicalProof <==>
            f.namedSignature && Strip(OrEmpty(d.carrier)) != "" && Strip(OrEmpty(d.deliveredAt)) != "")
      && f.identifierMatch == matched
  {
    hide Strip, Lower;
  }

  /** Case and blanks do not matter. */
  lemma WordsAreRead()
    ensures Lower(Strip(" Completed ")) == "completed"
  {
    var text := " Completed ";
    assert StripLeft(text) == StripLeft(text[1..]) == text[1..];
    var rest := text[1..];
    assert StripRight(rest) == StripRight(rest[..9]) == rest[..9];
    assert Strip(text) == "Completed";
    assert Lower("Completed") == "completed";
  }

  lemma LettersFold()
    ensures Lower("ABCDEFGHIJKLMNOPQRSTUVWXYZ") == "abcdefghijklmnopqrstuvwxyz"
  {
  }

  lemma OthersStay()
    ensures forall c: char | c < 'A' || 'Z' < c :: LowerChar(c) == c
  {
  }

  // ----- win probabilities

  /** Without any evidence, claim by claim. */
  lemma BareWin(r: RuleResult)
    requires !r.qualified && r.flags == NoFlags
    ensures WinProbability(FraudUnrecognized, r) == 35 && WinProbability(ProductNotReceived, r) == 30
    ensures WinProbability(DuplicateCharge, r) == 55 && WinProbability(ServiceNotAsDescribed, r) == 30
    ensures WinProbability(ProcessingError, r) == 45 && WinProbability(UnknownRequiresHumanReview, r) == 25
  {
  }

  /** What each piece of evidence adds to a claim that starts at 30. */
  lemma WinWith(r: RuleResult)
    ensures r.flags == NoFlags && r.qualified ==> WinProbability(ProductNotReceived, r) == 65
    ensures !r.qualified && r.flags == NoFlags.(identifierMatch := true) ==> WinProbability(ProductNotReceived, r) == 35
    ensures !r.qualified && r.flags == NoFlags.(threeDsCompleted := true) ==> WinProbability(ProductNotReceived, r) == 45
    ensures !r.qualified && r.flags == NoFlags.(threeDsAttemptedOnly := true) ==> WinProbability(ProductNotReceived, r) == 27
    ensures !r.qualified && r.flags == NoFlags.(namedSignature := true) ==> WinProbability(ProductNotReceived, r) == 38
    ensures !r.qualified && r.flags == NoFlags.(physicalProof := true) ==> WinProbability(ProductNotReceived, r) == 33
  {
  }

  // ----- the stored row

  lemma EndingKeeps(a: State, w: World)
    ensures Ending(a, w).event == a.event && Ending(a, w).claim == a.claim
  {
  }

  /** Whatever happens, a dispute ends with its own event and with some claim. */
  lemma ConcludedKeeps(e: Event, c: Settings, w: World)
    ensures Concluded(e, c, w).event == e && Concluded(e, c, w).claim.Some?
  {
    hide Assessed, StepsOf, Execute, Ending, FaultWithin;
    ConcludedExactly(e, c, w);
    AssessedShape(e, c, w);
    EndingKeeps(Assessed(e, c, w), w);
  }

  /** The row of a concluded dispute: network, code and payload of its event, and claim, decision,
      status, probability and number of audits of its outcome. */
  lemma StoredColumns(e: Event, c: Settings, w: World)
    ensures var s := Concluded(e, c, w);
      var row := RowOf(e, s);
      && row.network == e.network && row.reasonCode == e.reasonCode && row.event == e && row.result == s
      && s.claim == Some(row.claim) && row.decision == s.decision && row.status == s.status
      && row.win == s.win && row.iterations == |s.history|
  {
    hide Concluded;
    TrailIsSound(e, c, w);
    ConcludedKeeps(e, c, w);
  }
}
