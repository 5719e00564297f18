/** `balance_json_text`: one pass with a bracket stack and string/escape state, then either
    truncation at the first mismatched closer or completion of what is still open. */
module JsonRepair {
  import opened PyStrings

  /** What one pass knows: the open brackets, innermost last, or that a closer mismatched. */
  datatype Scan = Open(stack: string, inString: bool, escape: bool) | Mismatch

  const INITIAL := Open([], false, false)

  function CloserOf(c: char): char { if c == '{' then '}' else ']' }

  function Step(s: Scan, c: char): Scan {
    if s.Mismatch? then s
    else if s.inString then
      if s.escape then s.(escape := false)
      else if c == '\\' then s.(escape := true)
      else if c == '\"' then s.(inString := false)
      else s
    else if c == '\"' then s.(inString := true)
    else if c == '{' || c == '[' then s.(stack := s.stack + [c])
    else if c == '}' || c == ']' then
      var n := |s.stack|;
      if n == 0 || CloserOf(s.stack[n - 1]) != c then Mismatch else s.(stack := s.stack[..n - 1])
    else s
  }

  function ScanFrom(s: Scan, text: string): Scan {
    if text == [] then s else Step(ScanFrom(s, text[..|text| - 1]), text[|text| - 1])
  }

  function ScanOf(text: string): Scan { ScanFrom(INITIAL, text) }

  /** A second pass over `text` finds no mismatch, nothing open and no open string. */
  predicate Balanced(text: string) {
    var s := ScanOf(text);
    s.Open? && s.stack == [] && !s.inString
  }

  function StripCommas(s: string): string {
    if s != [] && s[|s| - 1] == ',' then StripCommas(s[..|s| - 1]) else s
  }

  /** `text.rstrip().rstrip(",")` */
  function Trimmed(text: string): string { StripCommas(StripRight(text)) }

  /** The closers for a stack, innermost first. */
  function Closers(stack: string): string {
    if stack == [] then [] else [CloserOf(stack[|stack| - 1])] + Closers(stack[..|stack| - 1])
  }

  /** The length of the longest prefix without a mismatched closer. */
  function SoundLength(text: string): nat {
    if text == [] || ScanOf(text).Open? then |text| else SoundLength(text[..|text| - 1])
  }

  lemma {:induction false} SoundLengthInRange(text: string)
    ensures SoundLength(text) <= |text|
    ensures ScanOf(text[..SoundLength(text)]).Open?
    ensures SoundLength(text) < |text| ==> ScanOf(text[..SoundLength(text) + 1]).Mismatch?
  {
    if text == [] || ScanOf(text).Open? {
      assert text[..|text|] == text;
    } else {
      var n := |text| - 1;
      SoundLengthInRange(text[..n]);
      var m := SoundLength(text[..n]);
      assert text[..n][..m] == text[..m];
      if m < n {
        assert text[..n][..m + 1] == text[..m + 1];
      } else {
        assert text[..n + 1] == text;
      }
    }
  }

  function Completion(s: Scan): string
    requires s.Open?
  {
    (if s.inString then "\"" else "") + Closers(s.stack)
  }

  /** What the function returns. */
  function Repair(text: string): string {
    var n := SoundLength(text);
    SoundLengthInRange(text);
    if n < |text| then Trimmed(text[..n]) + Closers(ScanOf(text[..n]).stack)
    else if Balanced(text) then text
    else Trimmed(text) + Completion(ScanOf(text[..n]))
  }

  // ----- scanning composes

  lemma {:induction false} ScanAppend(s: Scan, a: string, b: string)
    ensures ScanFrom(s, a + b) == ScanFrom(ScanFrom(s, a), b)
    decreases |b|
  {
    if b == [] {
      assert a + b == a;
    } else {
      assert (a + b)[..|a + b| - 1] == a + b[..|b| - 1];
      ScanAppend(s, a, b[..|b| - 1]);
    }
  }

  lemma ScanOne(s: Scan, c: char)
    ensures ScanFrom(s, [c]) == Step(s, c)
  {
    assert [c][..0] == [];
  }

  lemma {:induction false} MismatchStays(text: string)
    ensures ScanFrom(Mismatch, text) == Mismatch
  {
    if text == [] {
    } else {
      MismatchStays(text[..|text| - 1]);
    }
  }

  /** Outside a string no escape is pending. */
  lemma {:induction false} EscapeOnlyInString(text: string)
    ensures ScanOf(text).Open? && ScanOf(text).escape ==> ScanOf(text).inString
  {
    if text == [] {
    } else {
      EscapeOnlyInString(text[..|text| - 1]);
    }
  }

  /** A prefix of a text without mismatch has none, and the stack symbols are openers. */
  lemma {:induction false} StackOfOpeners(text: string)
    ensures ScanOf(text).Open? ==> forall i | 0 <= i < |ScanOf(text).stack| :: ScanOf(text).stack[i] in "{["
  {
    if text == [] {
    } else {
      StackOfOpeners(text[..|text| - 1]);
    }
  }

  // ----- trimming

  predicate IsFiller(c: char) { IsSpace(c) || c == ',' }

  ghost predicate AllFiller(w: string) { forall i | 0 <= i < |w| :: IsFiller(w[i]) }

  lemma {:induction false} StripRightSplits(s: string)
    ensures StripRight(s) <= s && AllFiller(s[|StripRight(s)|..])
    ensures StripRight(s) == [] || !IsSpace(StripRight(s)[|StripRight(s)| - 1])
  {
    if s == [] || !IsSpace(s[|s| - 1]) {
    } else {
      var n := |s| - 1;
      StripRightSplits(s[..n]);
      assert s[|StripRight(s)|..] == s[..n][|StripRight(s)|..] + [s[n]];
    }
  }

  lemma {:induction false} StripCommasSplits(s: string)
    ensures StripCommas(s) <= s && AllFiller(s[|StripCommas(s)|..])
  {
    if s == [] || s[|s| - 1] != ',' {
    } else {
      var n := |s| - 1;
      StripCommasSplits(s[..n]);
      assert s[|StripCommas(s)|..] == s[..n][|StripCommas(s)|..] + [s[n]];
    }
  }

  lemma TrimmedSplits(text: string) returns (w: string)
    ensures text == Trimmed(text) + w && AllFiller(w)
  {
    StripRightSplits(text);
    StripCommasSplits(StripRight(text));
    w := text[|Trimmed(text)|..];
  }

  /** Filler changes nothing but a pending escape. */
  lemma {:induction false} FillerIsNeutral(s: Scan, w: string)
    requires AllFiller(w) && (s.Open? && s.escape ==> s.inString)
    ensures ScanFrom(s, w) == if s.Open? && w != [] then s.(escape := false) else s
  {
    if w == [] {
    } else {
      var n := |w| - 1;
      FillerIsNeutral(s, w[..n]);
      assert IsFiller(w[n]);
    }
  }

  lemma TrimmedScan(text: string)
    ensures ScanOf(text).Mismatch? <==> ScanOf(Trimmed(text)).Mismatch?
    ensures ScanOf(text).Open? ==>
              ScanOf(text).stack == ScanOf(Trimmed(text)).stack
              && ScanOf(text).inString == ScanOf(Trimmed(text)).inString
  {
    var w := TrimmedSplits(text);
    ScanAppend(INITIAL, Trimmed(text), w);
    EscapeOnlyInString(Trimmed(text));
    FillerIsNeutral(ScanOf(Trimmed(text)), w);
  }

  // ----- closing

  lemma {:induction false} ClosersClose(stack: string)
    requires forall i | 0 <= i < |stack| :: stack[i] in "{["
    ensures ScanFrom(Open(stack, false, false), Closers(stack)) == INITIAL
  {
    if stack == [] {
    } else {
      var n := |stack| - 1;
      var c := CloserOf(stack[n]);
      ScanAppend(Open(stack, false, false), [c], Closers(stack[..n]));
      ScanOne(Open(stack, false, false), c);
      ClosersClose(stack[..n]);
    }
  }

  predicate IsCloser(c: char) { c == '}' || c == ']' }

  lemma {:induction false} ClosersAreClosers(stack: string)
    ensures forall i | 0 <= i < |Closers(stack)| :: IsCloser(Closers(stack)[i])
  {
    if stack == [] {
    } else {
      ClosersAreClosers(stack[..|stack| - 1]);
    }
  }

  /** Closers inside a string are only characters of it. */
  lemma {:induction false} ClosersInString(stack: string, w: string)
    requires forall i | 0 <= i < |w| :: IsCloser(w[i])
    ensures ScanFrom(Open(stack, true, false), w) == Open(stack, true, false)
  {
    if w == [] {
    } else {
      ClosersInString(stack, w[..|w| - 1]);
    }
  }

  /** The trimmed text ends in a backslash that still escapes the next character. */
  predicate EndsInEscape(text: string) {
    var s := ScanOf(Trimmed(text));
    s.Open? && s.escape
  }

  lemma {:induction false} MismatchAbsorbs(text: string, n: nat)
    requires n <= |text| && ScanOf(text[..n]).Mismatch?
    ensures ScanOf(text).Mismatch?
  {
    assert text == text[..n] + text[n..];
    ScanAppend(INITIAL, text[..n], text[n..]);
    MismatchStays(text[n..]);
  }

  /** A text that stopped outside a string is balanced by its closers. */
  lemma TrimAndClose(p: string)
    requires ScanOf(p).Open? && !ScanOf(p).inString
    ensures ScanOf(Trimmed(p) + Closers(ScanOf(p).stack)) == INITIAL
  {
    TrimmedScan(p);
    StackOfOpeners(p);
    EscapeOnlyInString(Trimmed(p));
    ScanAppend(INITIAL, Trimmed(p), Closers(ScanOf(p).stack));
    ClosersClose(ScanOf(p).stack);
  }

  /** Truncating at a mismatched closer always balances. */
  lemma TruncationBalances(text: string)
    requires SoundLength(text) < |text|
    ensures ScanOf(Repair(text)) == INITIAL && !EndsInEscape(text)
  {
    var n := SoundLength(text);
    SoundLengthInRange(text);
    assert text[..n + 1][..n] == text[..n] && text[..n + 1][n] == text[n];
    MismatchOutsideString(text[..n], text[n]);
    TrimAndClose(text[..n]);
    MismatchAbsorbs(text, n + 1);
    TrimmedScan(text);
  }

  lemma MismatchOutsideString(p: string, c: char)
    requires ScanOf(p).Open? && Step(ScanOf(p), c).Mismatch?
    ensures !ScanOf(p).inString
  {
  }

  /** Completing a text without mismatch balances it unless the quote gets escaped. */
  lemma CompletionScan(text: string)
    requires ScanOf(text).Open? && !Balanced(text)
    ensures ScanOf(Repair(text)) ==
            if EndsInEscape(text) then Open(ScanOf(text).stack, true, false) else INITIAL
  {
    var s, t := ScanOf(text), ScanOf(Trimmed(text));
    assert text[..|text|] == text;
    TrimmedScan(text);
    EscapeOnlyInString(Trimmed(text));
    StackOfOpeners(text);
    ScanAppend(INITIAL, Trimmed(text), Completion(s));
    if s.inString {
      ScanAppend(t, "\"", Closers(s.stack));
      ScanOne(t, '\"');
      ClosersAreClosers(s.stack);
      ClosersInString(s.stack, Closers(s.stack));
    } else {
      assert Completion(s) == Closers(s.stack);
    }
    ClosersClose(s.stack);
  }

  lemma BalancedHasNoEscape(text: string)
    requires Balanced(text)
    ensures !EndsInEscape(text) && Repair(text) == text
  {
    TrimmedScan(text);
    EscapeOnlyInString(Trimmed(text));
  }

  /** The repaired text scans as balanced exactly when no backslash was left pending. */
  lemma RepairBalancesExactly(text: string)
    ensures Balanced(Repair(text)) <==> !EndsInEscape(text)
  {
    SoundLengthInRange(text);
    if SoundLength(text) < |text| {
      TruncationBalances(text);
    } else if Balanced(text) {
      BalancedHasNoEscape(text);
    } else {
      assert text[..|text|] == text;
      CompletionScan(text);
    }
  }

  function TrailingBackslashes(s: string): nat {
    if s != [] && s[|s| - 1] == '\\' then 1 + TrailingBackslashes(s[..|s| - 1]) else 0
  }

  lemma {:induction false} EscapeIsOddRun(p: string)
    ensures ScanOf(p).Open? ==> (ScanOf(p).escape <==> ScanOf(p).inString && TrailingBackslashes(p) % 2 == 1)
  {
    if p == [] {
    } else {
      EscapeIsOddRun(p[..|p| - 1]);
    }
  }

  /** The failing family in plain terms: no mismatched closer, an unterminated string, and an
      odd number of backslashes at the end of the trimmed text. */
  lemma EndsInEscapeMeans(text: string)
    ensures EndsInEscape(text) <==>
            ScanOf(text).Open? && ScanOf(text).inString && TrailingBackslashes(Trimmed(text)) % 2 == 1
  {
    TrimmedScan(text);
    EscapeIsOddRun(Trimmed(text));
  }

  /** Such a text: an object cut off right after a backslash inside a string. Its repair is the
      text with a quote and a brace that both still belong to the string. */
  lemma PendingBackslashDefeats()
    ensures var text := "{\"a\\";
      EndsInEscape(text) && !Balanced(Repair(text))
  {
    var text := "{\"a\\";
    assert |text| == 4 && text[3] == '\\';
    assert Trimmed(text) == text;
    assert text[..4] == text && text[..3] == "{\"a" && text[..3][..2] == "{\"" && text[..3][..2][..1] == "{";
    assert text[..3][..2][..1][..0] == [];
    assert ScanOf("{") == Open("{", false, false);
    assert ScanOf("{\"") == Open("{", true, false);
    assert ScanOf("{\"a") == Open("{", true, false);
    assert ScanOf(text) == Open("{", true, true);
    RepairBalancesExactly(text);
  }

  // ----- repeating the repair

  lemma QuoteOrCloserEnds(text: string)
    requires text != [] && (text[|text| - 1] == '\"' || IsCloser(text[|text| - 1]))
    ensures Trimmed(text) == text
  {
  }

  /** A defeated repair leaves only an open string, so the next pass closes everything. */
  lemma DefeatedRepair(text: string)
    requires EndsInEscape(text)
    ensures !EndsInEscape(Repair(text)) && !Balanced(Repair(text))
  {
    TrimmedScan(text);
    EscapeOnlyInString(Trimmed(text));
    CompletionScan(text);
    SoundLengthInRange(text);
    var tail := Completion(ScanOf(text[..|text|]));
    assert text[..|text|] == text;
    ClosersAreClosers(ScanOf(text).stack);
    assert Repair(text)[|Repair(text)| - 1] == tail[|tail| - 1];
    QuoteOrCloserEnds(Repair(text));
  }

  /** Repair is idempotent exactly when no backslash was left pending. */
  lemma IdempotentExactly(text: string)
    ensures Repair(Repair(text)) == Repair(text) <==> !EndsInEscape(text)
  {
    RepairBalancesExactly(text);
    if EndsInEscape(text) {
      DefeatedRepair(text);
      RepairBalancesExactly(Repair(text));
    } else {
      BalancedHasNoEscape(Repair(text));
    }
  }

  /** Two passes balance every text. */
  lemma TwoPassesSuffice(text: string)
    ensures Balanced(Repair(Repair(text)))
  {
    RepairBalancesExactly(text);
    if EndsInEscape(text) {
      DefeatedRepair(text);
    } else {
      BalancedHasNoEscape(Repair(text));
    }
    RepairBalancesExactly(Repair(text));
  }

  // ----- nothing more than necessary is cut

  /** Some continuation makes the text balanced. */
  ghost predicate Viable(text: string) { exists more :: Balanced(text + more) }

  lemma ViableExactly(text: string)
    ensures Viable(text) <==> ScanOf(text).Open?
  {
    var s := ScanOf(text);
    if s.Open? {
      EscapeOnlyInString(text);
      StackOfOpeners(text);
      var gap := if s.escape then "n" else "";
      var quote := if s.inString then "\"" else "";
      var s1 := s.(escape := false);
      assert ScanFrom(s, gap) == s1 by { if s.escape { ScanOne(s, 'n'); } }
      assert ScanFrom(s1, quote) == s1.(inString := false) by { if s.inString { ScanOne(s1, '\"'); } }
      ScanAppend(s, gap, quote);
      ScanAppend(s, gap + quote, Closers(s.stack));
      ClosersClose(s.stack);
      ScanAppend(INITIAL, text, gap + quote + Closers(s.stack));
      assert Balanced(text + (gap + quote + Closers(s.stack)));
    } else {
      forall more ensures !Balanced(text + more) {
        ScanAppend(INITIAL, text, more);
        MismatchStays(more);
      }
    }
  }

  /** The repair of an unbalanced text is its longest viable prefix, trimmed, followed by at
      most one quote and then only closers. */
  lemma KeepsLongestViablePrefix(text: string) returns (n: nat, tail: string)
    requires !Balanced(text)
    ensures n <= |text| && Viable(text[..n]) && (n < |text| ==> !Viable(text[..n + 1]))
    ensures Repair(text) == Trimmed(text[..n]) + tail
    ensures forall i | 0 <= i < |tail| :: IsCloser(tail[i]) || (i == 0 && tail[0] == '\"')
  {
    n := SoundLength(text);
    SoundLengthInRange(text);
    ViableExactly(text[..n]);
    if n < |text| { ViableExactly(text[..n + 1]); }
    ClosersAreClosers(ScanOf(text[..n]).stack);
    assert text[..|text|] == text;
    tail := if n < |text| then Closers(ScanOf(text[..n]).stack) else Completion(ScanOf(text[..n]));
  }

  // ----- the loop

  method BalanceJsonText(text: string) returns (r: string)
    ensures r == Repair(text)
  {
    var stack, inString, escape := "", false, false;
    for i := 0 to |text|
      invariant ScanOf(text[..i]) == Open(stack, inString, escape)
    {
      var ch := text[i];
      assert text[..i + 1][..i] == text[..i] && text[..i + 1][i] == ch;
      if inString {
        if escape {
          escape := false;
        } else if ch == '\\' {
          escape := true;
        } else if ch == '\"' {
          inString := false;
        }
      } else if ch == '\"' {
        inString := true;
      } else if ch == '{' || ch == '[' {
        stack := stack + [ch];
      } else if ch == '}' || ch == ']' {
        var expected := if ch == '}' then '{' else '[';
        if stack == [] || stack[|stack| - 1] != expected {
          StackOfOpeners(text[..i]);
          SoundLengthIs(text, i);
          return Trimmed(text[..i]) + Closers(stack);
        }
        stack := stack[..|stack| - 1];
      }
    }
    assert text[..|text|] == text;
    if stack != [] || inString {
      r := Trimmed(text);
      if inString {
        r := r + "\"";
      }
      r := r + Closers(stack);
      assert r == Trimmed(text) + Completion(ScanOf(text));
    } else {
      r := text;
    }
  }

  lemma SoundLengthIs(text: string, i: nat)
    requires i < |text| && ScanOf(text[..i]).Open? && ScanOf(text[..i + 1]).Mismatch?
    ensures SoundLength(text) == i
  {
    SoundLengthInRange(text);
    var n := SoundLength(text);
    if n > i {
      assert text[..n][..i + 1] == text[..i + 1];
      MismatchAbsorbs(text[..n], i + 1);
    } else if n < i {
      assert text[..i][..n + 1] == text[..n + 1];
      MismatchAbsorbs(text[..i], n + 1);
    }
  }
}
