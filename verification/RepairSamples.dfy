/** What the scanner and the repair come to on short texts. */
module RepairSamples {
  import opened PyStrings
  import opened JsonRepair

  lemma ScanNext(text: string, c: char)
    ensures ScanOf(text + [c]) == Step(ScanOf(text), c)
  {
    assert (text + [c])[..|text|] == text;
  }

  lemma ScanFirst(c: char)
    ensures ScanOf([c]) == if c == '{' || c == '[' then Open([c], false, false) else Step(INITIAL, c)
  {
    var none: string := [];
    ScanNext(none, c);
    assert none + [c] == [c];
  }

  /** Outside strings, a brace only closes a brace and a bracket a bracket. */
  lemma PairOf(a: char, b: char)
    requires a == '{' || a == '['
    requires b == '}' || b == ']'
    ensures Balanced([a, b]) <==> (a == '{' && b == '}') || (a == '[' && b == ']')
  {
    ScanFirst(a);
    ScanNext([a], b);
    assert [a] + [b] == [a, b];
    hide ScanOf;
    assert ([] + [a])[..0] == [];
  }

  lemma ClosersPair()
    ensures Balanced("{}") && Balanced("[]") && !Balanced("{]") && !Balanced("[}")
  {
    hide Balanced;
    PairOf('{', '}');
    PairOf('[', ']');
    PairOf('{', ']');
    PairOf('[', '}');
  }

  lemma RepairOpen(text: string)
    requires ScanOf(text).Open? && !Balanced(text)
    ensures Repair(text) == Trimmed(text) + Completion(ScanOf(text))
  {
    assert text[..|text|] == text;
  }

  lemma NothingTrimmed(text: string)
    requires text != [] && !IsSpace(text[|text| - 1]) && text[|text| - 1] != ','
    ensures Trimmed(text) == text
  {
  }

  lemma OneCloser(c: char)
    requires c == '{' || c == '['
    ensures Closers([c]) == if c == '{' then "}" else "]"
  {
    assert Closers([c][..0]) == [];
  }

  lemma ClosersOfTwo()
    ensures Closers(['{', '[']) == "]}"
  {
    OneCloser('{');
    assert ['{', '['][..1] == ['{'];
  }

  /** A truncated object: its array and then the object itself are closed. */
  lemma TruncatedArray()
    ensures Repair("{\"a\": [1") == "{\"a\": [1]}"
  {
    hide ScanOf, Closers, Repair, Balanced;
    var t1 := ['{'];
    var t2 := t1 + ['\"'];
    var t3 := t2 + ['a'];
    var t4 := t3 + ['\"'];
    var t5 := t4 + [':'];
    var t6 := t5 + [' '];
    var t7 := t6 + ['['];
    var t8 := t7 + ['1'];
    ScanFirst('{');
    ScanNext(t1, '\"');
    ScanNext(t2, 'a');
    ScanNext(t3, '\"');
    ScanNext(t4, ':');
    ScanNext(t5, ' ');
    ScanNext(t6, '[');
    ScanNext(t7, '1');
    assert ['{'] + ['['] == ['{', '['];
    OpenAtEnd(t8, ['{', '['], false);
    ClosersOfTwo();
    assert t8 == "{\"a\": [1";
  }

  /** A text left open that does not end in a blank or comma only gets its closers. */
  lemma OpenAtEnd(text: string, stack: string, inString: bool)
    requires ScanOf(text) == Open(stack, inString, false) && stack != []
    requires text != [] && !IsSpace(text[|text| - 1]) && text[|text| - 1] != ','
    ensures Repair(text) == text + (if inString then "\"" else "") + Closers(stack)
  {
    RepairOpen(text);
    NothingTrimmed(text);
  }

  /** A truncated string is closed before its object. */
  lemma TruncatedString()
    ensures Repair("{\"a") == "{\"a\"}"
  {
    hide ScanOf, Closers, Repair, Balanced;
    var t1 := ['{'];
    var t2 := t1 + ['\"'];
    var t3 := t2 + ['a'];
    ScanFirst('{');
    ScanNext(t1, '\"');
    ScanNext(t2, 'a');
    OpenAtEnd(t3, ['{'], true);
    OneCloser('{');
    assert t3 == "{\"a" && t3 + "\"" + "}" == "{\"a\"}";
  }

  /** A trailing comma and the blank behind it go before the closer comes. */
  lemma TrailingComma()
    ensures Repair("[1, ") == "[1]"
  {
    hide ScanOf, Closers, Repair;
    var t1 := ['['];
    var t2 := t1 + ['1'];
    var t3 := t2 + [','];
    var t4 := t3 + [' '];
    ScanFirst('[');
    ScanNext(t1, '1');
    ScanNext(t2, ',');
    ScanNext(t3, ' ');
    RepairOpen(t4);
    CommaTrimmed(t2);
    OneCloser('[');
    assert t4 == "[1, " && t2 + "]" == "[1]";
  }

  lemma CommaTrimmed(text: string)
    requires text != [] && text[|text| - 1] != ','
    ensures Trimmed(text + [','] + [' ']) == text
  {
    var t := text + [','];
    assert (t + [' '])[..|t|] == t && t[..|text|] == text;
    assert StripRight(t + [' ']) == StripRight(t) == t;
    assert StripCommas(t) == StripCommas(text) == text;
  }

  /** A closer that matches nothing is dropped with all that follows it. */
  lemma StrayCloser()
    ensures Repair("[}") == "[]"
  {
    hide ScanOf, Closers;
    var t1 := ['['];
    var t2 := t1 + ['}'];
    ScanFirst('[');
    ScanNext(t1, '}');
    assert t2[..1] == t1 && t2[..2] == t2 && t2 == "[}" && t1 + "]" == "[]";
    SoundLengthIs(t2, 1);
    NothingTrimmed(t1);
    OneCloser('[');
  }
}
