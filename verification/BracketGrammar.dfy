/** An independent meaning of "balanced": the brackets outside strings form a word of the
    bracket grammar, and every string is closed. */
module BracketGrammar {
  import opened JsonRepair

  /** nest := empty | opener nest closer nest, with a matching pair. */
  datatype Nest = Empty | Group(brace: bool, inner: Nest, rest: Nest)

  /** A brace group reads {...}, the other kind [...]. */
  function Print(n: Nest): string {
    match n
    case Empty => ""
    case Group(brace, inner, rest) =>
      (if brace then ['{'] + Print(inner) + ['}'] else ['['] + Print(inner) + [']']) + Print(rest)
  }

  ghost predicate WellNested(w: string) { exists n :: Print(n) == w }

  // ----- the two halves of the scanner, separated

  /** Strings alone: whether a string is open, and whether an escape is pending. */
  datatype Quote = Quote(open: bool, escape: bool)

  function QuoteStep(q: Quote, c: char): Quote {
    if q.open then
      if q.escape then Quote(true, false) else Quote(c != '\"', c == '\\')
    else Quote(c == '\"', false)
  }

  function QuoteOf(text: string): Quote {
    if text == [] then Quote(false, false) else QuoteStep(QuoteOf(text[..|text| - 1]), text[|text| - 1])
  }

  predicate IsBracket(c: char) { c == '{' || c == '[' || IsCloser(c) }

  /** The brackets that stand outside strings, in order. */
  function Brackets(text: string): string {
    if text == [] then []
    else
      var before, c := text[..|text| - 1], text[|text| - 1];
      if !QuoteOf(before).open && IsBracket(c) then Brackets(before) + [c] else Brackets(before)
  }

  /** Brackets alone: push openers, pop matching closers, fail otherwise. */
  datatype Run = Stack(open: string) | Fail

  function RunStep(r: Run, c: char): Run {
    if r.Fail? then r
    else if !IsCloser(c) then Stack(r.open + [c])
    else if r.open != [] && CloserOf(r.open[|r.open| - 1]) == c then Stack(r.open[..|r.open| - 1])
    else Fail
  }

  function RunOn(r: Run, w: string): Run
    decreases |w|
  {
    if w == [] then r else RunOn(RunStep(r, w[0]), w[1..])
  }

  lemma {:induction false} RunAppend(r: Run, a: string, b: string)
    ensures RunOn(r, a + b) == RunOn(RunOn(r, a), b)
    decreases |a|
  {
    if a == [] {
      assert a + b == b;
    } else {
      assert (a + b)[1..] == a[1..] + b;
      RunAppend(RunStep(r, a[0]), a[1..], b);
    }
  }

  /** The one-pass scanner does both halves at once. */
  lemma {:induction false} ScanSplits(text: string)
    ensures ScanOf(text) ==
            var q, r := QuoteOf(text), RunOn(Stack([]), Brackets(text));
            if r.Fail? then Mismatch else Open(r.open, q.open, q.escape)
  {
    if text == [] {
    } else {
      var before, c := text[..|text| - 1], text[|text| - 1];
      ScanSplits(before);
      var r := RunOn(Stack([]), Brackets(before));
      RunAppend(Stack([]), Brackets(before), [c]);
      assert RunOn(r, [c]) == RunStep(r, c) by { assert [c][1..] == []; }
    }
  }

  // ----- the stack accepts exactly the grammar

  lemma {:induction false} PrintIsNeutral(open: string, n: Nest)
    ensures RunOn(Stack(open), Print(n)) == Stack(open)
    decreases n
  {
    match n
    case Empty =>
    case Group(brace, inner, rest) =>
      var o, c := if brace then '{' else '[', if brace then '}' else ']';
      RunAppend(Stack(open), [o] + Print(inner) + [c], Print(rest));
      RunAppend(Stack(open), [o] + Print(inner), [c]);
      RunAppend(Stack(open), [o], Print(inner));
      OneStep(Stack(open), o);
      PrintIsNeutral(open + [o], inner);
      OneStep(Stack(open + [o]), c);
      assert (open + [o])[..|open + [o]| - 1] == open;
      PrintIsNeutral(open, rest);
  }

  /** The closer the scanner expects is the one the grammar prints. */
  lemma PrintOf(o: char, inner: Nest, rest: Nest)
    requires o == '{' || o == '['
    ensures Print(Group(o == '{', inner, rest)) == [o] + Print(inner) + [CloserOf(o)] + Print(rest)
  {
  }

  lemma OneStep(r: Run, c: char)
    ensures RunOn(r, [c]) == RunStep(r, c)
  {
    assert [c][1..] == [];
  }

  /** nests joined by the closers of a stack, innermost first. */
  function Joined(ns: seq<Nest>, open: string): string
    requires |ns| == |open| + 1
  {
    if open == [] then Print(ns[0])
    else Print(ns[0]) + [CloserOf(open[|open| - 1])] + Joined(ns[1..], open[..|open| - 1])
  }

  /** What a stack still accepts can be read as nests between its closers. */
  lemma {:induction false} Read(open: string, w: string) returns (ns: seq<Nest>)
    requires RunOn(Stack(open), w) == Stack([])
    requires forall i | 0 <= i < |w| :: IsBracket(w[i])
    ensures |ns| == |open| + 1 && Joined(ns, open) == w
    decreases |w|
  {
    if w == [] {
      ns := [Empty];
    } else if IsCloser(w[0]) {
      FailStays(w[1..]);
      var n := |open| - 1;
      var rest := Read(open[..n], w[1..]);
      ns := [Empty] + rest;
      assert ns[1..] == rest;
      assert w == [w[0]] + w[1..];
    } else {
      var o := w[0];
      var inner := Read(open + [o], w[1..]);
      assert (open + [o])[..|open|] == open;
      ns := [Group(o == '{', inner[0], inner[1])] + inner[2..];
      assert w == [o] + w[1..];
      JoinedGroup(open, o, inner, ns);
    }
  }

  lemma JoinedGroup(open: string, o: char, inner: seq<Nest>, ns: seq<Nest>)
    requires |inner| == |open| + 2 && (o == '{' || o == '[')
    requires ns == [Group(o == '{', inner[0], inner[1])] + inner[2..]
    ensures Joined(ns, open) == [o] + Joined(inner, open + [o])
  {
    hide *;
    PrintOf(o, inner[0], inner[1]);
    assert (open + [o])[..|open|] == open && (open + [o])[|open|] == o;
    JoinedStep(inner, open + [o]);
    JoinedStep(inner[1..], open);
    JoinedStep(ns, open);
    assert inner[1..][0] == inner[1];
    assert ns[1..] == inner[1..][1..];
    var none: string := [];
    var rest := if open == [] then none else [CloserOf(open[|open| - 1])] + Joined(ns[1..], open[..|open| - 1]);
    Regroup(o, Print(inner[0]), CloserOf(o), Print(inner[1]), rest);
    if open == [] {
      assert Print(ns[0]) + rest == Print(ns[0]) && Print(inner[1]) + rest == Print(inner[1]);
    } else {
      Behind(Print(ns[0]), [CloserOf(open[|open| - 1])], Joined(ns[1..], open[..|open| - 1]));
      Behind(Print(inner[1]), [CloserOf(open[|open| - 1])], Joined(ns[1..], open[..|open| - 1]));
    }
  }

  lemma Regroup(o: char, a: string, c: char, b: string, rest: string)
    ensures [o] + a + [c] + b + rest == [o] + (a + [c] + (b + rest))
  {
  }

  lemma Behind(a: string, b: string, c: string)
    ensures a + b + c == a + (b + c)
  {
  }

  lemma JoinedStep(ns: seq<Nest>, open: string)
    requires |ns| == |open| + 1
    ensures Joined(ns, open) ==
            if open == [] then Print(ns[0])
            else Print(ns[0]) + [CloserOf(open[|open| - 1])] + Joined(ns[1..], open[..|open| - 1])
  {
    hide Print, CloserOf;
  }

  lemma {:induction false} FailStays(w: string)
    ensures RunOn(Fail, w) == Fail
  {
    if w == [] {
    } else {
      FailStays(w[1..]);
    }
  }

  lemma {:induction false} BracketsAreBrackets(text: string)
    ensures forall i | 0 <= i < |Brackets(text)| :: IsBracket(Brackets(text)[i])
  {
    if text == [] {
    } else {
      BracketsAreBrackets(text[..|text| - 1]);
    }
  }

  /** The one-pass scanner accepts a text exactly when its strings are closed and its
      brackets outside strings are a word of the grammar. */
  lemma BalancedMeansWellNested(text: string)
    ensures Balanced(text) <==> !QuoteOf(text).open && WellNested(Brackets(text))
  {
    var w := Brackets(text);
    ScanSplits(text);
    if RunOn(Stack([]), w) == Stack([]) {
      BracketsAreBrackets(text);
      var ns := Read([], w);
      assert Print(ns[0]) == w;
    }
    if WellNested(w) {
      var n :| Print(n) == w;
      PrintIsNeutral([], n);
    }
  }
}
