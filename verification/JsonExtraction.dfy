/** `extract_json_object`: the text itself, the slice between its outer braces and its repair
    are offered to the parser, in this order; the first that is an object wins. */
module JsonExtraction {
  import opened Options
  import opened PyStrings
  import opened JsonRepair

  /** `text.find(c)` */
  function Find(text: string, c: char): (r: int)
    ensures -1 <= r < |text|
    ensures r == -1 <==> c !in text
    ensures r >= 0 ==> text[r] == c && c !in text[..r]
  {
    if text == [] then -1
    else if text[0] == c then 0
    else
      var r := Find(text[1..], c);
      assert r >= 0 ==> text[..r + 1] == [text[0]] + text[1..][..r];
      if r == -1 then -1 else r + 1
  }

  /** `text.rfind(c)` */
  function FindLast(text: string, c: char): (r: int)
    ensures -1 <= r < |text|
    ensures r == -1 <==> c !in text
    ensures r >= 0 ==> text[r] == c && c !in text[r + 1..]
  {
    if text == [] then -1
    else
      var n := |text| - 1;
      if text[n] == c then n
      else
        var r := FindLast(text[..n], c);
        assert r >= 0 ==> text[r + 1..] == text[..n][r + 1..] + [text[n]];
        r
  }

  function Sliced(text: string): seq<string> {
    var start, end := Find(text, '{'), FindLast(text, '}');
    if start != -1 && end > start then [text[start..end + 1]] else []
  }

  function Repaired(text: string): seq<string> {
    var whole := Strip(text);
    if Repair(whole) != whole then [Repair(whole)] else []
  }

  function Candidates(text: string): seq<string> { [text] + Sliced(text) + Repaired(text) }

  /** The first candidate the parser takes for an object. `parse` is any parser. */
  ghost predicate IsFirst<D>(parse: string -> Option<D>, cs: seq<string>, r: Option<D>) {
    if r.None? then forall i | 0 <= i < |cs| :: parse(cs[i]).None?
    else exists i :: 0 <= i < |cs| && parse(cs[i]) == r && forall j | 0 <= j < i :: parse(cs[j]).None?
  }

  method ExtractJsonObject<D>(parse: string -> Option<D>, text: string) returns (r: Option<D>)
    ensures IsFirst(parse, Candidates(text), r)
  {
    hide Repair, Strip;
    var candidates := [text];
    var start, end := Find(text, '{'), FindLast(text, '}');
    if start != -1 && end > start {
      candidates := candidates + [text[start..end + 1]];
    }
    var whole := Strip(text);
    var balanced := BalanceJsonText(whole);
    if balanced != whole {
      candidates := candidates + [balanced];
    }
    assert candidates == Candidates(text);
    for i := 0 to |candidates|
      invariant forall j | 0 <= j < i :: parse(candidates[j]).None?
    {
      r := parse(candidates[i]);
      if r.Some? {
        return;
      }
    }
    r := None;
  }

  lemma SliceOfEmbedded(before: string, obj: string, after: string)
    requires |obj| >= 2 && obj[0] == '{' && obj[|obj| - 1] == '}'
    requires '{' !in before && '}' !in after
    ensures Sliced(before + obj + after) == [obj]
  {
    var text := before + obj + after;
    var start, end := Find(text, '{'), FindLast(text, '}');
    var b, e := |before|, |before| + |obj| - 1;
    assert text[b] == '{' && text[e] == '}';
    assert start == b && end == e;
    assert text[b..e + 1] == obj;
  }

  /** Prose around an object does no harm: with no opening brace before it and no closing
      brace after it, the answer is the object, unless the whole text parses already. */
  lemma EmbeddedObjectIsFound<D>(
    parse: string -> Option<D>, before: string, obj: string, after: string, r: Option<D>)
    requires |obj| >= 2 && obj[0] == '{' && obj[|obj| - 1] == '}'
    requires '{' !in before && '}' !in after
    requires parse(obj).Some? && IsFirst(parse, Candidates(before + obj + after), r)
    ensures r == if parse(before + obj + after).Some? then parse(before + obj + after) else parse(obj)
  {
    var text := before + obj + after;
    SliceOfEmbedded(before, obj, after);
    var cs := Candidates(text);
    assert cs[0] == text && cs[1] == obj;
  }

  /** Only balanced texts are JSON: the grammar nests brackets and closes strings. */
  ghost predicate OnlyBalanced<D>(parse: string -> Option<D>) {
    forall text :: parse(text).Some? ==> Balanced(text)
  }

  /** With such a parser, an object comes out of a text that neither is balanced nor has a
      balanced slice only through the repair, and so only without a pending backslash. */
  lemma RepairDecides<D>(parse: string -> Option<D>, text: string, r: Option<D>)
    requires OnlyBalanced(parse) && IsFirst(parse, Candidates(text), r)
    requires !Balanced(text) && forall i | 0 <= i < |Sliced(text)| :: !Balanced(Sliced(text)[i])
    ensures r.Some? ==> !EndsInEscape(Strip(text)) && r == parse(Repair(Strip(text)))
    ensures r.None? && !Balanced(Strip(text)) ==> parse(Repair(Strip(text))).None?
  {
    hide Balanced, Strip, Repair, Sliced;
    RepairBalancesExactly(Strip(text));
    var cs := Candidates(text);
    assert parse(text).None?;
    assert forall i | 0 <= i < |Sliced(text)| :: parse(Sliced(text)[i]).None?;
    assert forall i | 0 <= i < 1 + |Sliced(text)| :: cs[i] == ([text] + Sliced(text))[i];
    if Repair(Strip(text)) != Strip(text) {
      assert cs[|cs| - 1] == Repair(Strip(text));
    } else {
      assert cs == [text] + Sliced(text);
    }
  }
}
