/** What the text of a name path pattern asks of a symbol, said over the characters of the names. */
module NameMatching {
  import opened Options
  import opened Decimal
  import opened Strings
  import opened NamePaths

  // ---- one component ----

  /** `s` ends in the digits in brackets, after the name. */
  predicate Bracketed(s: string, name: string, digits: string) {
    digits != "" && AllDigits(digits) && s == name + "[" + digits + "]"
  }

  ghost predicate EndsInNumber(s: string) {
    exists name, digits :: Bracketed(s, name, digits)
  }

  /** A name that ends in a bracketed number is read as the part before it and the number. */
  lemma {:induction false} BracketedReads(name: string, digits: string)
    requires digits != "" && AllDigits(digits)
    ensures FromString(name + "[" + digits + "]") == Component(name, Some(Value(digits)))
  {
    var s := name + "[" + (digits + "]");
    assert s == name + "[" + digits + "]";
    assert forall i :: 0 <= i < |digits| ==> IsDigit(digits[i]);
    LastBracketAt(name, digits + "]");
    assert s[|name| + 1..|s| - 1] == digits && s[..|name|] == name;
  }

  lemma {:induction false} LastBracketIsBracket(s: string)
    ensures LastBracket(s).Some? ==> s[LastBracket(s).value] == '['
  {
    if s != "" && s[|s| - 1] != '[' {
      LastBracketIsBracket(s[..|s| - 1]);
    }
  }

  /** Any other name is read as it stands. */
  lemma {:induction false} PlainReads(s: string)
    requires !EndsInNumber(s)
    ensures FromString(s) == Component(s, None)
  {
    if FromString(s).index.Some? {
      LastBracketIsBracket(s);
      var b := LastBracket(s).value;
      var digits := s[b + 1..|s| - 1];
      assert s == s[..b] + "[" + digits + "]";
      assert Bracketed(s, s[..b], digits);
    }
  }

  /** The text names the symbol: its name, or a part of it, is the text without a bracketed number, and the number, if
      there is one, is the symbol's index. */
  ghost predicate Names(text: string, c: Component, part: bool) {
    if EndsInNumber(text) then
      exists name, digits ::
        Bracketed(text, name, digits) && c.index == Some(Value(digits)) && InName(name, c.name, part)
    else
      InName(text, c.name, part)
  }

  ghost predicate InName(text: string, name: string, part: bool) {
    if part then exists before, after :: Around(before, text, after, name) else name == text
  }

  predicate Around(before: string, text: string, after: string, name: string) {
    name == before + text + after
  }

  lemma {:induction false} ContainsIff(name: string, text: string)
    ensures Contains(name, text) <==> InName(text, name, true)
  {
    if Contains(name, text) {
      var i: nat :| i <= |name| && OccursAt(name, text, i);
      assert name == name[..i] + name[i..i + |text|] + name[i + |text|..];
      assert Around(name[..i], text, name[i + |text|..], name);
    }
    if InName(text, name, true) {
      var before, after :| Around(before, text, after, name);
      assert name[|before|..|before| + |text|] == text;
      assert OccursAt(name, text, |before|);
    }
  }

  lemma {:induction false} ComponentNames(text: string, c: Component, part: bool)
    ensures ComponentMatches(FromString(text), c, part) <==> Names(text, c, part)
  {
    ContainsIff(c.name, FromString(text).name);
    if EndsInNumber(text) {
      var name, digits :| Bracketed(text, name, digits);
      BracketedReads(name, digits);
      forall n, d | Bracketed(text, n, d) ensures n == name && Some(Value(d)) == Some(Value(digits)) {
        BracketedReads(n, d);
      }
    } else {
      PlainReads(text);
    }
  }

  // ---- whole patterns ----

  function PatternText(absolute: bool, parts: seq<string>): string {
    (if absolute then "/" else "") + Join("/", parts)
  }

  /** The last names of the chain, or all of them, are named by the texts; only the last may be named in part. */
  ghost predicate NamesEnd(absolute: bool, parts: seq<string>, substring: bool, chain: Chain) {
    && |parts| <= |chain|
    && (absolute ==> |parts| == |chain|)
    && forall i :: 0 <= i < |parts| ==> Names(parts[i], EndOf(chain, |parts|)[i], substring && i == |parts| - 1)
  }

  function EndOf(chain: Chain, n: nat): Chain
    requires n <= |chain|
  {
    chain[|chain| - n..]
  }

  lemma {:induction false} PatternReads(absolute: bool, parts: seq<string>)
    requires parts != [] && forall i :: 0 <= i < |parts| ==> parts[i] != "" && '/' !in parts[i]
    ensures var expr := PatternText(absolute, parts);
      && expr != ""
      && ParsePattern(expr).absolute == absolute
      && |ParsePattern(expr).components| == |parts|
      && forall i :: 0 <= i < |parts| ==> ParsePattern(expr).components[i] == FromString(parts[i])
  {
    var s := Join("/", parts);
    StripsNothingIff(parts);
    SplitJoin(parts);
    assert s != "" && s[0] != '/' by {
      assert parts[0][0] in parts[0];
      if |parts| > 1 {
        JoinEnds(parts);
      }
    }
    assert ("/" + s)[1..] == s;
    assert "" + s == s;
  }

  /** A pattern written as non-empty names between slashes, after a slash for an absolute one, matches exactly the
      symbols whose chain ends in those names; with substring matching the last name may have more before and after. */
  lemma {:induction false} PatternMatchesIff(absolute: bool, parts: seq<string>, substring: bool, chain: Chain)
    requires parts != [] && forall i :: 0 <= i < |parts| ==> parts[i] != "" && '/' !in parts[i]
    ensures PatternText(absolute, parts) != ""
    ensures Matches(ParsePattern(PatternText(absolute, parts)), substring, chain)
       <==> NamesEnd(absolute, parts, substring, chain)
  {
    PatternReads(absolute, parts);
    ReadPatternMatchesIff(ParsePattern(PatternText(absolute, parts)), parts, substring, chain);
  }

  lemma {:induction false} ReadPatternMatchesIff(p: Pattern, parts: seq<string>, substring: bool, chain: Chain)
    requires |p.components| == |parts| && forall i :: 0 <= i < |parts| ==> p.components[i] == FromString(parts[i])
    ensures Matches(p, substring, chain) <==> NamesEnd(p.absolute, parts, substring, chain)
  {
    var n := |parts|;
    if n <= |chain| {
      var end, offset := EndOf(chain, n), |chain| - n;
      forall i | 0 <= i < n
        ensures ComponentMatches(p.components[i], chain[offset + i], substring && i == n - 1)
           <==> Names(parts[i], end[i], substring && i == n - 1)
      {
        assert end[i] == chain[offset + i];
        ComponentNames(parts[i], end[i], substring && i == n - 1);
      }
    }
  }

  /** One name alone, with substring matching, matches exactly the symbols whose last name has it inside. */
  lemma {:induction false} NameInsideMatchesIff(text: string, chain: Chain)
    requires text != "" && '/' !in text && !EndsInNumber(text) && chain != []
    ensures var last := chain[|chain| - 1].name;
      Matches(ParsePattern(text), true, chain) <==> exists before, after :: Around(before, text, after, last)
  {
    PatternMatchesIff(false, [text], true, chain);
    assert PatternText(false, [text]) == text;
    assert EndOf(chain, 1)[0] == chain[|chain| - 1];
  }
}
