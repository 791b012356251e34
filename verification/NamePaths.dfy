/** Name paths of symbols and the patterns that match them. */
module NamePaths {
  import opened Options
  import opened Decimal
  import opened Strings

  /** One step of a name path; `index` tells overloads apart. */
  datatype Component = Component(name: string, index: Option<nat>)

  /** A symbol as its chain of components, outermost first. */
  type Chain = seq<Component>

  datatype Pattern = Pattern(absolute: bool, components: seq<Component>)

  // ---- printing ----

  function Show(c: Component): string {
    match c.index
    case None => c.name
    case Some(i) => c.name + "[" + Numeral(i) + "]"
  }

  function Shows(chain: Chain): seq<string> {
    seq(|chain|, i requires 0 <= i < |chain| => Show(chain[i]))
  }

  function NamePath(chain: Chain): string {
    Join("/", Shows(chain))
  }

  // ---- parsing ----

  function LastBracket(s: string): (at: Option<nat>)
    ensures at.Some? ==> at.value < |s|
  {
    if s == [] then None
    else if s[|s| - 1] == '[' then Some(|s| - 1)
    else LastBracket(s[..|s| - 1])
  }

  function FromString(s: string): Component {
    if s == "" || s[|s| - 1] != ']' then Component(s, None)
    else match LastBracket(s)
         case None => Component(s, None)
         case Some(b) =>
           if b + 1 < |s| - 1 && AllDigits(s[b + 1..|s| - 1])
           then Component(s[..b], Some(Value(s[b + 1..|s| - 1])))
           else Component(s, None)
  }

  /** The maximal slash-free stretches of the text, empty ones included. */
  function Split(s: string): (parts: seq<string>)
    ensures parts != []
  {
    if s == "" then [""]
    else
      var rest := Split(s[1..]);
      if s[0] == '/' then [""] + rest else [[s[0]] + rest[0]] + rest[1..]
  }

  function LStrip(s: string): string {
    if s != "" && s[0] == '/' then LStrip(s[1..]) else s
  }

  function RStrip(s: string): string {
    if s != "" && s[|s| - 1] == '/' then RStrip(s[..|s| - 1]) else s
  }

  function ParsePattern(expr: string): Pattern
    requires expr != ""
  {
    var parts := Split(RStrip(LStrip(expr)));
    Pattern(expr[0] == '/', seq(|parts|, i requires 0 <= i < |parts| => FromString(parts[i])))
  }

  // ---- matching ----

  predicate ComponentMatches(p: Component, c: Component, substring: bool) {
    && (if substring then Contains(c.name, p.name) else p.name == c.name)
    && (p.index.Some? ==> p.index == c.index)
  }

  /** A match is a component-wise match of a suffix, of the whole chain for an absolute pattern; only the last
      component may match a part of a name. */
  predicate Matches(p: Pattern, substring: bool, chain: Chain) {
    && |p.components| <= |chain|
    && (p.absolute ==> |p.components| == |chain|)
    && forall i :: 0 <= i < |p.components| ==>
         ComponentMatches(p.components[i], chain[|chain| - |p.components| + i], substring && i == |p.components| - 1)
  }

  function Reversed<T>(s: seq<T>): (r: seq<T>)
    ensures |r| == |s| && forall i :: 0 <= i < |s| ==> r[i] == s[|s| - 1 - i]
  {
    if s == [] then [] else Reversed(s[1..]) + [s[0]]
  }

  /** Walks the pattern from its last component and the symbol from itself up to its outermost ancestor. */
  method MatchesReversedComponents(p: Pattern, substring: bool, reversed: seq<Component>) returns (matches: bool)
    ensures matches <==> Matches(p, substring, Reversed(reversed))
  {
    ghost var chain := Reversed(reversed);
    var n := |p.components|;
    var i := 0;
    while i < n
      invariant 0 <= i <= n && i <= |reversed|
      invariant forall k :: n - i <= k < n ==>
                  |chain| - n + k >= 0
                  && ComponentMatches(p.components[k], chain[|chain| - n + k], substring && k == n - 1)
    {
      if i == |reversed| {
        return false;
      }
      var patternComponent, symbolComponent := p.components[n - 1 - i], reversed[i];
      var useSubstring := substring && i == 0;
      assert chain[|chain| - n + (n - 1 - i)] == symbolComponent;
      if !ComponentMatches(patternComponent, symbolComponent, useSubstring) {
        return false;
      }
      i := i + 1;
    }
    if p.absolute && n < |reversed| {
      return false;
    }
    matches := true;
  }

  // ---- printed components read back ----

  lemma {:induction false} LastBracketAt(s: string, rest: string)
    requires '[' !in rest
    ensures LastBracket(s + "[" + rest) == Some(|s|)
  {
    var all := s + "[" + rest;
    if rest != "" {
      assert all[..|all| - 1] == s + "[" + rest[..|rest| - 1];
      assert all[|all| - 1] == rest[|rest| - 1];
      LastBracketAt(s, rest[..|rest| - 1]);
    }
  }

  /** A printed component reads back as itself, exactly when it carries an index or its name does not end in a
      bracketed number. */
  lemma {:induction false} ShowReadsBackIff(c: Component)
    ensures FromString(Show(c)) == c <==> c.index.Some? || FromString(c.name).index.None?
  {
    if c.index.Some? {
      var digits := Numeral(c.index.value);
      NumeralValue(c.index.value);
      var s := c.name + "[" + (digits + "]");
      assert Show(c) == s;
      assert forall i :: 0 <= i < |digits| ==> IsDigit(digits[i]);
      LastBracketAt(c.name, digits + "]");
      assert s[|c.name| + 1..|s| - 1] == digits && s[..|c.name|] == c.name;
    } else if FromString(c.name).index.None? {
      assert FromString(c.name).name == c.name;
    }
  }

  lemma {:induction false} ShowHasNoSlash(c: Component)
    requires '/' !in c.name
    ensures '/' !in Show(c)
  {
    if c.index.Some? {
      var digits := Numeral(c.index.value);
      NumeralValue(c.index.value);
      assert forall i :: 0 <= i < |digits| ==> IsDigit(digits[i]);
    }
  }

  // ---- splitting and joining ----

  lemma {:induction false} SplitWhole(s: string)
    requires '/' !in s
    ensures Split(s) == [s]
  {
    if s != "" {
      assert s[0] in s;
      SplitWhole(s[1..]);
      assert s == [s[0]] + s[1..];
    }
  }

  lemma {:induction false} SplitConcat(a: string, b: string)
    ensures Split(a + "/" + b) == Split(a) + Split(b)
  {
    var s := a + "/" + b;
    if a == "" {
      assert s[1..] == b;
    } else {
      assert s[1..] == a[1..] + "/" + b;
      SplitConcat(a[1..], b);
    }
  }

  lemma {:induction false} SplitJoin(parts: seq<string>)
    requires parts != [] && forall i :: 0 <= i < |parts| ==> '/' !in parts[i]
    ensures Split(Join("/", parts)) == parts
  {
    if |parts| > 1 {
      SplitJoin(parts[1..]);
      SplitConcat(parts[0], Join("/", parts[1..]));
      SplitWhole(parts[0]);
    } else {
      SplitWhole(parts[0]);
    }
  }

  // ---- stripping ----

  function Slashes(s: string): nat {
    if s == "" then 0 else Slashes(s[1..]) + if s[0] == '/' then 1 else 0
  }

  lemma {:induction false} SlashesConcat(a: string, b: string)
    ensures Slashes(a + b) == Slashes(a) + Slashes(b)
  {
    if a == "" {
      assert a + b == b;
    } else {
      assert (a + b)[1..] == a[1..] + b;
      SlashesConcat(a[1..], b);
    }
  }

  lemma {:induction false} NoSlashes(s: string)
    ensures Slashes(s) == 0 <==> '/' !in s
  {
    if s != "" {
      NoSlashes(s[1..]);
      assert forall c :: c in s <==> c == s[0] || c in s[1..];
    }
  }

  lemma {:induction false} SplitSlashes(s: string)
    ensures |Split(s)| == Slashes(s) + 1
    ensures forall i :: 0 <= i < |Split(s)| ==> '/' !in Split(s)[i]
  {
    if s != "" {
      SplitSlashes(s[1..]);
      assert '/' !in Split(s[1..])[0];
    }
  }

  lemma {:induction false} LStripSlashes(s: string)
    ensures LStrip(s) == s || Slashes(LStrip(s)) < Slashes(s)
  {
    if s != "" && s[0] == '/' {
      LStripSlashes(s[1..]);
    }
  }

  lemma {:induction false} RStripSlashes(s: string)
    ensures RStrip(s) == s || Slashes(RStrip(s)) < Slashes(s)
  {
    if s != "" && s[|s| - 1] == '/' {
      RStripSlashes(s[..|s| - 1]);
      assert s == s[..|s| - 1] + "/" && "/"[1..] == "";
      SlashesConcat(s[..|s| - 1], "/");
      assert Slashes("/") == 1;
    }
  }

  lemma {:induction false} JoinSlashes(parts: seq<string>)
    requires parts != [] && forall i :: 0 <= i < |parts| ==> '/' !in parts[i]
    ensures Slashes(Join("/", parts)) == |parts| - 1
  {
    SplitJoin(parts);
    SplitSlashes(Join("/", parts));
  }

  /** Joined parts start or end with a slash only for an empty first or last part. */
  lemma {:induction false} JoinEnds(parts: seq<string>)
    requires |parts| > 1 && forall i :: 0 <= i < |parts| ==> '/' !in parts[i]
    ensures var s := Join("/", parts);
      && s != "" && (s[0] == '/' <==> parts[0] == "") && (s[|s| - 1] == '/' <==> parts[|parts| - 1] == "")
  {
    assert parts[0] != "" ==> parts[0][0] in parts[0];
    if |parts| > 2 {
      JoinEnds(parts[1..]);
    } else {
      assert Join("/", parts[1..]) == parts[1];
      assert parts[1] != "" ==> parts[1][|parts[1]| - 1] in parts[1];
    }
  }

  lemma {:induction false} StripsNothingIff(parts: seq<string>)
    requires parts != [] && forall i :: 0 <= i < |parts| ==> '/' !in parts[i]
    ensures var s := Join("/", parts);
      RStrip(LStrip(s)) == s <==> |parts| == 1 || (parts[0] != "" && parts[|parts| - 1] != "")
  {
    var s := Join("/", parts);
    LStripSlashes(s);
    RStripSlashes(LStrip(s));
    if |parts| > 1 {
      JoinEnds(parts);
      LStripOnce(s);
      RStripOnce(LStrip(s));
    } else {
      assert s != "" ==> s[0] in s && s[|s| - 1] in s;
    }
  }

  lemma {:induction false} LStripOnce(s: string)
    requires s != ""
    ensures LStrip(s) == s <==> s[0] != '/'
  {
    if s[0] == '/' {
      LStripSlashes(s[1..]);
    }
  }

  lemma {:induction false} RStripOnce(s: string)
    ensures RStrip(s) == s <==> s == "" || s[|s| - 1] != '/'
  {
    if s != "" && s[|s| - 1] == '/' {
      RStripShorter(s[..|s| - 1]);
    }
  }

  lemma {:induction false} RStripShorter(s: string)
    ensures |RStrip(s)| <= |s|
  {
    if s != "" && s[|s| - 1] == '/' {
      RStripShorter(s[..|s| - 1]);
    }
  }

  // ---- round trip ----

  /** The printed component reads back as itself. */
  predicate ReadsBack(c: Component) {
    '/' !in c.name && (c.index.None? ==> FromString(c.name).index.None?)
  }

  /** No name holds a slash or, without an index, ends in a bracketed number, and of several components neither the
      first nor the last prints as nothing. */
  predicate Printable(chain: Chain) {
    && chain != [] && (forall i :: 0 <= i < |chain| ==> ReadsBack(chain[i]))
    && (|chain| == 1 || (Show(chain[0]) != "" && Show(chain[|chain| - 1]) != ""))
  }

  predicate SameNameAndIndex(c: Component, other: Component) {
    other.name == c.name && (c.index.Some? ==> other.index == c.index)
  }

  lemma {:induction false} StrippedPath(chain: Chain)
    ensures RStrip(LStrip("/" + NamePath(chain))) == RStrip(LStrip(NamePath(chain)))
  {
    assert ("/" + NamePath(chain))[1..] == NamePath(chain);
  }

  lemma {:induction false} PrintableReadsBack(chain: Chain)
    requires Printable(chain)
    ensures ParsePattern("/" + NamePath(chain)) == Pattern(true, chain)
  {
    var parts := Shows(chain);
    forall i | 0 <= i < |parts| ensures '/' !in parts[i] && FromString(parts[i]) == chain[i] {
      ShowHasNoSlash(chain[i]);
      ShowReadsBackIff(chain[i]);
    }
    SplitJoin(parts);
    StripsNothingIff(parts);
    StrippedPath(chain);
  }

  lemma {:induction false} ReadNameIsPrefix(s: string)
    ensures FromString(s).name <= s && (FromString(s).index.Some? ==> |FromString(s).name| < |s|)
  {
  }

  /** A pattern read from text has no slash in its names. */
  lemma {:induction false} NoSlashInPattern(expr: string)
    requires expr != ""
    ensures var parts := Split(RStrip(LStrip(expr)));
      forall i :: 0 <= i < |parts| ==> '/' !in FromString(parts[i]).name
  {
    var parts := Split(RStrip(LStrip(expr)));
    SplitSlashes(RStrip(LStrip(expr)));
    forall i | 0 <= i < |parts| ensures '/' !in FromString(parts[i]).name {
      ReadNameIsPrefix(parts[i]);
      assert '/' !in parts[i];
    }
  }

  /** What matches its own printed path can be printed. */
  lemma {:induction false} SelfMatchIsPrintable(chain: Chain)
    requires chain != [] && Matches(ParsePattern("/" + NamePath(chain)), false, chain)
    ensures Printable(chain)
  {
    var parts, path, p := Shows(chain), NamePath(chain), ParsePattern("/" + NamePath(chain));
    var stripped := RStrip(LStrip(path));
    StrippedPath(chain);
    NoSlashInPattern("/" + path);
    assert forall i :: 0 <= i < |chain| ==> ComponentMatches(p.components[i], chain[|chain| - |chain| + i], false);
    forall i | 0 <= i < |chain| ensures '/' !in parts[i] {
      assert p.components[i] == FromString(Split(stripped)[i]);
      ShowHasNoSlash(chain[i]);
    }
    JoinSlashes(parts);
    SplitSlashes(stripped);
    LStripSlashes(path);
    RStripSlashes(LStrip(path));
    assert stripped == path;
    StripsNothingIff(parts);
    SplitJoin(parts);
    forall i | 0 <= i < |chain| ensures ReadsBack(chain[i]) {
      assert p.components[i] == FromString(parts[i]);
      ReadNameIsPrefix(parts[i]);
      ShowHasNoSlash(chain[i]);
    }
  }

  /** "/" and the printed name path of a symbol read back as its components exactly when it is printable. */
  lemma {:induction false} AbsolutePathReadsBackIff(chain: Chain)
    requires chain != []
    ensures ParsePattern("/" + NamePath(chain)) == Pattern(true, chain) <==> Printable(chain)
  {
    if Printable(chain) {
      PrintableReadsBack(chain);
    } else if ParsePattern("/" + NamePath(chain)) == Pattern(true, chain) {
      WholeMatchIff(chain, chain);
      SelfMatchIsPrintable(chain);
    }
  }

  predicate MatchesItself(chain: Chain) {
    Matches(ParsePattern("/" + NamePath(chain)), false, chain)
  }

  lemma {:induction false} PrintableMatchesItself(chain: Chain)
    requires Printable(chain)
    ensures MatchesItself(chain)
  {
    PrintableReadsBack(chain);
    WholeMatchIff(chain, chain);
  }

  /** "/" and the printed name path of a symbol match the symbol exactly when it is printable. */
  lemma {:induction false} PrintedPathMatchesItselfIff(chain: Chain)
    requires chain != []
    ensures MatchesItself(chain) <==> Printable(chain)
  {
    if Printable(chain) {
      PrintableMatchesItself(chain);
    }
    if MatchesItself(chain) {
      SelfMatchIsPrintable(chain);
    }
  }

  lemma {:induction false} ExactMatch(c: Component, other: Component)
    ensures ComponentMatches(c, other, false) <==> SameNameAndIndex(c, other)
  {
  }

  lemma {:induction false} WholeMatchIff(chain: Chain, other: Chain)
    ensures Matches(Pattern(true, chain), false, other) <==>
              |other| == |chain| && forall i :: 0 <= i < |chain| ==> SameNameAndIndex(chain[i], other[i])
  {
    var p := Pattern(true, chain);
    if Matches(p, false, other) {
      forall i | 0 <= i < |chain| ensures SameNameAndIndex(chain[i], other[i]) {
        assert ComponentMatches(p.components[i], other[|other| - |p.components| + i], false && i == |p.components| - 1);
        ExactMatch(chain[i], other[i]);
      }
    }
    if |other| == |chain| && forall i :: 0 <= i < |chain| ==> SameNameAndIndex(chain[i], other[i]) {
      forall i | 0 <= i < |p.components|
        ensures ComponentMatches(p.components[i], other[|other| - |p.components| + i], false && i == |p.components| - 1)
      {
        ExactMatch(chain[i], other[i]);
      }
    }
  }

  /** "/" followed by the printed name path of a printable symbol matches exactly the symbols that agree with it in
      every name and in every printed index. */
  lemma {:induction false} PrintedPathMatchesIff(chain: Chain, other: Chain)
    requires Printable(chain)
    ensures Matches(ParsePattern("/" + NamePath(chain)), false, other) <==>
              |other| == |chain| && forall i :: 0 <= i < |chain| ==> SameNameAndIndex(chain[i], other[i])
  {
    PrintableReadsBack(chain);
    WholeMatchIff(chain, other);
  }

  // ---- dropping leading components ----

  lemma {:induction false} RStripTail(a: string, tail: string)
    requires tail != "" && tail[0] != '/'
    ensures RStrip(a + tail) == a + RStrip(tail)
    decreases |tail|
  {
    var s := a + tail;
    if tail[|tail| - 1] == '/' {
      assert s[..|s| - 1] == a + tail[..|tail| - 1];
      RStripTail(a, tail[..|tail| - 1]);
    }
  }

  lemma {:induction false} SuffixStillMatches(p: Pattern, q: Pattern, substring: bool, chain: Chain)
    requires Matches(p, substring, chain) && !q.absolute && |q.components| <= |p.components|
    requires q.components == p.components[|p.components| - |q.components|..]
    ensures Matches(q, substring, chain)
  {
    var n := |p.components| - |q.components|;
    forall i | 0 <= i < |q.components|
      ensures ComponentMatches(q.components[i], chain[|chain| - |q.components| + i],
                               substring && i == |q.components| - 1)
    {
      assert q.components[i] == p.components[n + i];
      assert ComponentMatches(p.components[n + i], chain[|chain| - |p.components| + (n + i)],
                              substring && n + i == |p.components| - 1);
    }
  }

  /** A relative pattern keeps matching when leading components are dropped from its text. */
  lemma {:induction false} DroppingLeadingComponents(head: string, tail: string, substring: bool, chain: Chain)
    requires head != "" && head[0] != '/' && tail != "" && tail[0] != '/'
    requires Matches(ParsePattern(head + "/" + tail), substring, chain)
    ensures Matches(ParsePattern(tail), substring, chain)
  {
    var expr := head + "/" + tail;
    RelativeParts(head, tail);
    var p, q := ParsePattern(expr), ParsePattern(tail);
    assert q.components == p.components[|Split(head)|..];
    SuffixStillMatches(p, q, substring, chain);
  }

  lemma {:induction false} RelativeParts(head: string, tail: string)
    requires head != "" && head[0] != '/' && tail != "" && tail[0] != '/'
    ensures LStrip(tail) == tail
    ensures Split(RStrip(LStrip(head + "/" + tail))) == Split(head) + Split(RStrip(tail))
  {
    RStripTail(head + "/", tail);
    assert (head + "/") + tail == head + "/" + tail;
    assert LStrip(head + "/" + tail) == head + "/" + tail;
    assert (head + "/") + RStrip(tail) == head + "/" + RStrip(tail);
    SplitConcat(head, RStrip(tail));
  }
}
