/** What the compact serializer drops and cuts, said of the value it is given. */
module CompactJsonShape {
  import opened Decimal
  import opened Strings
  import opened JsonText
  import opened CompactJson

  // ---- strings ----

  /** A string over the limit is cut to the limit, or short of its end for a negative limit, and dotted. */
  lemma {:induction false} CutIs(limits: Limits, s: string)
    ensures |s| <= limits.maxStringLen ==> Cut(limits, s) == s
    ensures 0 <= limits.maxStringLen < |s| ==> Cut(limits, s) == s[..limits.maxStringLen] + "..."
    ensures 0 < -limits.maxStringLen <= |s| ==> Cut(limits, s) == s[..|s| + limits.maxStringLen] + "..."
    ensures |s| < -limits.maxStringLen ==> Cut(limits, s) == "..."
  {
    if |s| < -limits.maxStringLen {
      assert s[..0] + "..." == "...";
    }
  }

  // ---- one level ----

  predicate Increasing(at: seq<nat>) {
    forall i, j :: 0 <= i < j < |at| ==> at[i] < at[j]
  }

  predicate Stays(skipNone: bool, member: Member) {
    skipNone ==> member.value != Null
  }

  /** The positions name exactly the members that stay. */
  ghost predicate Picks(skipNone: bool, members: seq<Member>, at: seq<nat>) {
    && Increasing(at)
    && (forall k :: 0 <= k < |at| ==> at[k] < |members|)
    && (forall i: nat :: i < |members| ==> (i in at <==> Stays(skipNone, members[i])))
  }

  function Moved(at: seq<nat>): (moved: seq<nat>)
    ensures |moved| == |at| && forall k :: 0 <= k < |at| ==> moved[k] == at[k] + 1
  {
    seq(|at|, k requires 0 <= k < |at| => at[k] + 1)
  }

  function PickedAfter(skipNone: bool, first: Member, at: seq<nat>): seq<nat> {
    (if Stays(skipNone, first) then [0] else []) + Moved(at)
  }

  lemma {:induction false} MovedIn(at: seq<nat>, i: nat)
    ensures i in Moved(at) <==> i > 0 && i - 1 in at
  {
    if i > 0 && i - 1 in at {
      var k :| 0 <= k < |at| && at[k] == i - 1;
      assert Moved(at)[k] == i;
    }
  }

  lemma {:induction false} PicksCons(skipNone: bool, members: seq<Member>, at: seq<nat>)
    requires members != [] && Picks(skipNone, members[1..], at)
    ensures Picks(skipNone, members, PickedAfter(skipNone, members[0], at))
  {
    var rest, all := members[1..], PickedAfter(skipNone, members[0], at);
    forall i: nat | i < |members| ensures i in all <==> Stays(skipNone, members[i]) {
      MovedIn(at, i);
      if i > 0 {
        var j := i - 1;
        assert rest[j] == members[i] && (j in at <==> Stays(skipNone, rest[j]));
      }
    }
  }

  function NormMember(limits: Limits, member: Member): Member {
    Member(member.key, Norm(limits, member.value))
  }

  predicate Within(members: seq<Member>, at: seq<nat>) {
    forall k :: 0 <= k < |at| ==> at[k] < |members|
  }

  ghost predicate KeptAs(limits: Limits, members: seq<Member>, at: seq<nat>, out: seq<Member>)
    requires Within(members, at)
  {
    |out| == |at| && forall k :: 0 <= k < |at| ==> out[k] == NormMember(limits, members[at[k]])
  }

  lemma {:induction false} KeptFurther(limits: Limits, members: seq<Member>, at: seq<nat>, out: seq<Member>)
    requires members != [] && Within(members[1..], at) && KeptAs(limits, members[1..], at, out)
    ensures Within(members, Moved(at)) && KeptAs(limits, members, Moved(at), out)
  {
    forall k | 0 <= k < |at| ensures out[k] == NormMember(limits, members[Moved(at)[k]]) {
      assert members[1..][at[k]] == members[Moved(at)[k]];
    }
  }

  lemma {:induction false} KeptFirst(limits: Limits, members: seq<Member>, at: seq<nat>, out: seq<Member>)
    requires members != [] && Within(members, at) && KeptAs(limits, members, at, out)
    ensures Within(members, [0] + at) && KeptAs(limits, members, [0] + at, [NormMember(limits, members[0])] + out)
  {
    var zero: seq<nat> := [0];
    forall k | 0 <= k < |at| + 1
      ensures ([NormMember(limits, members[0])] + out)[k] == NormMember(limits, members[(zero + at)[k]])
    {
      if k > 0 {
        var j := k - 1;
        assert out[j] == NormMember(limits, members[at[j]]);
      }
    }
  }

  /** Of the members of an object exactly those stay whose value is not None, or all of them when None is kept, in
      their order, each with its key and its own normalised value. */
  lemma {:induction false} MembersKept(limits: Limits, members: seq<Member>) returns (at: seq<nat>)
    ensures Picks(limits.skipNone, members, at) && Within(members, at)
    ensures KeptAs(limits, members, at, NormMembers(limits, members))
  {
    if members == [] {
      at := [];
    } else {
      var rest := MembersKept(limits, members[1..]);
      PicksCons(limits.skipNone, members, rest);
      KeptFurther(limits, members, rest, NormMembers(limits, members[1..]));
      at := PickedAfter(limits.skipNone, members[0], rest);
      if Stays(limits.skipNone, members[0]) {
        KeptFirst(limits, members, Moved(rest), NormMembers(limits, members[1..]));
      } else {
        assert at == Moved(rest);
      }
    }
  }

  /** The items of a list all stay, in their order, None among them too. */
  lemma {:induction false} ItemsKept(limits: Limits, items: seq<Json>)
    ensures |NormItems(limits, items)| == |items|
    ensures forall i :: 0 <= i < |items| ==> NormItems(limits, items)[i] == Norm(limits, items[i])
  {
    if items != [] {
      ItemsKept(limits, items[1..]);
    }
  }

  // ---- every level ----

  /** No object inside has a member that is None. */
  predicate NoneFree(obj: Json)
    decreases obj
  {
    match obj
    case List(items) => forall i :: 0 <= i < |items| ==> NoneFree(items[i])
    case Dict(members) => forall i :: 0 <= i < |members| ==> members[i].value != Null && NoneFree(members[i].value)
    case _ => true
  }

  /** No string value inside is longer than `most`; keys are never cut. */
  predicate StringsWithin(most: int, obj: Json)
    decreases obj
  {
    match obj
    case Str(s) => |s| <= most
    case List(items) => forall i :: 0 <= i < |items| ==> StringsWithin(most, items[i])
    case Dict(members) => forall i :: 0 <= i < |members| ==> StringsWithin(most, members[i].value)
    case _ => true
  }

  lemma {:induction false} NormKeepsNone(limits: Limits, obj: Json)
    ensures Norm(limits, obj) == Null <==> obj == Null
  {
  }

  /** With None skipped, no member that is None is left at any depth. */
  lemma {:induction false} NothingLeftIsNone(limits: Limits, obj: Json)
    requires limits.skipNone
    ensures NoneFree(Norm(limits, obj))
    decreases obj
  {
    match obj
    case List(items) =>
      ItemsKept(limits, items);
      forall i | 0 <= i < |items| ensures NoneFree(NormItems(limits, items)[i]) {
        NothingLeftIsNone(limits, items[i]);
      }
    case Dict(members) =>
      var at := MembersKept(limits, members);
      var out := NormMembers(limits, members);
      forall k | 0 <= k < |out| ensures out[k].value != Null && NoneFree(out[k].value) {
        assert at[k] in at && out[k] == NormMember(limits, members[at[k]]);
        NormKeepsNone(limits, members[at[k]].value);
        NothingLeftIsNone(limits, members[at[k]].value);
      }
    case _ =>
  }

  /** Every string value left is at most the limit and the three dots long, at any depth. */
  lemma {:induction false} StringsLeftAreShort(limits: Limits, obj: Json)
    requires limits.maxStringLen >= 0
    ensures StringsWithin(limits.maxStringLen + 3, Norm(limits, obj))
    decreases obj
  {
    match obj
    case Str(s) => CutIs(limits, s);
    case List(items) =>
      ItemsKept(limits, items);
      forall i | 0 <= i < |items| ensures StringsWithin(limits.maxStringLen + 3, NormItems(limits, items)[i]) {
        StringsLeftAreShort(limits, items[i]);
      }
    case Dict(members) =>
      var at := MembersKept(limits, members);
      var out := NormMembers(limits, members);
      forall k | 0 <= k < |out| ensures StringsWithin(limits.maxStringLen + 3, out[k].value) {
        assert out[k] == NormMember(limits, members[at[k]]);
        StringsLeftAreShort(limits, members[at[k]].value);
      }
    case _ =>
  }

  /** What has no member to drop and no string to cut is printed whole. */
  lemma {:induction false} NothingToDo(limits: Limits, obj: Json)
    requires (limits.skipNone ==> NoneFree(obj)) && StringsWithin(limits.maxStringLen, obj)
    ensures Norm(limits, obj) == obj
    decreases obj, 1
  {
    match obj
    case List(items) =>
      ItemsKept(limits, items);
      forall i | 0 <= i < |items| ensures NormItems(limits, items)[i] == items[i] {
        NothingToDo(limits, items[i]);
      }
    case Dict(members) => MembersUntouched(limits, members);
    case _ =>
  }

  lemma {:induction false} MembersUntouched(limits: Limits, members: seq<Member>)
    requires (limits.skipNone ==> NoneFree(Dict(members))) && StringsWithin(limits.maxStringLen, Dict(members))
    ensures NormMembers(limits, members) == members
    decreases members, 2
  {
    if members != [] {
      assert members == [members[0]] + members[1..];
      NothingToDo(limits, members[0].value);
      MembersUntouched(limits, members[1..]);
    }
  }

  // ---- the characters of the text ----

  /** A character that needs no escape. */
  predicate Ordinary(c: char, ascii: bool) {
    c >= ' ' && c != '"' && c != '\\' && (ascii ==> c <= '~')
  }

  /** Text without control characters, quotation marks and backslashes is written as it stands, in keys as long as it is
      ASCII. */
  lemma {:induction false} OrdinaryTextStays(s: string, ascii: bool)
    requires forall i :: 0 <= i < |s| ==> Ordinary(s[i], ascii)
    ensures StringText(s, ascii) == "\"" + s + "\""
  {
    if s != "" {
      OrdinaryTextStays(s[1..], ascii);
      assert "\"" + CharTexts(s[1..], ascii) + "\"" == "\"" + s[1..] + "\"";
      assert CharTexts(s[1..], ascii) == ("\"" + CharTexts(s[1..], ascii) + "\"")[1..|CharTexts(s[1..], ascii)| + 1];
      assert s[1..] == ("\"" + s[1..] + "\"")[1..|s|];
      assert [s[0]] + s[1..] == s;
    }
  }

  predicate Printable(text: string, ascii: bool) {
    forall i :: 0 <= i < |text| ==> text[i] >= ' ' && (ascii ==> text[i] <= '~')
  }

  lemma {:induction false} HexIsPlain(n: nat)
    requires n < 16
    ensures ' ' < HexDigit(n) <= '~' && HexDigit(n) != '"' && HexDigit(n) != '\\'
  {
  }

  /** What follows the backslash of an escape holds neither backslash nor quotation mark. */
  lemma {:induction false} UnitIsPlain(n: nat)
    requires n < 0x10000
    ensures Printable(UnitEscape(n), true) && Inert(UnitEscape(n)[2..]) && UnitEscape(n)[..2] == "\\u"
  {
    HexIsPlain(n / 16 / 16 / 16);
    HexIsPlain(n / 16 / 16 % 16);
    HexIsPlain(n / 16 % 16);
    HexIsPlain(n % 16);
  }

  /** A character beyond the first 0x10000 is written as two escapes. */
  lemma {:induction false} PairText(c: char) returns (high: nat, low: nat)
    requires c as nat >= 0x10000
    ensures high < 0x10000 && low < 0x10000 && CharText(c, true) == UnitEscape(high) + UnitEscape(low)
  {
    var k := c as nat - 0x10000;
    high, low := 0xD800 + k / 0x400, 0xDC00 + k % 0x400;
  }

  lemma {:induction false} PrintableConcat(a: string, b: string, ascii: bool)
    requires Printable(a, ascii) && Printable(b, ascii)
    ensures Printable(a + b, ascii)
  {
  }

  lemma {:induction false} CharIsPrintable(c: char, ascii: bool)
    ensures Printable(CharText(c, ascii), ascii)
  {
    if ShortEscape(c).None? && (c < ' ' || (ascii && c > '~')) {
      if c as nat < 0x10000 {
        UnitIsPlain(c as nat);
      } else {
        var high, low := PairText(c);
        UnitIsPlain(high);
        UnitIsPlain(low);
        PrintableConcat(UnitEscape(high), UnitEscape(low), true);
      }
    }
  }

  lemma {:induction false} CharsArePrintable(s: string, ascii: bool)
    ensures Printable(CharTexts(s, ascii), ascii)
  {
    if s != "" {
      CharIsPrintable(s[0], ascii);
      CharsArePrintable(s[1..], ascii);
    }
  }

  /** No control character is written raw, and nothing outside ASCII in a key. */
  lemma {:induction false} KeysAreAscii(s: string, ascii: bool)
    ensures Printable(StringText(s, ascii), ascii)
  {
    CharsArePrintable(s, ascii);
  }

  /** What a text holds outside of its strings. */
  function Outside(text: string): string {
    if text == "" then "" else if text[0] == '"' then PastString(text[1..]) else [text[0]] + Outside(text[1..])
  }

  /** The same from within a string. */
  function PastString(text: string): string {
    if text == "" then ""
    else if text[0] == '"' then Outside(text[1..])
    else if text[0] == '\\' && |text| > 1 then PastString(text[2..])
    else PastString(text[1..])
  }

  predicate Inert(text: string) {
    forall i :: 0 <= i < |text| ==> text[i] != '"' && text[i] != '\\'
  }

  lemma {:induction false} PastInert(text: string, rest: string)
    requires Inert(text)
    ensures PastString(text + rest) == PastString(rest)
  {
    if text == "" {
      assert text + rest == rest;
    } else {
      assert (text + rest)[1..] == text[1..] + rest;
      PastInert(text[1..], rest);
    }
  }

  lemma {:induction false} PastEscape(text: string, rest: string)
    requires |text| >= 2 && text[0] == '\\' && Inert(text[2..])
    ensures PastString(text + rest) == PastString(rest)
  {
    assert (text + rest)[2..] == text[2..] + rest;
    PastInert(text[2..], rest);
  }

  lemma {:induction false} PastChar(c: char, ascii: bool, rest: string)
    ensures PastString(CharText(c, ascii) + rest) == PastString(rest)
  {
    var text := CharText(c, ascii);
    if ShortEscape(c).Some? {
      PastEscape(text, rest);
    } else if c >= ' ' && (!ascii || c <= '~') {
      PastInert(text, rest);
    } else if c as nat < 0x10000 {
      UnitIsPlain(c as nat);
      PastEscape(text, rest);
    } else {
      PastPair(c, rest);
    }
  }

  lemma {:induction false} PastPair(c: char, rest: string)
    requires c as nat >= 0x10000
    ensures PastString(CharText(c, true) + rest) == PastString(rest)
  {
    var high, low := PairText(c);
    assert CharText(c, true) + rest == UnitEscape(high) + (UnitEscape(low) + rest);
    UnitIsPlain(high);
    UnitIsPlain(low);
    PastEscape(UnitEscape(high), UnitEscape(low) + rest);
    PastEscape(UnitEscape(low), rest);
  }

  lemma {:induction false} PastChars(s: string, ascii: bool, rest: string)
    ensures PastString(CharTexts(s, ascii) + "\"" + rest) == Outside(rest)
  {
    var text := CharTexts(s, ascii) + "\"" + rest;
    if s == "" {
      assert text[1..] == rest;
    } else {
      var tail := CharTexts(s[1..], ascii) + "\"" + rest;
      assert text == CharText(s[0], ascii) + tail;
      PastChar(s[0], ascii, tail);
      PastChars(s[1..], ascii, rest);
    }
  }

  predicate Spaceless(text: string) {
    forall i :: 0 <= i < |text| ==> !IsSpace(text[i])
  }

  predicate EndsOutside(text: string, rest: string) {
    Outside(text + rest) == Outside(text) + Outside(rest)
  }

  /** The text ends outside of a string, whatever follows it, and has no white space there. */
  ghost predicate Tight(text: string) {
    Spaceless(Outside(text)) && forall rest :: EndsOutside(text, rest)
  }

  lemma {:induction false} TightConcat(a: string, b: string)
    requires Tight(a) && Tight(b)
    ensures Tight(a + b)
  {
    assert EndsOutside(a, b);
    forall rest ensures EndsOutside(a + b, rest) {
      assert a + b + rest == a + (b + rest);
      assert EndsOutside(a, b + rest) && EndsOutside(b, rest);
    }
  }

  lemma {:induction false} WordIsTight(text: string)
    requires Spaceless(text) && '"' !in text
    ensures Tight(text) && Outside(text) == text
  {
    if text == "" {
      forall rest ensures EndsOutside(text, rest) {
        assert text + rest == rest;
      }
    } else {
      WordIsTight(text[1..]);
      forall rest ensures EndsOutside(text, rest) {
        assert (text + rest)[1..] == text[1..] + rest && EndsOutside(text[1..], rest);
      }
    }
  }

  lemma {:induction false} StringIsTight(s: string, ascii: bool)
    ensures Tight(StringText(s, ascii))
  {
    var text := StringText(s, ascii);
    forall rest ensures Outside(text + rest) == Outside(rest) {
      assert (text + rest)[1..] == CharTexts(s, ascii) + "\"" + rest;
      PastChars(s, ascii, rest);
    }
    assert text + "" == text && Outside("") == "";
    assert forall rest :: EndsOutside(text, rest);
  }

  lemma {:induction false} JoinIsTight(parts: seq<string>)
    requires forall i :: 0 <= i < |parts| ==> Tight(parts[i])
    ensures Tight(Join(",", parts))
  {
    WordIsTight(",");
    WordIsTight("");
    if |parts| > 1 {
      JoinIsTight(parts[1..]);
      TightConcat(parts[0], ",");
      TightConcat(parts[0] + ",", Join(",", parts[1..]));
    }
  }

  lemma {:induction false} IntIsTight(i: int)
    ensures Tight(IntText(i))
  {
    var text := IntText(i);
    NumeralValue(if i < 0 then -i else i);
    forall k | 0 <= k < |text| ensures !IsSpace(text[k]) && text[k] != '"' {
      assert IsDigit(text[k]) || text[k] == '-';
    }
    WordIsTight(text);
  }

  /** Outside of its strings the output has no white space. */
  lemma {:induction false} NoSpaceOutsideStrings(limits: Limits, obj: Json)
    ensures Tight(Text(limits, obj))
    decreases obj, 0
  {
    match obj
    case Null => WordIsTight("null");
    case Bool(b) => WordIsTight(if b then "true" else "false");
    case Int(i) => IntIsTight(i);
    case Str(s) => StringIsTight(Cut(limits, s), false);
    case List(items) =>
      ItemsAreTight(limits, items);
      EnclosedIsTight("[", ItemTexts(limits, items), "]");
    case Dict(members) =>
      MembersAreTight(limits, members);
      EnclosedIsTight("{", MemberTexts(limits, members), "}");
  }

  lemma {:induction false} EnclosedIsTight(open: string, parts: seq<string>, close: string)
    requires Spaceless(open) && Spaceless(close) && '"' !in open && '"' !in close
    requires forall i :: 0 <= i < |parts| ==> Tight(parts[i])
    ensures Tight(open + Join(",", parts) + close)
  {
    WordIsTight(open);
    WordIsTight(close);
    JoinIsTight(parts);
    TightConcat(open, Join(",", parts));
    TightConcat(open + Join(",", parts), close);
  }

  lemma {:induction false} ItemsAreTight(limits: Limits, items: seq<Json>)
    ensures forall i :: 0 <= i < |items| ==> Tight(ItemTexts(limits, items)[i])
    decreases items, 1
  {
    if items != [] {
      NoSpaceOutsideStrings(limits, items[0]);
      ItemsAreTight(limits, items[1..]);
    }
  }

  lemma {:induction false} MembersAreTight(limits: Limits, members: seq<Member>)
    ensures forall i :: 0 <= i < |MemberTexts(limits, members)| ==> Tight(MemberTexts(limits, members)[i])
    decreases members, 1
  {
    if members != [] {
      var key, value := StringText(members[0].key, true), Text(limits, members[0].value);
      StringIsTight(members[0].key, true);
      WordIsTight(":");
      NoSpaceOutsideStrings(limits, members[0].value);
      TightConcat(key, ":");
      TightConcat(key + ":", value);
      MembersAreTight(limits, members[1..]);
    }
  }
}
