/** The compact serializer: no white space, None members dropped, long strings cut. */
module CompactJson {
  import opened Options
  import opened Decimal
  import opened Strings
  import opened JsonText

  datatype Limits = Limits(maxStringLen: int, skipNone: bool)

  /** Where a slice up to `end` stops; a negative end counts from the end of the text. */
  function SliceEnd(length: nat, end: int): (stop: nat)
    ensures stop <= length
  {
    if end < 0 then (if length + end < 0 then 0 else length + end) else if end < length then end else length
  }

  function Cut(limits: Limits, s: string): string {
    if |s| > limits.maxStringLen then s[..SliceEnd(|s|, limits.maxStringLen)] + "..." else s
  }

  function IntText(i: int): string {
    if i < 0 then "-" + Numeral(-i) else Numeral(i)
  }

  predicate Skips(limits: Limits, member: Member) {
    limits.skipNone && member.value.Null?
  }

  // ---- the printed text ----

  function Text(limits: Limits, obj: Json): string
    decreases obj
  {
    match obj
    case Null => "null"
    case Bool(b) => if b then "true" else "false"
    case Int(i) => IntText(i)
    case Str(s) => StringText(Cut(limits, s), false)
    case List(items) => "[" + Join(",", ItemTexts(limits, items)) + "]"
    case Dict(members) => "{" + Join(",", MemberTexts(limits, members)) + "}"
  }

  function ItemTexts(limits: Limits, items: seq<Json>): (texts: seq<string>)
    ensures |texts| == |items|
    decreases items
  {
    if items == [] then [] else [Text(limits, items[0])] + ItemTexts(limits, items[1..])
  }

  function MemberTexts(limits: Limits, members: seq<Member>): seq<string>
    decreases members
  {
    if members == [] then []
    else if Skips(limits, members[0]) then MemberTexts(limits, members[1..])
    else [StringText(members[0].key, true) + ":" + Text(limits, members[0].value)] + MemberTexts(limits, members[1..])
  }

  // ---- the normalised value and its plain text ----

  function Norm(limits: Limits, obj: Json): Json
    decreases obj
  {
    match obj
    case Str(s) => Str(Cut(limits, s))
    case List(items) => List(NormItems(limits, items))
    case Dict(members) => Dict(NormMembers(limits, members))
    case _ => obj
  }

  function NormItems(limits: Limits, items: seq<Json>): seq<Json>
    decreases items
  {
    if items == [] then [] else [Norm(limits, items[0])] + NormItems(limits, items[1..])
  }

  function NormMembers(limits: Limits, members: seq<Member>): seq<Member>
    decreases members
  {
    if members == [] then []
    else if Skips(limits, members[0]) then NormMembers(limits, members[1..])
    else [Member(members[0].key, Norm(limits, members[0].value))] + NormMembers(limits, members[1..])
  }

  /** The text of a value with nothing dropped and nothing cut. */
  function Plain(obj: Json): (text: string)
    ensures text != "" && !IsSpace(text[0]) && text[0] !in {']', '}', ','}
    decreases obj
  {
    match obj
    case Null => "null"
    case Bool(b) => if b then "true" else "false"
    case Int(i) => IntStart(i); IntText(i)
    case Str(s) => StringText(s, false)
    case List(items) => "[" + Join(",", PlainItems(items)) + "]"
    case Dict(members) => "{" + Join(",", PlainMembers(members)) + "}"
  }

  function PlainItems(items: seq<Json>): (texts: seq<string>)
    ensures |texts| == |items|
    decreases items
  {
    if items == [] then [] else [Plain(items[0])] + PlainItems(items[1..])
  }

  function PlainMembers(members: seq<Member>): (texts: seq<string>)
    ensures |texts| == |members|
    decreases members
  {
    if members == [] then []
    else [StringText(members[0].key, true) + ":" + Plain(members[0].value)] + PlainMembers(members[1..])
  }

  lemma {:induction false} IntStart(i: int)
    ensures IntText(i) != "" && (IsDigit(IntText(i)[0]) || IntText(i)[0] == '-')
  {
    NumeralValue(if i < 0 then -i else i);
  }

  // ---- dropping and cutting first, then printing ----

  lemma {:induction false} TextIsPlainNorm(limits: Limits, obj: Json)
    ensures Text(limits, obj) == Plain(Norm(limits, obj))
    decreases obj
  {
    match obj
    case List(items) => ItemTextsArePlain(limits, items);
    case Dict(members) => MemberTextsArePlain(limits, members);
    case _ =>
  }

  lemma {:induction false} ItemTextsArePlain(limits: Limits, items: seq<Json>)
    ensures ItemTexts(limits, items) == PlainItems(NormItems(limits, items))
    decreases items
  {
    if items != [] {
      TextIsPlainNorm(limits, items[0]);
      ItemTextsArePlain(limits, items[1..]);
    }
  }

  lemma {:induction false} MemberTextsArePlain(limits: Limits, members: seq<Member>)
    ensures MemberTexts(limits, members) == PlainMembers(NormMembers(limits, members))
    decreases members
  {
    if members != [] {
      TextIsPlainNorm(limits, members[0].value);
      MemberTextsArePlain(limits, members[1..]);
    }
  }

  // ---- reading plain text back ----

  /** What may follow a value inside a text: nothing, or a character that cannot continue a number. */
  predicate Closed(rest: string) {
    rest == "" || rest[0] in {',', ']', '}'}
  }

  lemma {:induction false} CountsDigits(digits: string, rest: string)
    requires AllDigits(digits) && Closed(rest)
    ensures DigitCount(digits + rest) == |digits|
  {
    if digits == "" {
      assert digits + rest == rest;
    } else {
      assert (digits + rest)[1..] == digits[1..] + rest;
      CountsDigits(digits[1..], rest);
    }
  }

  lemma {:induction false} OneDigit(n: nat)
    ensures |Numeral(n)| > 1 ==> Numeral(n)[0] != '0'
  {
    NumeralValue(n);
  }

  lemma {:induction false} DigitsRead(digits: string, rest: string)
    requires digits != "" && AllDigits(digits) && Closed(rest) && (|digits| > 1 ==> digits[0] != '0')
    ensures ReadDigits(digits + rest) == Some((Value(digits), rest))
  {
    var body := digits + rest;
    CountsDigits(digits, rest);
    assert body[..|digits|] == digits && body[|digits|..] == rest;
    assert rest != "" ==> body[|digits|] == rest[0];
  }

  lemma {:induction false} SignedReads(digits: string, n: nat, rest: string)
    requires digits != "" && digits[0] != '-' && ReadDigits(digits + rest) == Some((n, rest))
    ensures ReadNumber(digits + rest) == Some((Int(n), rest))
    ensures ReadNumber("-" + digits + rest) == Some((Int(0 - n), rest))
  {
    assert (digits + rest)[0] == digits[0];
    assert ("-" + digits + rest)[1..] == digits + rest;
  }

  lemma {:induction false} IntReads(i: int, rest: string)
    requires Closed(rest)
    ensures ReadNumber(IntText(i) + rest) == Some((Int(i), rest))
  {
    var n: nat := if i < 0 then -i else i;
    NumeralValue(n);
    OneDigit(n);
    DigitsRead(Numeral(n), rest);
    SignedReads(Numeral(n), n, rest);
  }

  lemma {:induction false} LiteralReads(obj: Json, rest: string)
    requires obj.Null? || obj.Bool?
    ensures ReadValue(Plain(obj) + rest) == Some((obj, rest))
  {
    var s := Plain(obj) + rest;
    assert s[0] == Plain(obj)[0] && s[|Plain(obj)|..] == rest;
    assert Plain(obj) <= s;
  }

  lemma {:induction false} StrReads(text: string, rest: string)
    ensures ReadValue(StringText(text, false) + rest) == Some((Str(text), rest))
  {
    var s := StringText(text, false) + rest;
    assert s[0] == '"' && s[1..] == CharTexts(text, false) + "\"" + rest;
    StringReads(text, false, rest);
  }

  lemma {:induction false} NumberReads(i: int, rest: string)
    requires Closed(rest)
    ensures ReadValue(IntText(i) + rest) == Some((Int(i), rest))
  {
    IntStart(i);
    IntReads(i, rest);
    assert (IntText(i) + rest)[0] == IntText(i)[0];
  }

  lemma {:induction false} ListReads(inner: string, items: seq<Json>, rest: string)
    requires if items == [] then inner == "]" + rest
             else SkipSpace(inner) == inner && inner != "" && inner[0] != ']' && ReadItems(inner) == Some((items, rest))
    ensures ReadValue("[" + inner) == Some((List(items), rest))
  {
    assert ("[" + inner)[1..] == inner;
    if items == [] {
      assert inner[1..] == rest;
    }
  }

  lemma {:induction false} DictReads(inner: string, members: seq<Member>, rest: string)
    requires if members == [] then inner == "}" + rest
             else SkipSpace(inner) == inner && inner != "" && inner[0] != '}'
                  && ReadMembers(inner) == Some((members, rest))
    ensures ReadValue("{" + inner) == Some((Dict(members), rest))
  {
    assert ("{" + inner)[1..] == inner;
    if members == [] {
      assert inner[1..] == rest;
    }
  }

  lemma {:induction false} PlainReads(obj: Json, rest: string)
    requires Closed(rest)
    ensures ReadValue(Plain(obj) + rest) == Some((obj, rest))
    decreases obj, 1
  {
    match obj
    case Null => LiteralReads(obj, rest);
    case Bool(b) => LiteralReads(obj, rest);
    case Int(i) => NumberReads(i, rest);
    case Str(text) => StrReads(text, rest);
    case List(items) =>
      if items != [] {
        ItemsRead(items, rest);
      }
      WholeListReads(items, rest);
    case Dict(members) =>
      if members != [] {
        MembersRead(members, rest);
      }
      WholeDictReads(members, rest);
  }

  lemma {:induction false} WholeListReads(items: seq<Json>, rest: string)
    requires items != [] ==> ReadItems(ItemsEnd(items, rest)) == Some((items, rest))
    ensures ReadValue(Plain(List(items)) + rest) == Some((List(items), rest))
  {
    var inner := ItemsEnd(items, rest);
    assert Plain(List(items)) + rest == "[" + inner;
    if items == [] {
      assert inner == "]" + rest;
    } else {
      ItemsEndStep(items, rest);
      ItemStarts(items[0], if |items| == 1 then "]" + rest else "," + ItemsEnd(items[1..], rest));
    }
    ListReads(inner, items, rest);
  }

  lemma {:induction false} WholeDictReads(members: seq<Member>, rest: string)
    requires members != [] ==>
               var inner := MembersEnd(members, rest);
               ReadMembers(inner) == Some((members, rest)) && SkipSpace(inner) == inner != "" && inner[0] != '}'
    ensures ReadValue(Plain(Dict(members)) + rest) == Some((Dict(members), rest))
  {
    var inner := MembersEnd(members, rest);
    assert Plain(Dict(members)) + rest == "{" + inner;
    if members == [] {
      assert inner == "}" + rest;
    }
    DictReads(inner, members, rest);
  }

  function ItemsEnd(items: seq<Json>, rest: string): string {
    Join(",", PlainItems(items)) + "]" + rest
  }

  lemma {:induction false} Regrouped(first: string, more: string, close: string, rest: string)
    ensures first + "," + more + close + rest == first + ("," + (more + close + rest))
    ensures first + close + rest == first + (close + rest)
  {
  }

  lemma {:induction false} ItemsEndStep(items: seq<Json>, rest: string)
    requires items != []
    ensures ItemsEnd(items, rest) ==
            Plain(items[0]) + if |items| == 1 then "]" + rest else "," + ItemsEnd(items[1..], rest)
  {
    var texts := PlainItems(items);
    assert texts[1..] == PlainItems(items[1..]) && texts[0] == Plain(items[0]);
    Regrouped(texts[0], Join(",", texts[1..]), "]", rest);
  }

  lemma {:induction false} ItemStarts(item: Json, more: string)
    ensures var s := Plain(item) + more; SkipSpace(s) == s != "" && s[0] != ']'
  {
    assert (Plain(item) + more)[0] == Plain(item)[0];
  }

  lemma {:induction false} LastItemReads(s: string, item: Json, rest: string)
    requires ReadValue(s) == Some((item, "]" + rest))
    ensures ReadItems(s) == Some(([item], rest))
  {
    assert ("]" + rest)[1..] == rest;
  }

  lemma {:induction false} NextItemReads(s: string, item: Json, more: string, items: seq<Json>, rest: string)
    requires ReadValue(s) == Some((item, "," + more)) && ReadItems(more) == Some((items, rest))
    ensures ReadItems(s) == Some(([item] + items, rest))
  {
    assert ("," + more)[1..] == more;
  }

  lemma {:induction false} OneItemRead(items: seq<Json>, rest: string)
    requires |items| == 1 && ReadValue(Plain(items[0]) + ("]" + rest)) == Some((items[0], "]" + rest))
    ensures ReadItems(ItemsEnd(items, rest)) == Some((items, rest))
  {
    assert items == [items[0]];
    ItemsEndStep(items, rest);
    LastItemReads(ItemsEnd(items, rest), items[0], rest);
  }

  lemma {:induction false} MoreItemsRead(items: seq<Json>, more: string, rest: string)
    requires |items| > 1 && more == ItemsEnd(items[1..], rest)
    requires ReadValue(Plain(items[0]) + ("," + more)) == Some((items[0], "," + more))
    requires ReadItems(more) == Some((items[1..], rest))
    ensures ReadItems(ItemsEnd(items, rest)) == Some((items, rest))
  {
    assert items == [items[0]] + items[1..];
    ItemsEndStep(items, rest);
    NextItemReads(ItemsEnd(items, rest), items[0], more, items[1..], rest);
  }

  lemma {:induction false} ItemsRead(items: seq<Json>, rest: string)
    requires items != []
    ensures ReadItems(ItemsEnd(items, rest)) == Some((items, rest))
    decreases items, 2
  {
    if |items| == 1 {
      PlainReads(items[0], "]" + rest);
      OneItemRead(items, rest);
    } else {
      PlainReads(items[0], "," + ItemsEnd(items[1..], rest));
      ItemsRead(items[1..], rest);
      MoreItemsRead(items, ItemsEnd(items[1..], rest), rest);
    }
  }

  lemma {:induction false} KeyReads(key: string, rest: string)
    ensures ReadKey(StringText(key, true) + ":" + rest) == Some((key, rest))
  {
    var s := StringText(key, true) + ":" + rest;
    assert s[1..] == CharTexts(key, true) + "\"" + (":" + rest);
    StringReads(key, true, ":" + rest);
  }

  lemma {:induction false} LastMemberReads(s: string, key: string, afterKey: string, value: Json, rest: string)
    requires ReadKey(s) == Some((key, afterKey)) && ReadValue(afterKey) == Some((value, "}" + rest))
    ensures ReadMembers(s) == Some(([Member(key, value)], rest))
  {
    assert ("}" + rest)[1..] == rest;
  }

  lemma {:induction false} NextMemberReads(s: string, key: string, afterKey: string, value: Json, more: string,
                                           members: seq<Member>, rest: string)
    requires ReadKey(s) == Some((key, afterKey)) && ReadValue(afterKey) == Some((value, "," + more))
    requires ReadMembers(more) == Some((members, rest))
    ensures ReadMembers(s) == Some(([Member(key, value)] + members, rest))
  {
    assert ("," + more)[1..] == more;
  }

  function MembersEnd(members: seq<Member>, rest: string): string {
    Join(",", PlainMembers(members)) + "}" + rest
  }

  lemma {:induction false} MembersEndStep(members: seq<Member>, rest: string)
    requires members != []
    ensures MembersEnd(members, rest) == StringText(members[0].key, true) + ":" + (Plain(members[0].value) +
              if |members| == 1 then "}" + rest else "," + MembersEnd(members[1..], rest))
  {
    var texts := PlainMembers(members);
    var key, value := StringText(members[0].key, true), Plain(members[0].value);
    assert texts[1..] == PlainMembers(members[1..]) && texts[0] == key + ":" + value;
    var more := if |members| == 1 then "}" + rest else "," + MembersEnd(members[1..], rest);
    Regrouped(texts[0], Join(",", texts[1..]), "}", rest);
    assert (key + ":" + value) + more == key + ":" + (value + more);
  }

  /** One member read, whatever text `more` stands after its value. */
  lemma {:induction false} MemberReads(member: Member, more: string)
    requires ReadValue(Plain(member.value) + more) == Some((member.value, more))
    ensures var s := StringText(member.key, true) + ":" + (Plain(member.value) + more);
      && ReadKey(s) == Some((member.key, Plain(member.value) + more))
      && SkipSpace(s) == s != "" && s[0] != '}'
  {
    KeyReads(member.key, Plain(member.value) + more);
  }

  lemma {:induction false} MembersRead(members: seq<Member>, rest: string)
    requires members != []
    ensures var inner := MembersEnd(members, rest);
      && ReadMembers(inner) == Some((members, rest))
      && SkipSpace(inner) == inner != "" && inner[0] != '}'
    decreases members, 2
  {
    var first, value, inner := members[0], members[0].value, MembersEnd(members, rest);
    MembersEndStep(members, rest);
    if |members| == 1 {
      PlainReads(value, "}" + rest);
      MemberReads(first, "}" + rest);
      LastMemberReads(inner, first.key, Plain(value) + ("}" + rest), value, rest);
      assert members == [Member(first.key, value)];
    } else {
      var more := MembersEnd(members[1..], rest);
      PlainReads(value, "," + more);
      MemberReads(first, "," + more);
      MembersRead(members[1..], rest);
      NextMemberReads(inner, first.key, Plain(value) + ("," + more), value, more, members[1..], rest);
      assert members == [Member(first.key, value)] + members[1..];
    }
  }

  // ---- the main results ----

  /** The output is a JSON text, and reading it gives the input with None members dropped and long strings cut. */
  lemma {:induction false} PrintedTextReadsBack(limits: Limits, obj: Json)
    ensures Parse(Text(limits, obj)) == Some(Norm(limits, obj))
  {
    TextIsPlainNorm(limits, obj);
    PlainReads(Norm(limits, obj), "");
    assert Text(limits, obj) + "" == Text(limits, obj);
  }

  /** Two values are printed alike exactly when they are alike after dropping and cutting. */
  lemma {:induction false} EqualTextsIff(limits: Limits, a: Json, b: Json)
    ensures Text(limits, a) == Text(limits, b) <==> Norm(limits, a) == Norm(limits, b)
  {
    PrintedTextReadsBack(limits, a);
    PrintedTextReadsBack(limits, b);
    TextIsPlainNorm(limits, a);
    TextIsPlainNorm(limits, b);
  }

  // ---- printing what was read back ----

  predicate StableLength(limits: Limits) {
    limits.maxStringLen >= 0 || limits.maxStringLen == -3
  }

  lemma {:induction false} CutTwice(limits: Limits, s: string)
    requires StableLength(limits)
    ensures Cut(limits, Cut(limits, s)) == Cut(limits, s)
  {
    var m := limits.maxStringLen;
    if |s| > m {
      var kept := s[..SliceEnd(|s|, m)];
      assert (kept + "...")[..|kept|] == kept;
    }
  }

  lemma {:induction false} NormTwice(limits: Limits, obj: Json)
    requires StableLength(limits)
    ensures Norm(limits, Norm(limits, obj)) == Norm(limits, obj)
    decreases obj
  {
    match obj
    case Str(s) => CutTwice(limits, s);
    case List(items) => NormItemsTwice(limits, items);
    case Dict(members) => NormMembersTwice(limits, members);
    case _ =>
  }

  lemma {:induction false} NormItemsTwice(limits: Limits, items: seq<Json>)
    requires StableLength(limits)
    ensures NormItems(limits, NormItems(limits, items)) == NormItems(limits, items)
    decreases items
  {
    if items != [] {
      NormTwice(limits, items[0]);
      NormItemsTwice(limits, items[1..]);
    }
  }

  lemma {:induction false} NormMembersTwice(limits: Limits, members: seq<Member>)
    requires StableLength(limits)
    ensures NormMembers(limits, NormMembers(limits, members)) == NormMembers(limits, members)
    decreases members
  {
    if members != [] {
      NormTwice(limits, members[0].value);
      NormMembersTwice(limits, members[1..]);
    }
  }

  /** Reading a printed text and printing the result again gives the same text, for every value, exactly when the
      length limit is not negative, or is minus three, where the three characters cut are the three dots added. */
  lemma {:induction false} ReprintIsStableIff(limits: Limits)
    ensures (forall obj :: Text(limits, Norm(limits, obj)) == Text(limits, obj)) <==> StableLength(limits)
  {
    if StableLength(limits) {
      forall obj ensures Text(limits, Norm(limits, obj)) == Text(limits, obj) {
        NormTwice(limits, obj);
        TextIsPlainNorm(limits, obj);
        TextIsPlainNorm(limits, Norm(limits, obj));
      }
    } else {
      var m := limits.maxStringLen;
      var s := seq(-2 * m, i => 'a');
      var obj := Str(s);
      assert |Cut(limits, s)| == |s| + m + 3 && |Cut(limits, Cut(limits, s))| == |s| + 2 * m + 6;
      EqualTextsIff(limits, Norm(limits, obj), obj);
      assert Text(limits, Norm(limits, obj)) != Text(limits, obj);
    }
  }

  // ---- the serializer ----

  lemma {:induction false} MemberTextsFrom(limits: Limits, members: seq<Member>, i: nat)
    requires i < |members|
    ensures MemberTexts(limits, members[i..]) ==
            if Skips(limits, members[i]) then MemberTexts(limits, members[i + 1..])
            else [StringText(members[i].key, true) + ":" + Text(limits, members[i].value)]
                 + MemberTexts(limits, members[i + 1..])
  {
    assert members[i..][1..] == members[i + 1..];
  }

  lemma {:induction false} MovedOver(texts: seq<string>, text: string, rest: seq<string>)
    ensures texts + ([text] + rest) == texts + [text] + rest
  {
  }

  class CompactSerializer {
    const maxStringLen: int
    const skipNone: bool

    constructor (maxStringLen: int, skipNone: bool)
      ensures this.maxStringLen == maxStringLen && this.skipNone == skipNone
    {
      this.maxStringLen, this.skipNone := maxStringLen, skipNone;
    }

    method SerializeCompact(obj: Json) returns (text: string)
      ensures text == Text(Limits(maxStringLen, skipNone), obj)
      decreases obj
    {
      match obj
      case Null => text := "null";
      case Bool(b) => text := if b then "true" else "false";
      case Int(i) => text := IntText(i);
      case Str(s) =>
        var shown := s;
        if |s| > maxStringLen {
          shown := s[..SliceEnd(|s|, maxStringLen)] + "...";
        }
        text := StringText(shown, false);
      case List(items) =>
        var texts := SerializeItems(items);
        text := "[" + Join(",", texts) + "]";
      case Dict(members) =>
        var texts := SerializeMembers(members);
        text := "{" + Join(",", texts) + "}";
    }

    method SerializeItems(items: seq<Json>) returns (texts: seq<string>)
      ensures texts == ItemTexts(Limits(maxStringLen, skipNone), items)
      decreases items
    {
      texts := [];
      ghost var limits := Limits(maxStringLen, skipNone);
      for i := 0 to |items|
        invariant texts + ItemTexts(limits, items[i..]) == ItemTexts(limits, items)
      {
        var text := SerializeCompact(items[i]);
        texts := texts + [text];
        assert items[i..][1..] == items[i + 1..];
      }
    }

    method SerializeMembers(members: seq<Member>) returns (texts: seq<string>)
      ensures texts == MemberTexts(Limits(maxStringLen, skipNone), members)
      decreases members
    {
      texts := [];
      ghost var limits := Limits(maxStringLen, skipNone);
      for i := 0 to |members|
        invariant texts + MemberTexts(limits, members[i..]) == MemberTexts(limits, members)
      {
        MemberTextsFrom(limits, members, i);
        if skipNone && members[i].value.Null? {
          continue;
        }
        var text := SerializeCompact(members[i].value);
        var entry := StringText(members[i].key, true) + ":" + text;
        MovedOver(texts, entry, MemberTexts(limits, members[i + 1..]));
        texts := texts + [entry];
      }
    }
  }
}
