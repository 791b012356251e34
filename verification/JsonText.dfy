/** JSON texts: a reader after sections 2 to 7 of RFC 8259, and the characters a writer puts into strings. */
module JsonText {
  import opened Options
  import opened Decimal

  datatype Json =
    | Null
    | Bool(b: bool)
    | Int(i: int)
    | Str(s: string)
    | List(items: seq<Json>)
    | Dict(members: seq<Member>)

  datatype Member = Member(key: string, value: Json)

  // ---- white space (section 2) ----

  predicate IsSpace(c: char) {
    c == ' ' || c == '\t' || c == '\n' || c == '\r'
  }

  function SkipSpace(s: string): (r: string)
    ensures |r| <= |s| && (r == "" || !IsSpace(r[0]))
  {
    if s != "" && IsSpace(s[0]) then SkipSpace(s[1..]) else s
  }

  // ---- numbers without fraction and exponent (section 6) ----

  function DigitCount(s: string): (n: nat)
    ensures n <= |s| && AllDigits(s[..n])
  {
    if s != "" && IsDigit(s[0]) then 1 + DigitCount(s[1..]) else 0
  }

  function ReadDigits(s: string): (r: Option<(nat, string)>)
    ensures r.Some? ==> |r.value.1| < |s|
  {
    var n := DigitCount(s);
    if n == 0 || (n > 1 && s[0] == '0') || (n < |s| && s[n] in {'.', 'e', 'E'}) then None
    else Some((Value(s[..n]), s[n..]))
  }

  function ReadNumber(s: string): (r: Option<(Json, string)>)
    ensures r.Some? ==> |r.value.1| < |s|
  {
    var negative := s != "" && s[0] == '-';
    match ReadDigits(if negative then s[1..] else s)
    case None => None
    case Some((magnitude, rest)) => Some((Int(if negative then 0 - magnitude else magnitude), rest))
  }

  // ---- strings (section 7) ----

  function HexDigit(n: nat): char
    requires n < 16
  {
    if n < 10 then '0' + n as char else 'a' + (n - 10) as char
  }

  function HexValue(c: char): (n: Option<nat>)
    ensures n.Some? ==> n.value < 16
  {
    if '0' <= c <= '9' then Some((c - '0') as nat)
    else if 'a' <= c <= 'f' then Some((c - 'a') as nat + 10)
    else if 'A' <= c <= 'F' then Some((c - 'A') as nat + 10)
    else None
  }

  /** A backslash, the letter u and four hexadecimal digits. */
  function UnitEscape(n: nat): string
    requires n < 0x10000
  {
    ['\\', 'u', HexDigit(n / 16 / 16 / 16), HexDigit(n / 16 / 16 % 16), HexDigit(n / 16 % 16), HexDigit(n % 16)]
  }

  function ReadUnit(s: string): (n: Option<nat>)
    ensures n.Some? ==> |s| >= 6 && n.value < 0x10000
  {
    if |s| < 6 || s[0] != '\\' || s[1] != 'u' then None
    else
      var a, b, c, d := HexValue(s[2]), HexValue(s[3]), HexValue(s[4]), HexValue(s[5]);
      if a.None? || b.None? || c.None? || d.None? then None
      else Some(((a.value * 16 + b.value) * 16 + c.value) * 16 + d.value)
  }

  predicate HighSurrogate(n: nat) {
    0xD800 <= n < 0xDC00
  }

  predicate LowSurrogate(n: nat) {
    0xDC00 <= n < 0xE000
  }

  /** One character of a string, written as itself or escaped; two escapes may form a surrogate pair. */
  function ReadChar(s: string): (r: Option<(char, string)>)
    ensures r.Some? ==> |r.value.1| < |s|
  {
    if s == "" || s[0] < ' ' || s[0] == '"' then None
    else if s[0] != '\\' then Some((s[0], s[1..]))
    else if |s| < 2 then None
    else match s[1]
         case '"' => Some(('"', s[2..]))
         case '\\' => Some(('\\', s[2..]))
         case '/' => Some(('/', s[2..]))
         case 'b' => Some((8 as char, s[2..]))
         case 'f' => Some((12 as char, s[2..]))
         case 'n' => Some(('\n', s[2..]))
         case 'r' => Some(('\r', s[2..]))
         case 't' => Some(('\t', s[2..]))
         case 'u' => ReadEscape(s)
         case _ => None
  }

  function ReadEscape(s: string): (r: Option<(char, string)>)
    ensures r.Some? ==> |r.value.1| < |s|
  {
    match ReadUnit(s)
    case None => None
    case Some(n) =>
      if HighSurrogate(n) then
        match ReadUnit(s[6..])
        case Some(m) =>
          if LowSurrogate(m) then Some(((0x10000 + (n - 0xD800) * 0x400 + (m - 0xDC00)) as char, s[12..])) else None
        case None => None
      else if LowSurrogate(n) then None
      else Some((n as char, s[6..]))
  }

  /** The characters up to the closing quotation mark. */
  function ReadString(s: string): (r: Option<(string, string)>)
    ensures r.Some? ==> |r.value.1| < |s|
    decreases |s|
  {
    if s == "" then None
    else if s[0] == '"' then Some(("", s[1..]))
    else match ReadChar(s)
         case None => None
         case Some((c, rest)) =>
           match ReadString(rest)
           case None => None
           case Some((text, rest')) => Some(([c] + text, rest'))
  }

  // ---- values, arrays and objects (sections 3 to 5) ----

  function ReadValue(s: string): (r: Option<(Json, string)>)
    ensures r.Some? ==> |r.value.1| < |s|
    decreases |s|, 0
  {
    var t := SkipSpace(s);
    if t == "" then None
    else if "null" <= t then Some((Null, t[4..]))
    else if "true" <= t then Some((Bool(true), t[4..]))
    else if "false" <= t then Some((Bool(false), t[5..]))
    else if t[0] == '"' then
      match ReadString(t[1..])
      case None => None
      case Some((text, rest)) => Some((Str(text), rest))
    else if t[0] == '[' then
      var u := SkipSpace(t[1..]);
      if u != "" && u[0] == ']' then Some((List([]), u[1..]))
      else match ReadItems(u)
           case None => None
           case Some((items, rest)) => Some((List(items), rest))
    else if t[0] == '{' then
      var u := SkipSpace(t[1..]);
      if u != "" && u[0] == '}' then Some((Dict([]), u[1..]))
      else match ReadMembers(u)
           case None => None
           case Some((members, rest)) => Some((Dict(members), rest))
    else ReadNumber(t)
  }

  function ReadItems(s: string): (r: Option<(seq<Json>, string)>)
    ensures r.Some? ==> |r.value.1| < |s|
    decreases |s|, 1
  {
    match ReadValue(s)
    case None => None
    case Some((item, rest)) =>
      var t := SkipSpace(rest);
      if t == "" then None
      else if t[0] == ']' then Some(([item], t[1..]))
      else if t[0] != ',' then None
      else match ReadItems(t[1..])
           case None => None
           case Some((items, rest')) => Some(([item] + items, rest'))
  }

  function ReadKey(s: string): (r: Option<(string, string)>)
    ensures r.Some? ==> |r.value.1| < |s|
  {
    var t := SkipSpace(s);
    if t == "" || t[0] != '"' then None
    else match ReadString(t[1..])
         case None => None
         case Some((key, rest)) =>
           var u := SkipSpace(rest);
           if u == "" || u[0] != ':' then None else Some((key, u[1..]))
  }

  function ReadMembers(s: string): (r: Option<(seq<Member>, string)>)
    ensures r.Some? ==> |r.value.1| < |s|
    decreases |s|, 1
  {
    match ReadKey(s)
    case None => None
    case Some((key, afterKey)) =>
      match ReadValue(afterKey)
      case None => None
      case Some((value, rest)) =>
        var t := SkipSpace(rest);
        if t == "" then None
        else if t[0] == '}' then Some(([Member(key, value)], t[1..]))
        else if t[0] != ',' then None
        else match ReadMembers(t[1..])
             case None => None
             case Some((members, rest')) => Some(([Member(key, value)] + members, rest'))
  }

  /** The value of a JSON text; None when the text is not one. */
  function Parse(s: string): Option<Json> {
    match ReadValue(s)
    case None => None
    case Some((value, rest)) => if SkipSpace(rest) == "" then Some(value) else None
  }

  // ---- writing characters ----

  /** The two-character escapes; None for every other character. */
  function ShortEscape(c: char): Option<string> {
    if c == '"' then Some("\\\"")
    else if c == '\\' then Some("\\\\")
    else if c == '\n' then Some("\\n")
    else if c == '\r' then Some("\\r")
    else if c == '\t' then Some("\\t")
    else if c == 12 as char then Some("\\f")
    else if c == 8 as char then Some("\\b")
    else None
  }

  /** A character within a string; with `ascii`, everything outside the printable ASCII range is escaped. */
  function CharText(c: char, ascii: bool): string {
    match ShortEscape(c)
    case Some(text) => text
    case None =>
      if c < ' ' then UnitEscape(c as nat)
      else if !ascii || c <= '~' then [c]
      else if c as nat < 0x10000 then UnitEscape(c as nat)
      else UnitEscape(0xD800 + (c as nat - 0x10000) / 0x400) + UnitEscape(0xDC00 + (c as nat - 0x10000) % 0x400)
  }

  function CharTexts(s: string, ascii: bool): string {
    if s == "" then "" else CharText(s[0], ascii) + CharTexts(s[1..], ascii)
  }

  function StringText(s: string, ascii: bool): string {
    "\"" + CharTexts(s, ascii) + "\""
  }

  lemma {:induction false} HexRoundTrip(n: nat)
    requires n < 16
    ensures HexValue(HexDigit(n)) == Some(n)
  {
  }

  lemma {:induction false} UnitReads(n: nat, rest: string)
    requires n < 0x10000
    ensures ReadUnit(UnitEscape(n) + rest) == Some(n)
  {
    HexRoundTrip(n / 16 / 16 / 16);
    HexRoundTrip(n / 16 / 16 % 16);
    HexRoundTrip(n / 16 % 16);
    HexRoundTrip(n % 16);
  }

  lemma {:induction false} PairReads(c: char, rest: string)
    requires c as nat >= 0x10000
    ensures var k := c as nat - 0x10000;
      ReadEscape(UnitEscape(0xD800 + k / 0x400) + UnitEscape(0xDC00 + k % 0x400) + rest) == Some((c, rest))
  {
    var k := c as nat - 0x10000;
    var high, low := UnitEscape(0xD800 + k / 0x400), UnitEscape(0xDC00 + k % 0x400);
    assert high + low + rest == high + (low + rest);
    UnitReads(0xD800 + k / 0x400, low + rest);
    UnitReads(0xDC00 + k % 0x400, rest);
    assert (high + low + rest)[6..] == low + rest;
    assert (high + low + rest)[12..] == rest;
    assert k / 0x400 * 0x400 + k % 0x400 == k;
  }

  lemma {:induction false} ShortReads(c: char, rest: string)
    requires ShortEscape(c).Some?
    ensures ReadChar(ShortEscape(c).value + rest) == Some((c, rest))
  {
    var text := ShortEscape(c).value;
    assert |text| == 2 && (text + rest)[2..] == rest;
    assert (text + rest)[0] == text[0] == '\\' && (text + rest)[1] == text[1];
  }

  lemma {:induction false} EscapeReads(text: string, c: char, rest: string)
    requires |text| >= 2 && text[0] == '\\' && text[1] == 'u' && ReadEscape(text + rest) == Some((c, rest))
    ensures ReadChar(text + rest) == Some((c, rest))
  {
    assert (text + rest)[0] == text[0] && (text + rest)[1] == text[1];
  }

  lemma {:induction false} UnitEscapeReads(c: char, rest: string)
    requires c as nat < 0x10000
    ensures ReadEscape(UnitEscape(c as nat) + rest) == Some((c, rest))
  {
    UnitReads(c as nat, rest);
    assert (UnitEscape(c as nat) + rest)[6..] == rest;
  }

  /** However a character is written, it is read back as itself and nothing after it is touched. */
  lemma {:induction false} CharReads(c: char, ascii: bool, rest: string)
    ensures CharText(c, ascii) != "" && CharText(c, ascii)[0] != '"'
    ensures ReadChar(CharText(c, ascii) + rest) == Some((c, rest))
  {
    var text := CharText(c, ascii);
    if ShortEscape(c).Some? {
      ShortReads(c, rest);
    } else if c >= ' ' && (!ascii || c <= '~') {
      assert text == [c] && (text + rest)[1..] == rest;
    } else if c as nat < 0x10000 {
      UnitEscapeReads(c, rest);
      EscapeReads(text, c, rest);
    } else {
      PairReads(c, rest);
      EscapeReads(text, c, rest);
    }
  }

  lemma {:induction false} StringReads(s: string, ascii: bool, rest: string)
    ensures ReadString(CharTexts(s, ascii) + "\"" + rest) == Some((s, rest))
  {
    if s == "" {
      assert (CharTexts(s, ascii) + "\"" + rest)[1..] == rest;
    } else {
      var tail := CharTexts(s[1..], ascii) + "\"" + rest;
      assert CharTexts(s, ascii) + "\"" + rest == CharText(s[0], ascii) + tail;
      CharReads(s[0], ascii, tail);
      assert (CharText(s[0], ascii) + tail)[0] == CharText(s[0], ascii)[0];
      StringReads(s[1..], ascii, rest);
      assert [s[0]] + s[1..] == s;
    }
  }
}
