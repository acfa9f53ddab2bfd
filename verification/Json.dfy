/**
 * JavaScript values as far as a trace can hold them, `JSON.stringify` as a
 * printer and `JSON.parse` as a parser (RFC 8259, sections 2 to 7).
 *
 * Numbers are integers. A value that is neither `undefined` nor a `bigint`
 * anywhere is a JSON value; only those are printed.
 */
module Json {
  import opened Wrappers

  datatype Value =
    | Null
    | Undefined
    | Bool(b: bool)
    | Num(n: int)
    | BigInt(n: int)
    | Str(s: string)
    | Arr(items: Items)
    | Obj(members: Members)

  datatype Items = NoItems | Item(head: Value, tail: Items)

  /** The own properties of an object in insertion order. */
  datatype Members = NoMembers | Member(key: string, value: Value, tail: Members)

  predicate IsJson(v: Value) {
    match v
    case Undefined => false
    case BigInt(_) => false
    case Arr(items) => ItemsAreJson(items)
    case Obj(members) => MembersAreJson(members)
    case _ => true
  }

  predicate ItemsAreJson(items: Items) {
    items.Item? ==> IsJson(items.head) && ItemsAreJson(items.tail)
  }

  predicate MembersAreJson(members: Members) {
    members.Member? ==> IsJson(members.value) && MembersAreJson(members.tail)
  }

  // -------------------------------------------------------------- numbers

  predicate IsDigit(c: char) {
    '0' <= c <= '9'
  }

  function DigitChar(d: nat): char
    requires d < 10
  {
    '0' + d as char
  }

  function Digits(n: nat): (text: string)
    ensures text != "" && forall i :: 0 <= i < |text| ==> IsDigit(text[i])
    ensures n > 0 ==> text[0] != '0'
    ensures n == 0 ==> text == "0"
  {
    if n < 10 then [DigitChar(n)] else Digits(n / 10) + [DigitChar(n % 10)]
  }

  function FromDigits(text: string): nat
    requires forall i :: 0 <= i < |text| ==> IsDigit(text[i])
  {
    if text == "" then 0 else
      assert IsDigit(text[|text| - 1]);
      var d: nat := text[|text| - 1] as int - '0' as int;
      10 * FromDigits(text[..|text| - 1]) + d
  }

  lemma {:induction false} DigitsRoundTrip(n: nat)
    ensures FromDigits(Digits(n)) == n
  {
    var text := Digits(n);
    if n < 10 {
      assert text[..0] == "";
    } else {
      assert text[..|text| - 1] == Digits(n / 10);
      DigitsRoundTrip(n / 10);
    }
  }

  /** An integer in decimal: `bigint.toString()` and a printed integer. */
  function Decimal(n: int): string {
    if n < 0 then "-" + Digits(-n) else Digits(n)
  }

  // -------------------------------------------------------------- printer

  function HexDigit(d: nat): char
    requires d < 16
  {
    if d < 10 then DigitChar(d) else 'a' + (d - 10) as char
  }

  function EscapeChar(c: char): string {
    if c == '\"' then "\\\""
    else if c == '\\' then "\\\\"
    else if c == '\U{8}' then "\\b"
    else if c == '\U{C}' then "\\f"
    else if c == '\n' then "\\n"
    else if c == '\r' then "\\r"
    else if c == '\t' then "\\t"
    else if c < ' ' then "\\u00" + [HexDigit(c as int / 16), HexDigit(c as int % 16)]
    else [c]
  }

  // Each printing function takes the text that follows, so that no proof has to
  // reassociate concatenations.

  function Escape(s: string, rest: string): string {
    if s == "" then rest else EscapeChar(s[0]) + Escape(s[1..], rest)
  }

  function Quote(s: string, rest: string): string {
    "\"" + Escape(s, "\"" + rest)
  }

  /** What separates two parts of a container: nothing, or a new indented line. */
  function Break(gap: string, indent: string): string {
    if gap == "" then "" else "\n" + indent
  }

  function Colon(gap: string): string {
    if gap == "" then ":" else ": "
  }

  /** A JSON value nested at `indent`, followed by `rest`. */
  function Print(v: Value, gap: string, indent: string, rest: string): string
    requires IsJson(v)
  {
    match v
    case Null => "null" + rest
    case Bool(b) => (if b then "true" else "false") + rest
    case Num(n) => Decimal(n) + rest
    case Str(s) => Quote(s, rest)
    case Arr(items) =>
      if items == NoItems then "[" + ("]" + rest) else
        "[" + (Break(gap, indent + gap) +
          PrintItems(items, gap, indent + gap, Break(gap, indent) + ("]" + rest)))
    case Obj(members) =>
      if members == NoMembers then "{" + ("}" + rest) else
        "{" + (Break(gap, indent + gap) +
          PrintMembers(members, gap, indent + gap, Break(gap, indent) + ("}" + rest)))
  }

  function PrintItems(items: Items, gap: string, indent: string, rest: string): string
    requires items.Item? && ItemsAreJson(items)
  {
    Print(items.head, gap, indent,
      if items.tail == NoItems then rest
      else "," + (Break(gap, indent) + PrintItems(items.tail, gap, indent, rest)))
  }

  function PrintMembers(members: Members, gap: string, indent: string, rest: string): string
    requires members.Member? && MembersAreJson(members)
  {
    Quote(members.key, Colon(gap) + Print(members.value, gap, indent,
      if members.tail == NoMembers then rest
      else "," + (Break(gap, indent) + PrintMembers(members.tail, gap, indent, rest))))
  }

  /** `JSON.stringify(v, undefined, gap)`. */
  function Stringify(v: Value, gap: string): string
    requires IsJson(v)
  {
    Print(v, gap, "", "")
  }

  // --------------------------------------------------------------- parser

  /** What was read, and the text after it. */
  datatype Parsed<+T> = Fail | Read(value: T, rest: string)

  predicate IsSpace(c: char) {
    c == ' ' || c == '\n' || c == '\r' || c == '\t'
  }

  function SkipSpace(t: string): (rest: string)
    ensures |rest| <= |t|
  {
    if t != "" && IsSpace(t[0]) then SkipSpace(t[1..]) else t
  }

  function DigitRun(t: string): (k: nat)
    ensures k <= |t| && forall i :: 0 <= i < k ==> IsDigit(t[i])
  {
    if t != "" && IsDigit(t[0]) then
      var k := DigitRun(t[1..]);
      assert forall i :: 0 < i < k + 1 ==> t[i] == t[1..][i - 1];
      k + 1
    else 0
  }

  /** An unsigned integer: no leading zero, no fraction, no exponent. */
  function ParseDigits(t: string): (p: Parsed<nat>)
    ensures p.Read? ==> |p.rest| < |t|
  {
    var k := DigitRun(t);
    if k == 0 || (t[0] == '0' && k > 1) then Fail
    else if k < |t| && (t[k] == '.' || t[k] == 'e' || t[k] == 'E') then Fail
    else Read(FromDigits(t[..k]), t[k..])
  }

  function HexValue(c: char): Option<nat> {
    if IsDigit(c) then Some(c as int - '0' as int)
    else if 'a' <= c <= 'f' then Some(c as int - 'a' as int + 10)
    else if 'A' <= c <= 'F' then Some(c as int - 'A' as int + 10)
    else None
  }

  /** One `\uXXXX` after its `\u`. Surrogates, paired or not, are not modelled. */
  function ParseUnicode(t: string): (p: Parsed<char>)
    ensures p.Read? ==> |p.rest| < |t|
  {
    if |t| < 4 then Fail else
      match (HexValue(t[0]), HexValue(t[1]), HexValue(t[2]), HexValue(t[3]))
      case (Some(a), Some(b), Some(c), Some(d)) =>
        var n := 4096 * a + 256 * b + 16 * c + d;
        if n < 0xD800 || 0xE000 <= n < 0x10000 then Read(n as char, t[4..]) else Fail
      case _ => Fail
  }

  function ParseEscape(t: string): (p: Parsed<char>)
    ensures p.Read? ==> |p.rest| < |t|
  {
    if t == "" then Fail
    else if t[0] == '\"' || t[0] == '\\' || t[0] == '/' then Read(t[0], t[1..])
    else if t[0] == 'b' then Read('\U{8}', t[1..])
    else if t[0] == 'f' then Read('\U{C}', t[1..])
    else if t[0] == 'n' then Read('\n', t[1..])
    else if t[0] == 'r' then Read('\r', t[1..])
    else if t[0] == 't' then Read('\t', t[1..])
    else if t[0] == 'u' then ParseUnicode(t[1..])
    else Fail
  }

  function ParseChar(t: string): (p: Parsed<char>)
    ensures p.Read? ==> |p.rest| < |t|
  {
    if t == "" || t[0] < ' ' then Fail
    else if t[0] == '\\' then ParseEscape(t[1..])
    else Read(t[0], t[1..])
  }

  /** The characters of a string literal after its opening quote. */
  function ParseChars(t: string): (p: Parsed<string>)
    ensures p.Read? ==> |p.rest| < |t|
    decreases |t|
  {
    if t != "" && t[0] == '\"' then Read("", t[1..])
    else match ParseChar(t)
      case Fail => Fail
      case Read(c, rest) =>
        match ParseChars(rest)
        case Fail => Fail
        case Read(s, after) => Read([c] + s, after)
  }

  function ParseKeyword(t: string, word: string, v: Value): (p: Parsed<Value>)
    requires word != ""
    ensures p.Read? ==> |p.rest| < |t|
  {
    if |word| <= |t| && t[..|word|] == word then Read(v, t[|word|..]) else Fail
  }

  function ParseNumber(t: string): (p: Parsed<Value>)
    ensures p.Read? ==> |p.rest| < |t|
  {
    if t != "" && t[0] == '-' then Negated(ParseDigits(t[1..])) else Unsigned(ParseDigits(t))
  }

  function Negated(p: Parsed<nat>): Parsed<Value> {
    match p
    case Fail => Fail
    case Read(n, rest) => Read(Num(0 - n), rest)
  }

  function Unsigned(p: Parsed<nat>): Parsed<Value> {
    match p
    case Fail => Fail
    case Read(n, rest) => Read(Num(n), rest)
  }

  /** A value that is not a container. */
  function ParseScalar(t: string): (p: Parsed<Value>)
    ensures p.Read? ==> |p.rest| < |t|
  {
    if t == "" then Fail
    else if t[0] == 'n' then ParseKeyword(t, "null", Null)
    else if t[0] == 't' then ParseKeyword(t, "true", Bool(true))
    else if t[0] == 'f' then ParseKeyword(t, "false", Bool(false))
    else if t[0] == '\"' then
      match ParseChars(t[1..])
      case Fail => Fail
      case Read(s, rest) => Read(Str(s), rest)
    else ParseNumber(t)
  }

  /** One value, after any space before it. */
  function ParseValue(text: string): (p: Parsed<Value>)
    ensures p.Read? ==> |p.rest| < |text|
    decreases |text|, 2
  {
    var t := SkipSpace(text);
    if t != "" && t[0] == '[' then ParseArray(t[1..])
    else if t != "" && t[0] == '{' then ParseObject(t[1..])
    else ParseScalar(t)
  }

  /** An array after its opening bracket. */
  function ParseArray(t: string): (p: Parsed<Value>)
    ensures p.Read? ==> |p.rest| < |t|
    decreases |t|, 5
  {
    var u := SkipSpace(t);
    if u != "" && u[0] == ']' then Read(Arr(NoItems), u[1..])
    else match ParseItems(u)
      case Fail => Fail
      case Read(items, rest) => Read(Arr(items), rest)
  }

  /** An object after its opening brace. */
  function ParseObject(t: string): (p: Parsed<Value>)
    ensures p.Read? ==> |p.rest| < |t|
    decreases |t|, 5
  {
    var u := SkipSpace(t);
    if u != "" && u[0] == '}' then Read(Obj(NoMembers), u[1..])
    else match ParseMembers(u)
      case Fail => Fail
      case Read(members, rest) => Read(Obj(members), rest)
  }

  /** One or more values and the closing bracket. */
  function ParseItems(t: string): (p: Parsed<Items>)
    ensures p.Read? ==> |p.rest| < |t|
    decreases |t|, 3
  {
    match ParseValue(t)
    case Fail => Fail
    case Read(head, rest) =>
      var u := SkipSpace(rest);
      if u == "" then Fail
      else if u[0] == ']' then Read(Item(head, NoItems), u[1..])
      else if u[0] == ',' then
        match ParseItems(u[1..])
        case Fail => Fail
        case Read(tail, after) => Read(Item(head, tail), after)
      else Fail
  }

  /** `"key": value`, after any space before it. */
  function ParseMember(text: string): (p: Parsed<(string, Value)>)
    ensures p.Read? ==> |p.rest| < |text|
    decreases |text|, 3
  {
    var t := SkipSpace(text);
    if t == "" || t[0] != '\"' then Fail else
      match ParseChars(t[1..])
      case Fail => Fail
      case Read(key, rest) =>
        var u := SkipSpace(rest);
        if u == "" || u[0] != ':' then Fail else
          match ParseValue(u[1..])
          case Fail => Fail
          case Read(value, after) => Read((key, value), after)
  }

  /** One or more members and the closing brace. */
  function ParseMembers(t: string): (p: Parsed<Members>)
    ensures p.Read? ==> |p.rest| < |t|
    decreases |t|, 4
  {
    match ParseMember(t)
    case Fail => Fail
    case Read((key, value), rest) =>
      var u := SkipSpace(rest);
      if u == "" then Fail
      else if u[0] == '}' then Read(Member(key, value, NoMembers), u[1..])
      else if u[0] == ',' then
        match ParseMembers(u[1..])
        case Fail => Fail
        case Read(tail, after) => Read(Member(key, value, tail), after)
      else Fail
  }

  /** `JSON.parse`: the whole text is one value with space around it. */
  function Parse(text: string): Option<Value> {
    match ParseValue(text)
    case Fail => None
    case Read(v, rest) => if SkipSpace(rest) == "" then Some(v) else None
  }

  // ----------------------------------------------------------- round trip

  lemma {:induction false} DigitRunOf(digits: string, rest: string)
    requires forall i :: 0 <= i < |digits| ==> IsDigit(digits[i])
    requires rest == "" || !IsDigit(rest[0])
    ensures DigitRun(digits + rest) == |digits|
  {
    if digits == "" {
      assert digits + rest == rest;
    } else {
      assert (digits + rest)[1..] == digits[1..] + rest;
      DigitRunOf(digits[1..], rest);
    }
  }

  /** Nothing that could continue a number. */
  predicate EndsNumber(rest: string) {
    rest == "" || !(IsDigit(rest[0]) || rest[0] == '.' || rest[0] == 'e' || rest[0] == 'E')
  }

  lemma ParseDigitsOf(n: nat, rest: string)
    requires EndsNumber(rest)
    ensures ParseDigits(Digits(n) + rest) == Read(n, rest)
  {
    var d := Digits(n);
    DigitRunOf(d, rest);
    DigitsRoundTrip(n);
    assert (d + rest)[..|d|] == d && (d + rest)[|d|..] == rest;
    if n > 9 { assert (d + rest)[0] == d[0]; }
  }

  lemma ParseCharOf(c: char, rest: string)
    ensures ParseChar(EscapeChar(c) + rest) == Read(c, rest)
    ensures EscapeChar(c) != "" && EscapeChar(c)[0] != '\"'
  {
    var e := EscapeChar(c);
    var t := e + rest;
    if |e| == 1 {
      assert t[1..] == rest;
    } else if |e| == 2 {
      assert t[1..] == e[1..] + rest;
      assert t[1..][1..] == rest;
    } else {
      var hi, lo := c as int / 16, c as int % 16;
      var x := HexDigit(lo);
      assert hi < 2 && HexValue(HexDigit(hi)) == Some(hi) && HexValue(x) == Some(lo);
      var u := t[1..][1..];
      assert u == "00" + [HexDigit(hi), x] + rest;
      assert u[4..] == rest;
      assert ParseUnicode(u) == Read(c, rest);
    }
  }

  lemma {:induction false} ParseCharsOf(s: string, rest: string)
    ensures ParseChars(Escape(s, "\"" + rest)) == Read(s, rest)
  {
    if s == "" {
    } else {
      ParseCharOf(s[0], Escape(s[1..], "\"" + rest));
      ParseCharsOf(s[1..], rest);
      assert [s[0]] + s[1..] == s;
    }
  }

  predicate AllSpaces(s: string) {
    forall i :: 0 <= i < |s| ==> IsSpace(s[i])
  }

  lemma {:induction false} SkipSpaces(s: string, rest: string)
    requires AllSpaces(s)
    ensures SkipSpace(s + rest) == SkipSpace(rest)
  {
    if s == "" {
      assert s + rest == rest;
    } else {
      assert (s + rest)[1..] == s[1..] + rest;
      SkipSpaces(s[1..], rest);
    }
  }

  /** Space before a value, an element or a member is not seen. */
  lemma LeadingSpace(spaces: string, rest: string)
    requires AllSpaces(spaces)
    ensures ParseValue(spaces + rest) == ParseValue(rest)
    ensures ParseItems(spaces + rest) == ParseItems(rest)
    ensures ParseMembers(spaces + rest) == ParseMembers(rest)
  {
    SkipSpaces(spaces, rest);
    assert ParseValue(spaces + rest) == ParseValue(rest);
    assert ParseMember(spaces + rest) == ParseMember(rest);
  }

  lemma BreakIsSpace(gap: string, indent: string)
    requires AllSpaces(gap) && AllSpaces(indent)
    ensures AllSpaces(Break(gap, indent)) && AllSpaces(indent + gap)
  {
  }

  /** What may follow an element: the closing mark or the next comma, after space. */
  lemma MarkAfterSpace(spaces: string, mark: string, rest: string)
    requires AllSpaces(spaces) && |mark| == 1 && !IsSpace(mark[0]) && EndsNumber(mark)
    ensures EndsNumber(spaces + (mark + rest))
    ensures SkipSpace(spaces + (mark + rest)) == mark + rest
    ensures (mark + rest)[0] == mark[0] && (mark + rest)[1..] == rest
  {
    SkipSpaces(spaces, mark + rest);
    if spaces != "" {
      assert IsSpace(spaces[0]) && (spaces + (mark + rest))[0] == spaces[0];
    } else {
      assert spaces + (mark + rest) == mark + rest;
    }
  }

  lemma ParsePrintedNumber(n: int, rest: string)
    requires EndsNumber(rest)
    ensures ParseNumber(Decimal(n) + rest) == Read(Num(n), rest)
  {
    if n < 0 {
      ParseDigitsOf(-n, rest);
      ParsePrintedNegative(-n, Digits(-n), rest);
    } else {
      ParseDigitsOf(n, rest);
      ParsePrintedUnsigned(n, Digits(n), rest);
    }
  }

  lemma ParsePrintedNegative(n: nat, d: string, rest: string)
    requires ParseDigits(d + rest) == Read(n, rest)
    ensures ParseNumber("-" + d + rest) == Read(Num(0 - n), rest)
  {
    assert ("-" + d + rest)[1..] == d + rest;
  }

  lemma ParsePrintedUnsigned(n: nat, d: string, rest: string)
    requires ParseDigits(d + rest) == Read(n, rest) && d != "" && IsDigit(d[0])
    ensures ParseNumber(d + rest) == Read(Num(n), rest)
  {
    assert (d + rest)[0] == d[0];
  }

  lemma ParsePrintedWord(word: string, v: Value, rest: string)
    requires word != ""
    ensures ParseKeyword(word + rest, word, v) == Read(v, rest)
    ensures (word + rest)[0] == word[0]
  {
    assert (word + rest)[..|word|] == word;
    assert (word + rest)[|word|..] == rest;
  }

  /** The first character of a number; no other value starts with it. */
  lemma NumberStarts(n: int)
    ensures Decimal(n)[0] == '-' || IsDigit(Decimal(n)[0])
  {
    if n < 0 { assert Decimal(n)[0] == '-'; } else { assert Decimal(n) == Digits(n); }
  }

  lemma ScalarValue(t: string)
    requires t != "" && !IsSpace(t[0]) && t[0] != '[' && t[0] != '{'
    ensures ParseValue(t) == ParseScalar(t)
  {
    assert SkipSpace(t) == t;
  }

  lemma ScalarNumber(t: string)
    requires t != "" && (t[0] == '-' || IsDigit(t[0]))
    ensures ParseScalar(t) == ParseNumber(t)
  {
  }

  lemma ScalarString(body: string, s: string, rest: string)
    requires ParseChars(body) == Read(s, rest)
    ensures ParseScalar("\"" + body) == Read(Str(s), rest)
  {
    assert ("\"" + body)[1..] == body;
  }

  lemma ParsePrintedScalar(v: Value, rest: string)
    requires v.Null? || v.Bool? || v.Num? || v.Str?
    requires EndsNumber(rest)
    ensures ParseValue(Print(v, "", "", rest)) == Read(v, rest)
  {
    var t := Print(v, "", "", rest);
    if v.Num? {
      NumberStarts(v.n);
      assert t[0] == Decimal(v.n)[0];
      ParsePrintedNumber(v.n, rest);
      ScalarNumber(t);
    } else if v.Str? {
      ParseCharsOf(v.s, rest);
      ScalarString(Escape(v.s, "\"" + rest), v.s, rest);
    } else if v.Bool? {
      ParsePrintedWord(if v.b then "true" else "false", v, rest);
    } else {
      ParsePrintedWord("null", v, rest);
    }
    ScalarValue(t);
  }

  lemma OpenArray(inner: string)
    ensures ParseValue("[" + inner) == ParseArray(inner)
  {
    assert SkipSpace("[" + inner) == "[" + inner;
    assert ("[" + inner)[1..] == inner;
  }

  lemma OpenObject(inner: string)
    ensures ParseValue("{" + inner) == ParseObject(inner)
  {
    assert SkipSpace("{" + inner) == "{" + inner;
    assert ("{" + inner)[1..] == inner;
  }

  lemma InnerItems(spaces: string, body: string, items: Items, rest: string)
    requires AllSpaces(spaces) && body != "" && !IsSpace(body[0]) && body[0] != ']'
    requires ParseItems(body) == Read(items, rest)
    ensures ParseArray(spaces + body) == Read(Arr(items), rest)
  {
    SkipSpaces(spaces, body);
  }

  lemma InnerMembers(spaces: string, body: string, members: Members, rest: string)
    requires AllSpaces(spaces) && body != "" && !IsSpace(body[0]) && body[0] != '}'
    requires ParseMembers(body) == Read(members, rest)
    ensures ParseObject(spaces + body) == Read(Obj(members), rest)
  {
    SkipSpaces(spaces, body);
  }

  /** Parsing what was printed gives the value back and stops right after it. */
  lemma {:induction false} ParsePrinted(v: Value, gap: string, indent: string, rest: string)
    requires IsJson(v) && AllSpaces(gap) && AllSpaces(indent) && EndsNumber(rest)
    ensures ParseValue(Print(v, gap, indent, rest)) == Read(v, rest)
    decreases v, 1
  {
    if v.Arr? {
      ParsePrintedArray(v.items, gap, indent, rest);
    } else if v.Obj? {
      ParsePrintedObject(v.members, gap, indent, rest);
    } else {
      ParsePrintedScalar(v, rest);
    }
  }

  lemma {:induction false} ParsePrintedArray(items: Items, gap: string, indent: string, rest: string)
    requires ItemsAreJson(items) && AllSpaces(gap) && AllSpaces(indent) && EndsNumber(rest)
    ensures ParseValue(Print(Arr(items), gap, indent, rest)) == Read(Arr(items), rest)
    decreases items, 2
  {
    if items == NoItems {
      OpenArray("]" + rest);
      assert ("]" + rest)[1..] == rest;
    } else {
      BreakIsSpace(gap, indent);
      BreakIsSpace(gap, indent + gap);
      var body := PrintItems(items, gap, indent + gap, Break(gap, indent) + ("]" + rest));
      PrintItemsStarts(items, gap, indent + gap, Break(gap, indent) + ("]" + rest));
      ParsePrintedItems(items, gap, indent + gap, Break(gap, indent), rest);
      InnerItems(Break(gap, indent + gap), body, items, rest);
      OpenArray(Break(gap, indent + gap) + body);
    }
  }

  lemma {:induction false} ParsePrintedObject(members: Members, gap: string, indent: string, rest: string)
    requires MembersAreJson(members) && AllSpaces(gap) && AllSpaces(indent) && EndsNumber(rest)
    ensures ParseValue(Print(Obj(members), gap, indent, rest)) == Read(Obj(members), rest)
    decreases members, 2
  {
    if members == NoMembers {
      OpenObject("}" + rest);
      assert ("}" + rest)[1..] == rest;
    } else {
      BreakIsSpace(gap, indent);
      BreakIsSpace(gap, indent + gap);
      var body := PrintMembers(members, gap, indent + gap, Break(gap, indent) + ("}" + rest));
      PrintMembersStarts(members, gap, indent + gap, Break(gap, indent) + ("}" + rest));
      ParsePrintedMembers(members, gap, indent + gap, Break(gap, indent), rest);
      InnerMembers(Break(gap, indent + gap), body, members, rest);
      OpenObject(Break(gap, indent + gap) + body);
    }
  }

  /** The first character of a printed value: no space and no closing mark. */
  lemma PrintStarts(v: Value, gap: string, indent: string, rest: string)
    requires IsJson(v)
    ensures var t := Print(v, gap, indent, rest);
            t != "" && !IsSpace(t[0]) && t[0] != ']' && t[0] != '}'
  {
    if v.Num? {
      NumberStarts(v.n);
      assert Print(v, gap, indent, rest)[0] == Decimal(v.n)[0];
    }
  }

  lemma PrintItemsStarts(items: Items, gap: string, indent: string, rest: string)
    requires items.Item? && ItemsAreJson(items)
    ensures var t := PrintItems(items, gap, indent, rest); t != "" && !IsSpace(t[0]) && t[0] != ']'
  {
    PrintStarts(items.head, gap, indent,
      if items.tail == NoItems then rest
      else "," + (Break(gap, indent) + PrintItems(items.tail, gap, indent, rest)));
  }

  lemma PrintMembersStarts(members: Members, gap: string, indent: string, rest: string)
    requires members.Member? && MembersAreJson(members)
    ensures var t := PrintMembers(members, gap, indent, rest); t != "" && t[0] == '\"'
  {
  }

  lemma {:induction false} ParsePrintedItems(items: Items, gap: string, indent: string, spaces: string, rest: string)
    requires items.Item? && ItemsAreJson(items)
    requires AllSpaces(gap) && AllSpaces(indent) && AllSpaces(spaces)
    ensures ParseItems(PrintItems(items, gap, indent, spaces + ("]" + rest))) == Read(items, rest)
    decreases items, 1
  {
    if items.tail == NoItems {
      MarkAfterSpace(spaces, "]", rest);
      ParsePrinted(items.head, gap, indent, spaces + ("]" + rest));
    } else {
      var more := PrintItems(items.tail, gap, indent, spaces + ("]" + rest));
      var next := Break(gap, indent) + more;
      MarkAfterSpace("", ",", next);
      assert "" + ("," + next) == "," + next;
      ParsePrinted(items.head, gap, indent, "," + next);
      BreakIsSpace(gap, indent);
      LeadingSpace(Break(gap, indent), more);
      ParsePrintedItems(items.tail, gap, indent, spaces, rest);
    }
  }

  lemma {:induction false} ParsePrintedMember(key: string, value: Value, gap: string, indent: string, rest: string)
    requires IsJson(value) && AllSpaces(gap) && AllSpaces(indent) && EndsNumber(rest)
    ensures ParseMember(Quote(key, Colon(gap) + Print(value, gap, indent, rest))) == Read((key, value), rest)
    decreases value, 2
  {
    ParsePrinted(value, gap, indent, rest);
    KeyThenValue(key, gap, Print(value, gap, indent, rest), value, rest);
  }

  lemma KeyThenValue(key: string, gap: string, text: string, value: Value, rest: string)
    requires ParseValue(text) == Read(value, rest)
    ensures ParseMember(Quote(key, Colon(gap) + text)) == Read((key, value), rest)
  {
    hide ParseValue, ParseChars, Escape;
    var u := Colon(gap) + text;
    var t := Quote(key, u);
    assert SkipSpace(t) == t;
    assert t[1..] == Escape(key, "\"" + u);
    ParseCharsOf(key, u);
    AfterColon(gap, text);
  }

  lemma AfterColon(gap: string, text: string)
    ensures var u := Colon(gap) + text;
            SkipSpace(u) == u && u[0] == ':' && ParseValue(u[1..]) == ParseValue(text)
  {
    hide ParseValue;
    var u := Colon(gap) + text;
    assert u[1..] == Colon(gap)[1..] + text;
    LeadingSpace(Colon(gap)[1..], text);
  }

  lemma {:induction false} ParsePrintedMembers(members: Members, gap: string, indent: string, spaces: string,
                                               rest: string)
    requires members.Member? && MembersAreJson(members)
    requires AllSpaces(gap) && AllSpaces(indent) && AllSpaces(spaces)
    ensures ParseMembers(PrintMembers(members, gap, indent, spaces + ("}" + rest))) == Read(members, rest)
    decreases members, 1
  {
    hide ParseMembers, ParseMember, Print, Quote, Colon, Break, MembersAreJson, IsJson;
    var Member(key, value, tail) := members;
    MemberIsJson(members);
    if tail == NoMembers {
      MarkAfterSpace(spaces, "}", rest);
      ParsePrintedMember(key, value, gap, indent, spaces + ("}" + rest));
      LastMember(PrintMembers(members, gap, indent, spaces + ("}" + rest)), key, value, spaces, rest);
    } else {
      var more := PrintMembers(tail, gap, indent, spaces + ("}" + rest));
      var next := Break(gap, indent) + more;
      MarkAfterSpace("", ",", next);
      assert "" + ("," + next) == "," + next;
      ParsePrintedMember(key, value, gap, indent, "," + next);
      BreakIsSpace(gap, indent);
      LeadingSpace(Break(gap, indent), more);
      ParsePrintedMembers(tail, gap, indent, spaces, rest);
      MemberThenMore(PrintMembers(members, gap, indent, spaces + ("}" + rest)), key, value, next, tail, rest);
    }
  }

  lemma MemberIsJson(members: Members)
    requires members.Member? && MembersAreJson(members)
    ensures IsJson(members.value) && MembersAreJson(members.tail)
    ensures members.tail == NoMembers || members.tail.Member?
  {
  }

  lemma LastMember(text: string, key: string, value: Value, spaces: string, rest: string)
    requires AllSpaces(spaces) && ParseMember(text) == Read((key, value), spaces + ("}" + rest))
    ensures ParseMembers(text) == Read(Member(key, value, NoMembers), rest)
  {
    hide ParseMember;
    MarkAfterSpace(spaces, "}", rest);
  }

  lemma MemberThenMore(text: string, key: string, value: Value, next: string, tail: Members, rest: string)
    requires ParseMember(text) == Read((key, value), "," + next) && ParseMembers(next) == Read(tail, rest)
    ensures ParseMembers(text) == Read(Member(key, value, tail), rest)
  {
    hide ParseMember;
    MarkAfterSpace("", ",", next);
    assert "" + ("," + next) == "," + next;
  }

  /** `JSON.parse(JSON.stringify(v, undefined, gap))` is `v`, for every JSON value. */
  lemma StringifyParse(v: Value, gap: string)
    requires IsJson(v) && AllSpaces(gap)
    ensures Parse(Stringify(v, gap)) == Some(v)
  {
    ParsePrinted(v, gap, "", "");
  }

  /** Different values print differently. */
  lemma StringifyInjective(v: Value, w: Value)
    requires IsJson(v) && IsJson(w)
    requires Stringify(v, "") == Stringify(w, "")
    ensures v == w
  {
    StringifyParse(v, "");
    StringifyParse(w, "");
  }
}
