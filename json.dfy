/**
 * `JSON.stringify` and `JSON.parse` of ECMA-262 5.1 (sections 15.12.3 and
 * 15.12.2) over JSON texts as defined by RFC 8259. A number is kept as its
 * lexeme: its floating-point value is not part of this model.
 */
module Json {
  import opened Wrappers
  import Hex

  datatype Json =
    | JNull
    | JBool(b: bool)
    | JNumber(lexeme: string)
    | JString(s: string)
    | JArray(items: seq<Json>)
    | JObject(members: seq<Member>)

  /** One member `key: value` of an object, in the order written. */
  datatype Member = Member(key: string, value: Json)

  /** The exceptions `JSON.parse` and a property access on its result can throw. */
  datatype JsonError = SyntaxError | TypeError

  // ---------------------------------------------------------------- stringify

  /** The escape that `JSON.stringify` writes for one character inside a string. */
  function EscapeChar(c: char): (r: string)
    ensures |r| >= 1
  {
    if c == '"' then ['\\', '"']
    else if c == '\\' then ['\\', '\\']
    else if c == '\U{8}' then ['\\', 'b']
    else if c == '\U{C}' then ['\\', 'f']
    else if c == '\n' then ['\\', 'n']
    else if c == '\r' then ['\\', 'r']
    else if c == '\t' then ['\\', 't']
    else if (c as int) < 0x20 then
      ['\\', 'u', '0', '0', Hex.LowerDigit(c as int / 16), Hex.LowerDigit(c as int % 16)]
    else [c]
  }

  function QuoteChars(s: string): (r: string)
    ensures |r| >= |s|
  {
    if s == [] then [] else EscapeChar(s[0]) + QuoteChars(s[1..])
  }

  /** The operation Quote: a string literal for `s`. */
  function Quote(s: string): string {
    ['"'] + QuoteChars(s) + ['"']
  }

  /** `JSON.stringify(v)` with no replacer and no indentation. */
  function Stringify(v: Json): string
    decreases v
  {
    match v
    case JNull => "null"
    case JBool(b) => if b then "true" else "false"
    case JNumber(l) => l
    case JString(s) => Quote(s)
    case JArray(items) => ['['] + StringifyItems(items) + [']']
    case JObject(members) => ['{'] + StringifyMembers(members) + ['}']
  }

  function StringifyItems(items: seq<Json>): string
    decreases items
  {
    if items == [] then []
    else if |items| == 1 then Stringify(items[0])
    else Stringify(items[0]) + [','] + StringifyItems(items[1..])
  }

  function StringifyMember(m: Member): string
    decreases m
  {
    Quote(m.key) + [':'] + Stringify(m.value)
  }

  function StringifyMembers(members: seq<Member>): string
    decreases members
  {
    if members == [] then []
    else if |members| == 1 then StringifyMember(members[0])
    else StringifyMember(members[0]) + [','] + StringifyMembers(members[1..])
  }

  // -------------------------------------------------------------------- parse

  predicate IsWs(c: char) {
    c == ' ' || c == '\t' || c == '\n' || c == '\r'
  }

  predicate IsDigit(c: char) {
    '0' <= c <= '9'
  }

  /** `s` without its leading whitespace. */
  function SkipWs(s: string): (r: string)
    ensures |r| <= |s|
    ensures r == [] || !IsWs(r[0])
  {
    if s != [] && IsWs(s[0]) then SkipWs(s[1..]) else s
  }

  /** The number of decimal digits at the head of `s`. */
  function LeadingDigits(s: string): (n: nat)
    ensures n <= |s|
    ensures forall i :: 0 <= i < n ==> IsDigit(s[i])
    ensures n == |s| || !IsDigit(s[n])
  {
    if s != [] && IsDigit(s[0]) then 1 + LeadingDigits(s[1..]) else 0
  }

  /** The lexeme of a number (`-`, integer part, fraction, exponent) at the head of `s`. */
  function ParseNumber(s: string): (r: Result<(string, string), JsonError>)
    ensures r.Success? ==> r.value.0 + r.value.1 == s && |r.value.0| > 0
  {
    var i := if s != [] && s[0] == '-' then 1 else 0;
    var d := LeadingDigits(s[i..]);
    if d == 0 then Failure(SyntaxError)
    else
      var j := i + (if s[i] == '0' then 1 else d);
      var fracOk := !(j < |s| && s[j] == '.') || LeadingDigits(s[j + 1..]) > 0;
      if !fracOk then Failure(SyntaxError)
      else
        var j' := if j < |s| && s[j] == '.' then j + 1 + LeadingDigits(s[j + 1..]) else j;
        if j' < |s| && (s[j'] == 'e' || s[j'] == 'E') then
          var k := if j' + 1 < |s| && (s[j' + 1] == '+' || s[j' + 1] == '-') then j' + 2 else j' + 1;
          var e := LeadingDigits(s[k..]);
          if e == 0 then Failure(SyntaxError)
          else (assert s[..k + e] + s[k + e..] == s; Success((s[..k + e], s[k + e..])))
        else (assert s[..j'] + s[j'..] == s; Success((s[..j'], s[j'..])))
  }

  /** Four hexadecimal digits at the head of `s`. */
  function Hex4(s: string): (r: Option<nat>)
    ensures r.Some? ==> |s| >= 4 && r.value < 0x10000
  {
    if |s| >= 4 && Hex.DigitValue(s[0]).Some? && Hex.DigitValue(s[1]).Some?
       && Hex.DigitValue(s[2]).Some? && Hex.DigitValue(s[3]).Some?
    then
      Some(((Hex.DigitValue(s[0]).value * 16 + Hex.DigitValue(s[1]).value) * 16
            + Hex.DigitValue(s[2]).value) * 16 + Hex.DigitValue(s[3]).value)
    else None
  }

  /**
   * The character written by the escape that follows a backslash at the head
   * of `s`. A `\u` escape of a high surrogate must be followed by one of a low
   * surrogate; the two stand for one character.
   */
  function ParseEscape(s: string): (r: Result<(char, string), JsonError>)
    ensures r.Success? ==> |r.value.1| < |s|
  {
    if s == [] then Failure(SyntaxError)
    else if s[0] == '"' then Success(('"', s[1..]))
    else if s[0] == '\\' then Success(('\\', s[1..]))
    else if s[0] == '/' then Success(('/', s[1..]))
    else if s[0] == 'b' then Success(('\U{8}', s[1..]))
    else if s[0] == 'f' then Success(('\U{C}', s[1..]))
    else if s[0] == 'n' then Success(('\n', s[1..]))
    else if s[0] == 'r' then Success(('\r', s[1..]))
    else if s[0] == 't' then Success(('\t', s[1..]))
    else if s[0] == 'u' then
      match Hex4(s[1..])
      case None => Failure(SyntaxError)
      case Some(u) =>
        if u < 0xD800 || u >= 0xE000 then Success((u as char, s[5..]))
        else if u >= 0xDC00 then Failure(SyntaxError)
        else if |s| >= 7 && s[5] == '\\' && s[6] == 'u' && Hex4(s[7..]).Some?
                && 0xDC00 <= Hex4(s[7..]).value < 0xE000 then
          var cp := 0x10000 + (u - 0xD800) * 0x400 + (Hex4(s[7..]).value - 0xDC00);
          Success((cp as char, s[11..]))
        else Failure(SyntaxError)
    else Failure(SyntaxError)
  }

  /** The characters of a string literal up to its closing quote, and what follows the quote. */
  function ParseStringBody(s: string): (r: Result<(string, string), JsonError>)
    ensures r.Success? ==> |r.value.1| < |s|
    decreases |s|
  {
    if s == [] then Failure(SyntaxError)
    else if s[0] == '"' then Success(([], s[1..]))
    else if s[0] == '\\' then
      match ParseEscape(s[1..])
      case Failure(e) => Failure(e)
      case Success((c, rest)) =>
        match ParseStringBody(rest)
        case Failure(e) => Failure(e)
        case Success((t, rest')) => Success(([c] + t, rest'))
    else if (s[0] as int) < 0x20 then Failure(SyntaxError)
    else
      match ParseStringBody(s[1..])
      case Failure(e) => Failure(e)
      case Success((t, rest')) => Success(([s[0]] + t, rest'))
  }

  function ParseLiteral(s: string, word: string, v: Json): (r: Result<(Json, string), JsonError>)
    requires |word| > 0
    ensures r.Success? ==> |r.value.1| < |s|
  {
    if |s| >= |word| && s[..|word|] == word then Success((v, SkipWs(s[|word|..])))
    else Failure(SyntaxError)
  }

  /** A value with the whitespace around it, and what follows. */
  function ParseValue(s: string): (r: Result<(Json, string), JsonError>)
    ensures r.Success? ==> |r.value.1| < |s|
    ensures r.Success? ==> r.value.1 == [] || !IsWs(r.value.1[0])
    decreases |s|, 0
  {
    var t := SkipWs(s);
    if t == [] then Failure(SyntaxError)
    else if t[0] == 'n' then ParseLiteral(t, "null", JNull)
    else if t[0] == 't' then ParseLiteral(t, "true", JBool(true))
    else if t[0] == 'f' then ParseLiteral(t, "false", JBool(false))
    else if t[0] == '"' then
      match ParseStringBody(t[1..])
      case Failure(e) => Failure(e)
      case Success((str, rest)) => Success((JString(str), SkipWs(rest)))
    else if t[0] == '[' then ParseArray(t[1..])
    else if t[0] == '{' then ParseObject(t[1..])
    else if t[0] == '-' || IsDigit(t[0]) then
      match ParseNumber(t)
      case Failure(e) => Failure(e)
      case Success((lexeme, rest)) => Success((JNumber(lexeme), SkipWs(rest)))
    else Failure(SyntaxError)
  }

  /** The rest of an array after its `[`. */
  function ParseArray(s: string): (r: Result<(Json, string), JsonError>)
    ensures r.Success? ==> |r.value.1| < |s|
    ensures r.Success? ==> r.value.1 == [] || !IsWs(r.value.1[0])
    decreases |s|, 2
  {
    var t := SkipWs(s);
    if t != [] && t[0] == ']' then Success((JArray([]), SkipWs(t[1..])))
    else ParseItems(t, [])
  }

  function ParseItems(s: string, acc: seq<Json>): (r: Result<(Json, string), JsonError>)
    ensures r.Success? ==> |r.value.1| < |s|
    ensures r.Success? ==> r.value.1 == [] || !IsWs(r.value.1[0])
    decreases |s|, 1
  {
    match ParseValue(s)
    case Failure(e) => Failure(e)
    case Success((v, rest)) =>
      if rest != [] && rest[0] == ',' then ParseItems(rest[1..], acc + [v])
      else if rest != [] && rest[0] == ']' then Success((JArray(acc + [v]), SkipWs(rest[1..])))
      else Failure(SyntaxError)
  }

  /** The rest of an object after its `{`. */
  function ParseObject(s: string): (r: Result<(Json, string), JsonError>)
    ensures r.Success? ==> |r.value.1| < |s|
    ensures r.Success? ==> r.value.1 == [] || !IsWs(r.value.1[0])
    decreases |s|, 2
  {
    var t := SkipWs(s);
    if t != [] && t[0] == '}' then Success((JObject([]), SkipWs(t[1..])))
    else ParseMembers(t, [])
  }

  function ParseMembers(s: string, acc: seq<Member>): (r: Result<(Json, string), JsonError>)
    ensures r.Success? ==> |r.value.1| < |s|
    ensures r.Success? ==> r.value.1 == [] || !IsWs(r.value.1[0])
    decreases |s|, 1
  {
    if s == [] || s[0] != '"' then Failure(SyntaxError)
    else
      match ParseStringBody(s[1..])
      case Failure(e) => Failure(e)
      case Success((key, rest)) =>
        var colon := SkipWs(rest);
        if colon == [] || colon[0] != ':' then Failure(SyntaxError)
        else
          match ParseValue(colon[1..])
          case Failure(e) => Failure(e)
          case Success((v, rest')) =>
            if rest' != [] && rest'[0] == ',' then ParseMembers(SkipWs(rest'[1..]), acc + [Member(key, v)])
            else if rest' != [] && rest'[0] == '}' then
              Success((JObject(acc + [Member(key, v)]), SkipWs(rest'[1..])))
            else Failure(SyntaxError)
  }

  /** `JSON.parse(s)`: one value, surrounded by whitespace only. */
  function Parse(s: string): (r: Result<Json, JsonError>) {
    match ParseValue(s)
    case Failure(e) => Failure(e)
    case Success((v, rest)) => if rest == [] then Success(v) else Failure(SyntaxError)
  }

  // --------------------------------------------------------- property access

  /** The value of the last member named `key`, as `JSON.parse` keeps the last duplicate. */
  function LastValue(members: seq<Member>, key: string): (r: Option<Json>)
    ensures r.Some? <==> exists i :: 0 <= i < |members| && members[i].key == key
  {
    if members == [] then None
    else if members[|members| - 1].key == key then Some(members[|members| - 1].value)
    else LastValue(members[..|members| - 1], key)
  }

  /**
   * The property access `v.key` for a key no prototype defines: undefined
   * (`None`) for a key an object lacks and for every non-object except
   * `null`, on which it throws a TypeError.
   */
  function Get(v: Json, key: string): (r: Result<Option<Json>, JsonError>)
    ensures r.Failure? <==> v.JNull?
    ensures r.Failure? ==> r.error == TypeError
    ensures v.JObject? ==> r == Success(LastValue(v.members, key))
    ensures !v.JObject? && !v.JNull? ==> r == Success(None)
  {
    match v
    case JNull => Failure(TypeError)
    case JObject(members) => Success(LastValue(members, key))
    case _ => Success(None)
  }
}

/** Round trips between `JSON.stringify` and `JSON.parse`. */
module JsonLaws {
  import opened Wrappers
  import opened Json
  import Hex

  /** A value without numbers: its text form says exactly where it ends. */
  predicate NoNumbers(v: Json)
    decreases v
  {
    match v
    case JNumber(_) => false
    case JArray(items) => forall i :: 0 <= i < |items| ==> NoNumbers(items[i])
    case JObject(members) => forall i :: 0 <= i < |members| ==> MemberNoNumbers(members[i])
    case _ => true
  }

  predicate MemberNoNumbers(m: Member)
    decreases m
  {
    NoNumbers(m.value)
  }

  lemma EscapeParses(c: char, tail: string, t: string, rest: string)
    requires ParseStringBody(tail) == Success((t, rest))
    ensures ParseStringBody(EscapeChar(c) + tail) == Success(([c] + t, rest))
  {
    var s := EscapeChar(c) + tail;
    if c == '"' || c == '\\' || c == '\U{8}' || c == '\U{C}' || c == '\n' || c == '\r' || c == '\t' {
      assert s[1..] == [s[1]] + tail;
      assert ([s[1]] + tail)[1..] == tail;
    } else if (c as int) < 0x20 {
      var hi, lo := c as int / 16, c as int % 16;
      Hex.DigitRoundTrip(hi);
      Hex.DigitRoundTrip(lo);
      var esc := s[1..];
      assert esc == ['u', '0', '0', Hex.LowerDigit(hi), Hex.LowerDigit(lo)] + tail;
      assert Hex4(esc[1..]) == Some(c as int);
      assert esc[5..] == tail;
    } else {
      assert s[1..] == tail;
    }
  }

  /** The characters of a quoted string parse back to the string. */
  lemma {:induction false} QuoteParses(s: string, rest: string)
    ensures ParseStringBody(QuoteChars(s) + ['"'] + rest) == Success((s, rest))
  {
    if s == [] {
      assert QuoteChars(s) + ['"'] + rest == ['"'] + rest;
      assert (['"'] + rest)[1..] == rest;
    } else {
      var tail := QuoteChars(s[1..]) + ['"'] + rest;
      QuoteParses(s[1..], rest);
      EscapeParses(s[0], tail, s[1..], rest);
      QuoteCharsCons(s, rest);
    }
  }

  /** The quoted characters of a non-empty string: its first, escaped, then the others. */
  lemma QuoteCharsCons(s: string, rest: string)
    requires s != []
    ensures QuoteChars(s) + ['"'] + rest == EscapeChar(s[0]) + (QuoteChars(s[1..]) + ['"'] + rest)
    ensures [s[0]] + s[1..] == s
  {
    var e := EscapeChar(s[0]);
    var q := QuoteChars(s[1..]);
    assert QuoteChars(s) == e + q;
    Regroup4(e, q, ['"'], rest);
  }

  lemma Regroup4(a: string, b: string, c: string, d: string)
    ensures a + b + c + d == a + (b + c + d)
  {
  }

  /** The text of a value without numbers starts with a character that is not whitespace. */
  lemma StartsSolid(v: Json)
    requires NoNumbers(v)
    ensures |Stringify(v)| > 0 && !IsWs(Stringify(v)[0])
  {
  }

  /** How `ParseValue` proceeds on a text that starts with a given character. */
  lemma ParseValueDispatch(t: string)
    requires t != [] && !IsWs(t[0])
    ensures t[0] == 'n' ==> ParseValue(t) == ParseLiteral(t, "null", JNull)
    ensures t[0] == 't' ==> ParseValue(t) == ParseLiteral(t, "true", JBool(true))
    ensures t[0] == 'f' ==> ParseValue(t) == ParseLiteral(t, "false", JBool(false))
    ensures t[0] == '[' ==> ParseValue(t) == ParseArray(t[1..])
    ensures t[0] == '{' ==> ParseValue(t) == ParseObject(t[1..])
    ensures t[0] == '"' ==>
              ParseValue(t) == (match ParseStringBody(t[1..])
                                case Failure(e) => Failure(e)
                                case Success((str, rest)) => Success((JString(str), SkipWs(rest))))
  {
    assert SkipWs(t) == t;
  }

  lemma LiteralRoundTrip(word: string, v: Json, rest: string)
    requires |word| > 0
    ensures ParseLiteral(word + rest, word, v) == Success((v, SkipWs(rest)))
  {
    var s := word + rest;
    assert s[..|word|] == word && s[|word|..] == rest;
  }

  lemma ParseArrayEmpty(rest: string)
    ensures ParseArray([']'] + rest) == Success((JArray([]), SkipWs(rest)))
  {
    var inner := [']'] + rest;
    assert SkipWs(inner) == inner;
    assert inner[1..] == rest;
  }

  lemma ParseArrayItems(t: string)
    requires t != [] && !IsWs(t[0]) && t[0] != ']'
    ensures ParseArray(t) == ParseItems(t, [])
  {
    assert SkipWs(t) == t;
  }

  /** `v`, written out and followed by `r`, parses back as `v` with `r` left over. */
  ghost predicate RoundTrips(v: Json, r: string) {
    ParseValue(Stringify(v) + r) == Success((v, SkipWs(r)))
  }

  /** The round trip of every element, as the hypothesis of the list lemmas below. */
  ghost predicate ElementsRoundTrip(items: seq<Json>) {
    forall i, r :: 0 <= i < |items| ==> RoundTrips(items[i], r)
  }

  ghost predicate MemberValuesRoundTrip(members: seq<Member>) {
    forall i, r :: 0 <= i < |members| ==> RoundTrips(members[i].value, r)
  }

  lemma ArrayRoundTrip(items: seq<Json>, rest: string)
    requires forall i :: 0 <= i < |items| ==> NoNumbers(items[i])
    requires ElementsRoundTrip(items)
    ensures ParseArray(StringifyItems(items) + [']'] + rest) == Success((JArray(items), SkipWs(rest)))
  {
    if items == [] {
      ParseArrayEmpty(rest);
      assert StringifyItems(items) + [']'] + rest == [']'] + rest;
    } else {
      var inner := StringifyItems(items) + [']'] + rest;
      ItemsStartSolid(items);
      ParseArrayItems(inner);
      ItemsRoundTrip(items, [], rest);
      assert [] + items == items;
    }
  }

  lemma ParseObjectEmpty(rest: string)
    ensures ParseObject(['}'] + rest) == Success((JObject([]), SkipWs(rest)))
  {
    var inner := ['}'] + rest;
    assert SkipWs(inner) == inner;
    assert inner[1..] == rest;
  }

  lemma ParseObjectMembers(t: string)
    requires t != [] && t[0] == '"'
    ensures ParseObject(t) == ParseMembers(t, [])
  {
    assert SkipWs(t) == t;
  }

  lemma ObjectRoundTrip(members: seq<Member>, rest: string)
    requires MemberValuesRoundTrip(members)
    ensures ParseObject(StringifyMembers(members) + ['}'] + rest) == Success((JObject(members), SkipWs(rest)))
  {
    if members == [] {
      ParseObjectEmpty(rest);
      assert StringifyMembers(members) + ['}'] + rest == ['}'] + rest;
    } else {
      var inner := StringifyMembers(members) + ['}'] + rest;
      MembersStartWithQuote(members);
      ParseObjectMembers(inner);
      MembersRoundTrip(members, [], rest);
      assert [] + members == members;
    }
  }

  /** `JSON.parse` reads back exactly the value `JSON.stringify` wrote, whatever follows it. */
  lemma {:induction false} ValueRoundTrip(v: Json, rest: string)
    requires NoNumbers(v)
    ensures RoundTrips(v, rest)
    decreases v, 1
  {
    match v
    case JNull => LiteralValueRoundTrip("null", v, rest);
    case JBool(b) =>
      if b { LiteralValueRoundTrip("true", v, rest); } else { LiteralValueRoundTrip("false", v, rest); }
    case JString(str) => StringValueRoundTrip(str, rest);
    case JArray(items) => ArrayValueRoundTrip(items, rest);
    case JObject(members) => ObjectValueRoundTrip(members, rest);
  }

  lemma LiteralValueRoundTrip(word: string, v: Json, rest: string)
    requires word == "null" || word == "true" || word == "false"
    requires Stringify(v) == word && ParseValue(word + rest) == ParseLiteral(word + rest, word, v)
    ensures RoundTrips(v, rest)
  {
    LiteralRoundTrip(word, v, rest);
  }

  lemma StringValueRoundTrip(str: string, rest: string)
    ensures RoundTrips(JString(str), rest)
  {
    var s := Stringify(JString(str)) + rest;
    ParseValueDispatch(s);
    assert s[1..] == QuoteChars(str) + ['"'] + rest;
    QuoteParses(str, rest);
  }

  lemma {:induction false} ArrayValueRoundTrip(items: seq<Json>, rest: string)
    requires NoNumbers(JArray(items))
    ensures RoundTrips(JArray(items), rest)
    decreases JArray(items), 0
  {
    forall i, r | 0 <= i < |items|
      ensures RoundTrips(items[i], r)
    {
      ValueRoundTrip(items[i], r);
    }
    var s := Stringify(JArray(items)) + rest;
    ParseValueDispatch(s);
    assert s[1..] == StringifyItems(items) + [']'] + rest;
    ArrayRoundTrip(items, rest);
  }

  lemma {:induction false} ObjectValueRoundTrip(members: seq<Member>, rest: string)
    requires NoNumbers(JObject(members))
    ensures RoundTrips(JObject(members), rest)
    decreases JObject(members), 0
  {
    forall i, r | 0 <= i < |members|
      ensures RoundTrips(members[i].value, r)
    {
      assert MemberNoNumbers(members[i]);
      ValueRoundTrip(members[i].value, r);
    }
    var s := Stringify(JObject(members)) + rest;
    ParseValueDispatch(s);
    assert s[1..] == StringifyMembers(members) + ['}'] + rest;
    ObjectRoundTrip(members, rest);
  }

  lemma ItemsStartSolid(items: seq<Json>)
    requires items != [] && NoNumbers(items[0])
    ensures |StringifyItems(items)| > 0 && !IsWs(StringifyItems(items)[0])
  {
    StartsSolid(items[0]);
  }

  lemma MembersStartWithQuote(members: seq<Member>)
    requires members != []
    ensures |StringifyMembers(members)| > 0 && StringifyMembers(members)[0] == '"'
  {
  }

  lemma ParseItemsNext(s: string, acc: seq<Json>, v: Json, rest: string)
    requires ParseValue(s) == Success((v, rest)) && rest != [] && rest[0] == ','
    ensures ParseItems(s, acc) == ParseItems(rest[1..], acc + [v])
  {
  }

  lemma ParseItemsLast(s: string, acc: seq<Json>, v: Json, rest: string)
    requires ParseValue(s) == Success((v, rest)) && rest != [] && rest[0] == ']'
    ensures ParseItems(s, acc) == Success((JArray(acc + [v]), SkipWs(rest[1..])))
  {
  }

  lemma {:induction false} ItemsRoundTrip(items: seq<Json>, acc: seq<Json>, rest: string)
    requires items != []
    requires ElementsRoundTrip(items)
    ensures ParseItems(StringifyItems(items) + [']'] + rest, acc) == Success((JArray(acc + items), SkipWs(rest)))
    decreases items
  {
    if |items| == 1 {
      ItemsOne(items, acc, rest);
    } else {
      ItemsStep(items, acc, rest);
      ItemsRoundTrip(items[1..], acc + [items[0]], rest);
    }
  }

  lemma ItemsOne(items: seq<Json>, acc: seq<Json>, rest: string)
    requires |items| == 1
    requires ElementsRoundTrip(items)
    ensures ParseItems(StringifyItems(items) + [']'] + rest, acc) == Success((JArray(acc + items), SkipWs(rest)))
  {
    var v := items[0];
    assert RoundTrips(v, [']'] + rest);
    assert StringifyItems(items) == Stringify(v);
    assert items == [v];
    ItemLast(v, acc, rest);
  }

  /** A last element parses back and closes the array. */
  lemma ItemLast(v: Json, acc: seq<Json>, rest: string)
    requires RoundTrips(v, [']'] + rest)
    ensures ParseItems(Stringify(v) + [']'] + rest, acc) == Success((JArray(acc + [v]), SkipWs(rest)))
  {
    var a := Stringify(v);
    var close := [']'] + rest;
    assert close[1..] == rest;
    assert a + [']'] + rest == a + close;
    ParseItemsLast(a + close, acc, v, close);
  }

  /** Parsing a list of several elements reads the first and continues with the others. */
  lemma ItemsStep(items: seq<Json>, acc: seq<Json>, rest: string)
    requires |items| > 1
    requires ElementsRoundTrip(items)
    ensures ParseItems(StringifyItems(items) + [']'] + rest, acc)
         == ParseItems(StringifyItems(items[1..]) + [']'] + rest, acc + [items[0]])
    ensures ElementsRoundTrip(items[1..]) && acc + [items[0]] + items[1..] == acc + items
  {
    ElementsTail(items);
    assert acc + [items[0]] + items[1..] == acc + items;
    var more := StringifyItems(items[1..]) + [']'] + rest;
    var next := [','] + more;
    ItemsSplit(items, rest);
    assert RoundTrips(items[0], next);
    assert SkipWs(next) == next;
    assert next[1..] == more;
    ParseItemsNext(Stringify(items[0]) + next, acc, items[0], next);
  }

  /** Regrouping of concatenations, kept apart so that no function in it is unfolded. */
  lemma Regroup(a: string, b: string, c: string, rest: string)
    ensures a + [','] + b + c + rest == a + ([','] + (b + c + rest))
  {
  }

  lemma ItemsSplit(items: seq<Json>, rest: string)
    requires |items| > 1
    ensures StringifyItems(items) + [']'] + rest
         == Stringify(items[0]) + ([','] + (StringifyItems(items[1..]) + [']'] + rest))
  {
    var a := Stringify(items[0]);
    var b := StringifyItems(items[1..]);
    assert StringifyItems(items) == a + [','] + b;
    Regroup(a, b, [']'], rest);
  }

  lemma MembersSplit(members: seq<Member>, rest: string)
    requires |members| > 1
    ensures StringifyMembers(members) + ['}'] + rest
         == StringifyMember(members[0]) + ([','] + (StringifyMembers(members[1..]) + ['}'] + rest))
  {
    var a := StringifyMember(members[0]);
    var b := StringifyMembers(members[1..]);
    assert StringifyMembers(members) == a + [','] + b;
    Regroup(a, b, ['}'], rest);
  }

  lemma ElementsTail(items: seq<Json>)
    requires items != [] && ElementsRoundTrip(items)
    ensures ElementsRoundTrip(items[1..])
  {
    forall i, r | 0 <= i < |items[1..]|
      ensures RoundTrips(items[1..][i], r)
    {
      assert items[1..][i] == items[i + 1];
    }
  }

  lemma MemberValuesTail(members: seq<Member>)
    requires members != [] && MemberValuesRoundTrip(members)
    ensures MemberValuesRoundTrip(members[1..])
  {
    forall i, r | 0 <= i < |members[1..]|
      ensures RoundTrips(members[1..][i].value, r)
    {
      assert members[1..][i] == members[i + 1];
    }
  }

  lemma ParseMembersNext(s: string, acc: seq<Member>, key: string, colon: string, v: Json, rest: string)
    requires s != [] && s[0] == '"' && ParseStringBody(s[1..]) == Success((key, colon))
    requires colon != [] && colon[0] == ':' && ParseValue(colon[1..]) == Success((v, rest))
    requires rest != [] && rest[0] == ','
    ensures ParseMembers(s, acc) == ParseMembers(SkipWs(rest[1..]), acc + [Member(key, v)])
  {
    assert SkipWs(colon) == colon;
  }

  lemma ParseMembersLast(s: string, acc: seq<Member>, key: string, colon: string, v: Json, rest: string)
    requires s != [] && s[0] == '"' && ParseStringBody(s[1..]) == Success((key, colon))
    requires colon != [] && colon[0] == ':' && ParseValue(colon[1..]) == Success((v, rest))
    requires rest != [] && rest[0] == '}'
    ensures ParseMembers(s, acc) == Success((JObject(acc + [Member(key, v)]), SkipWs(rest[1..])))
  {
    assert SkipWs(colon) == colon;
  }

  lemma {:induction false} MembersRoundTrip(members: seq<Member>, acc: seq<Member>, rest: string)
    requires members != []
    requires MemberValuesRoundTrip(members)
    ensures ParseMembers(StringifyMembers(members) + ['}'] + rest, acc) == Success((JObject(acc + members), SkipWs(rest)))
    decreases members
  {
    if |members| == 1 {
      MembersOne(members, acc, rest);
    } else {
      MembersStep(members, acc, rest);
      MembersRoundTrip(members[1..], acc + [members[0]], rest);
    }
  }

  lemma MembersOne(members: seq<Member>, acc: seq<Member>, rest: string)
    requires |members| == 1
    requires MemberValuesRoundTrip(members)
    ensures ParseMembers(StringifyMembers(members) + ['}'] + rest, acc) == Success((JObject(acc + members), SkipWs(rest)))
  {
    var m := members[0];
    assert forall r :: RoundTrips(m.value, r);
    assert StringifyMembers(members) == StringifyMember(m);
    assert members == [m];
    MemberLast(m, acc, rest);
  }

  /** A last member parses back and closes the object. */
  lemma MemberLast(m: Member, acc: seq<Member>, rest: string)
    requires forall r :: RoundTrips(m.value, r)
    ensures ParseMembers(StringifyMember(m) + ['}'] + rest, acc) == Success((JObject(acc + [m]), SkipWs(rest)))
  {
    var a := StringifyMember(m);
    var close := ['}'] + rest;
    assert close[1..] == rest;
    assert a + ['}'] + rest == a + close;
    MemberRoundTrip(m, acc, close);
    ParseMembersLast(a + close, acc, m.key, [':'] + Stringify(m.value) + close, m.value, close);
  }

  /** Parsing several members reads the first and continues with the others. */
  lemma MembersStep(members: seq<Member>, acc: seq<Member>, rest: string)
    requires |members| > 1
    requires MemberValuesRoundTrip(members)
    ensures ParseMembers(StringifyMembers(members) + ['}'] + rest, acc)
         == ParseMembers(StringifyMembers(members[1..]) + ['}'] + rest, acc + [members[0]])
    ensures MemberValuesRoundTrip(members[1..]) && acc + [members[0]] + members[1..] == acc + members
  {
    MemberValuesTail(members);
    assert acc + [members[0]] + members[1..] == acc + members;
    var m := members[0];
    assert forall r :: RoundTrips(m.value, r);
    var more := StringifyMembers(members[1..]) + ['}'] + rest;
    var next := [','] + more;
    MembersSplit(members, rest);
    MemberRoundTrip(m, acc, next);
    ParseMembersNext(StringifyMember(m) + next, acc, m.key, [':'] + Stringify(m.value) + next, m.value, next);
    assert next[1..] == more;
    MembersStartWithQuote(members[1..]);
    assert SkipWs(more) == more;
  }

  /** One member parses back, leaving the parser at the `,` or `}` that follows it. */
  lemma MemberRoundTrip(m: Member, acc: seq<Member>, after: string)
    requires forall r :: RoundTrips(m.value, r)
    requires after != [] && (after[0] == ',' || after[0] == '}')
    ensures
      var s := StringifyMember(m) + after;
      var colon := [':'] + Stringify(m.value) + after;
      && s != [] && s[0] == '"'
      && ParseStringBody(s[1..]) == Success((m.key, colon))
      && colon[0] == ':' && ParseValue(colon[1..]) == Success((m.value, after))
  {
    var q := QuoteChars(m.key);
    var text := Stringify(m.value);
    assert StringifyMember(m) == ['"'] + q + ['"'] + [':'] + text;
    MemberText(q, text, after);
    QuoteParses(m.key, [':'] + text + after);
    assert RoundTrips(m.value, after);
    assert SkipWs(after) == after;
  }

  /** How the text of a member splits around the closing quote of its key. */
  lemma MemberText(q: string, text: string, after: string)
    ensures var s := ['"'] + q + ['"'] + [':'] + text + after;
      && s != [] && s[0] == '"'
      && s[1..] == q + ['"'] + ([':'] + text + after)
      && ([':'] + text + after)[1..] == text + after
  {
    var s := ['"'] + q + ['"'] + [':'] + text + after;
    assert s == ['"'] + (q + ['"'] + ([':'] + text + after));
  }

  /** `JSON.parse(JSON.stringify(v))` is `v` for every value without numbers. */
  lemma ParseStringify(v: Json)
    requires NoNumbers(v)
    ensures Parse(Stringify(v)) == Success(v)
  {
    ValueRoundTrip(v, []);
    assert Stringify(v) + [] == Stringify(v);
  }
}
