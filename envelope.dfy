/**
 * The chat message envelope: the four-field record both roles write,
 * its text form, the character codes put on the socket, and the way a
 * receiver turns the bytes it reads back into text and fields.
 */
module Envelope {
  import opened Wrappers
  import opened Json
  import JsonLaws
  import Uri

  /** The record `{name, text, ping, bye}` that is serialised for every frame. */
  datatype Envelope = Envelope(name: string, text: string, ping: bool, bye: bool)

  /** The record of `sendMessage`: both strings percent-encoded, no flag set. */
  function MessageEnvelope(name: string, message: string): Envelope {
    Envelope(Uri.EncodeURIComponent(name), Uri.EncodeURIComponent(message), false, false)
  }

  /** The record of `sendBye`: an encoded name, an empty text and only `bye` set. */
  function ByeEnvelope(name: string): Envelope {
    Envelope(Uri.EncodeURIComponent(name), "", false, true)
  }

  /** The object literal, with its keys in the order they were written. */
  function ToJson(e: Envelope): Json {
    JObject([Member("name", JString(e.name)), Member("text", JString(e.text)),
             Member("ping", JBool(e.ping)), Member("bye", JBool(e.bye))])
  }

  /** `JSON.stringify` of the record. */
  function Serialize(e: Envelope): string {
    Stringify(ToJson(e))
  }

  // ------------------------------------------------------------ code units

  /** The UTF-16 code units of `s`, which is what a script string is made of. */
  function Utf16(s: string): (r: seq<int>)
    ensures |r| >= |s|
    ensures forall i :: 0 <= i < |r| ==> 0 <= r[i] < 0x10000
  {
    if s == [] then []
    else
      var cp := s[0] as int;
      if cp < 0x10000 then [cp] + Utf16(s[1..])
      else [0xD800 + (cp - 0x10000) / 0x400, 0xDC00 + (cp - 0x10000) % 0x400] + Utf16(s[1..])
  }

  predicate IsAscii(s: string) {
    forall i :: 0 <= i < |s| ==> (s[i] as int) < 128
  }

  /**
   * The loop of `sendMessage` and `sendBye`: entry `i` of the array is
   * `charCodeAt(i)` of the serialised string, for every index below its length.
   */
  method CharCodes(s: string) returns (codes: seq<int>)
    ensures codes == Utf16(s)
  {
    var units := Utf16(s);
    var a := new int[|units|];
    for i := 0 to |units|
      invariant forall k :: 0 <= k < i ==> a[k] == units[k]
    {
      a[i] := units[i];
    }
    codes := a[..];
  }

  lemma {:induction false} AsciiUnits(s: string)
    requires IsAscii(s)
    ensures |Utf16(s)| == |s|
    ensures forall i :: 0 <= i < |s| ==> Utf16(s)[i] == s[i] as int
  {
    if s != [] {
      assert IsAscii(s[1..]) by {
        forall i | 0 <= i < |s[1..]| ensures (s[1..][i] as int) < 128 {
          assert s[1..][i] == s[i + 1];
        }
      }
      AsciiUnits(s[1..]);
      assert (s[0] as int) < 128;
    }
  }

  // -------------------------------------------------------------- transport

  /** A Web IDL `byte`: what `writeData` takes and `readData` gives. */
  type int8 = x: int | -128 <= x < 128

  /** The Web IDL conversion of a number to `byte`: its value modulo 2^8, signed. */
  function ToInt8(x: int): (r: int8)
    ensures (r - x) % 256 == 0
    ensures 0 <= x < 128 ==> r == x
  {
    var m := x % 256;
    if m >= 128 then m - 256 else m
  }

  /** The bytes the socket carries for an array of character codes. */
  function WireBytes(codes: seq<int>): (r: seq<int8>)
    ensures |r| == |codes|
    ensures forall i :: 0 <= i < |r| ==> r[i] == ToInt8(codes[i])
  {
    if codes == [] then [] else [ToInt8(codes[0])] + WireBytes(codes[1..])
  }

  /** `String.fromCharCode(b)`: the code unit `b` modulo 2^16. */
  function FromCharCode(b: int8): (c: char)
    ensures 0 <= b ==> c as int == b
    ensures b < 0 ==> c as int == b + 0x10000
  {
    if b >= 0 then b as char else (b + 0x10000) as char
  }

  /** The text a receiver builds from the bytes it reads, one character per byte. */
  function FromCharCodes(data: seq<int8>): (s: string)
    ensures |s| == |data|
    ensures forall i :: 0 <= i < |s| ==> s[i] == FromCharCode(data[i])
  {
    if data == [] then [] else [FromCharCode(data[0])] + FromCharCodes(data[1..])
  }

  /** The receiving loop: `recvmsg += String.fromCharCode(data[i])` for each byte in order. */
  method ReadFrame(data: seq<int8>) returns (frame: string)
    ensures frame == FromCharCodes(data)
  {
    frame := "";
    for i := 0 to |data|
      invariant |frame| == i
      invariant forall k :: 0 <= k < i ==> frame[k] == FromCharCode(data[k])
    {
      frame := frame + [FromCharCode(data[i])];
    }
  }

  /** Text made of characters below 128 arrives exactly as it was written. */
  lemma WireAscii(s: string)
    requires IsAscii(s)
    ensures FromCharCodes(WireBytes(Utf16(s))) == s
  {
    AsciiUnits(s);
    var got := FromCharCodes(WireBytes(Utf16(s)));
    forall i | 0 <= i < |s| ensures got[i] == s[i] {
      assert WireBytes(Utf16(s))[i] == s[i] as int;
    }
  }

  /** A character code of 128 or more does not survive the signed byte: `é` arrives as U+FFE9. */
  lemma WireCorruptsNonAscii()
    ensures Utf16("é") == [0xE9]
    ensures FromCharCodes(WireBytes(Utf16("é"))) == "￩"
  {
    assert Utf16("é") == [0xE9] + Utf16([]);
    assert WireBytes([0xE9]) == [-23];
    assert FromCharCodes([-23]) == [FromCharCode(-23)];
  }

  // ---------------------------------------------------------- text of a record

  function BoolText(b: bool): string {
    if b then "true" else "false"
  }

  /** A character `JSON.stringify` writes as itself inside a string. */
  predicate Plain(c: char) {
    c as int >= 0x20 && c != '"' && c != '\\'
  }

  lemma {:induction false} QuotePlain(s: string)
    requires forall i :: 0 <= i < |s| ==> Plain(s[i])
    ensures QuoteChars(s) == s
  {
    if s != [] {
      assert Plain(s[0]);
      assert forall i :: 0 <= i < |s[1..]| ==> Plain(s[1..][i]) by {
        forall i | 0 <= i < |s[1..]| ensures Plain(s[1..][i]) {
          assert s[1..][i] == s[i + 1];
        }
      }
      QuotePlain(s[1..]);
      assert [s[0]] + s[1..] == s;
    }
  }

  lemma StringifyFour(m: seq<Member>)
    requires |m| == 4
    ensures StringifyMembers(m)
         == StringifyMember(m[0]) + "," + (StringifyMember(m[1]) + "," + (StringifyMember(m[2]) + "," + StringifyMember(m[3])))
  {
    var a, b, c, d := StringifyMember(m[0]), StringifyMember(m[1]), StringifyMember(m[2]), StringifyMember(m[3]);
    assert m[3..] == [m[3]];
    assert StringifyMembers(m[3..]) == d;
    assert m[2..][1..] == m[3..];
    assert StringifyMembers(m[2..]) == c + "," + d;
    assert m[1..][1..] == m[2..];
    assert StringifyMembers(m[1..]) == b + "," + (c + "," + d);
    assert StringifyMembers(m) == a + "," + (b + "," + (c + "," + d));
  }

  /** A text that needs no escape: every character is below 128 and written as itself. */
  predicate PlainAscii(s: string) {
    forall i :: 0 <= i < |s| ==> Plain(s[i]) && (s[i] as int) < 128
  }

  lemma AsciiConcat(a: string, b: string)
    requires IsAscii(a) && IsAscii(b)
    ensures IsAscii(a + b)
  {
    forall i | 0 <= i < |a + b| ensures ((a + b)[i] as int) < 128 {
      if i >= |a| { assert (a + b)[i] == b[i - |a|]; }
    }
  }

  lemma MemberAscii(key: string, v: Json)
    requires PlainAscii(key) && IsAscii(Stringify(v))
    ensures IsAscii(StringifyMember(Member(key, v)))
  {
    QuotePlain(key);
    AsciiConcat(['"'], key);
    AsciiConcat(['"'] + key, ['"']);
    AsciiConcat(Quote(key), [':']);
    AsciiConcat(Quote(key) + [':'], Stringify(v));
  }

  lemma StringAscii(s: string)
    requires PlainAscii(s)
    ensures IsAscii(Stringify(JString(s)))
  {
    QuotePlain(s);
    AsciiConcat(['"'], s);
    AsciiConcat(['"'] + s, ['"']);
  }

  lemma JoinAscii(a: string, b: string, c: string, d: string)
    requires IsAscii(a) && IsAscii(b) && IsAscii(c) && IsAscii(d)
    ensures IsAscii(a + "," + (b + "," + (c + "," + d)))
  {
    AsciiConcat(c, ",");
    AsciiConcat(c + ",", d);
    AsciiConcat(b, ",");
    AsciiConcat(b + ",", c + "," + d);
    AsciiConcat(a, ",");
    AsciiConcat(a + ",", b + "," + (c + "," + d));
  }

  lemma ObjectAscii(m: seq<Member>)
    requires |m| == 4
    requires IsAscii(StringifyMember(m[0])) && IsAscii(StringifyMember(m[1]))
    requires IsAscii(StringifyMember(m[2])) && IsAscii(StringifyMember(m[3]))
    ensures IsAscii(Stringify(JObject(m)))
  {
    StringifyFour(m);
    JoinAscii(StringifyMember(m[0]), StringifyMember(m[1]), StringifyMember(m[2]), StringifyMember(m[3]));
    AsciiConcat(['{'], StringifyMembers(m));
    AsciiConcat(['{'] + StringifyMembers(m), ['}']);
  }

  lemma KeysPlain()
    ensures PlainAscii("name") && PlainAscii("text") && PlainAscii("ping") && PlainAscii("bye")
  {
  }

  lemma BoolAscii(b: bool)
    ensures IsAscii(Stringify(JBool(b)))
  {
  }

  /** A record whose two strings need no escape is written in characters below 128 only. */
  lemma SerializeAscii(e: Envelope)
    requires PlainAscii(e.name) && PlainAscii(e.text)
    ensures IsAscii(Serialize(e))
  {
    StringAscii(e.name);
    StringAscii(e.text);
    KeysPlain();
    BoolAscii(e.ping);
    BoolAscii(e.bye);
    MemberAscii("name", JString(e.name));
    MemberAscii("text", JString(e.text));
    MemberAscii("ping", JBool(e.ping));
    MemberAscii("bye", JBool(e.bye));
    ObjectAscii(ToJson(e).members);
  }

  /** Percent-encoding leaves only unreserved characters and `%`, none of which needs an escape. */
  lemma EncodedPlain(s: string)
    ensures PlainAscii(Uri.EncodeURIComponent(s))
  {
  }

  // ------------------------------------------------------------- receiving

  /** The four properties a receiver reads from a parsed frame; `None` is `undefined`. */
  datatype Fields = Fields(name: Option<Json>, text: Option<Json>, ping: Option<Json>, bye: Option<Json>)

  /**
   * `JSON.parse(frame)` followed by reading `name`, `text`, `ping` and `bye`:
   * a frame that is not JSON throws a SyntaxError, and one that is `null`
   * throws a TypeError at the first property access.
   */
  function ReadFields(frame: string): (r: Result<Fields, JsonError>)
    ensures Parse(frame).Failure? ==> r == Failure(SyntaxError)
    ensures Parse(frame) == Success(JNull) ==> r == Failure(TypeError)
    ensures r.Success? <==> Parse(frame).Success? && !Parse(frame).value.JNull?
    ensures Parse(frame).Success? && Parse(frame).value.JObject? ==>
      var members := Parse(frame).value.members;
      r == Success(Fields(LastValue(members, "name"), LastValue(members, "text"),
                          LastValue(members, "ping"), LastValue(members, "bye")))
    ensures Parse(frame).Success? && !Parse(frame).value.JObject? && !Parse(frame).value.JNull? ==>
      r == Success(Fields(None, None, None, None))
  {
    match Parse(frame)
    case Failure(_) => Failure(SyntaxError)
    case Success(v) =>
      match Get(v, "name")
      case Failure(e) => Failure(e)
      case Success(n) => Success(Fields(n, Get(v, "text").value, Get(v, "ping").value, Get(v, "bye").value))
  }

  /** The frame bytes written for a record. */
  function Frame(e: Envelope): seq<int> {
    Utf16(Serialize(e))
  }

  lemma ParseSerialize(e: Envelope)
    ensures Parse(Serialize(e)) == Success(ToJson(e))
  {
    var v := ToJson(e);
    assert JsonLaws.NoNumbers(v) by {
      forall i | 0 <= i < |v.members| ensures JsonLaws.MemberNoNumbers(v.members[i]) {
        assert JsonLaws.NoNumbers(v.members[i].value);
      }
    }
    JsonLaws.ParseStringify(v);
  }

  lemma RecordFields(e: Envelope)
    ensures LastValue(ToJson(e).members, "name") == Some(JString(e.name))
    ensures LastValue(ToJson(e).members, "text") == Some(JString(e.text))
    ensures LastValue(ToJson(e).members, "ping") == Some(JBool(e.ping))
    ensures LastValue(ToJson(e).members, "bye") == Some(JBool(e.bye))
  {
    var m := ToJson(e).members;
    var m3, m2, m1 := m[..3], m[..2], m[..1];
    assert m3[..2] == m2 && m2[..1] == m1;
    assert "bye"[0] != "name"[0] && "bye"[0] != "text"[0] && "bye"[0] != "ping"[0];
    assert "ping"[0] != "name"[0] && "ping"[0] != "text"[0];
    assert "text"[0] != "name"[0];
    assert LastValue(m, "name") == LastValue(m3, "name") == LastValue(m2, "name") == LastValue(m1, "name");
    assert LastValue(m, "text") == LastValue(m3, "text") == LastValue(m2, "text");
    assert LastValue(m, "ping") == LastValue(m3, "ping");
  }

  /**
   * A record whose strings need no escape survives the whole path: the
   * character codes, the signed bytes, one character per byte, `JSON.parse`
   * and the four property reads give back its four fields.
   */
  lemma FieldsRoundTrip(e: Envelope)
    requires PlainAscii(e.name) && PlainAscii(e.text)
    ensures ReadFields(FromCharCodes(WireBytes(Frame(e))))
         == Success(Fields(Some(JString(e.name)), Some(JString(e.text)), Some(JBool(e.ping)), Some(JBool(e.bye))))
  {
    SerializeAscii(e);
    WireAscii(Serialize(e));
    ParseSerialize(e);
    RecordFields(e);
  }

  /** What `sendMessage` writes reaches the peer as the encoded name and message, with no flag set. */
  lemma MessageDelivered(name: string, message: string)
    ensures var e := MessageEnvelope(name, message);
      && ReadFields(FromCharCodes(WireBytes(Frame(e))))
         == Success(Fields(Some(JString(e.name)), Some(JString(e.text)), Some(JBool(false)), Some(JBool(false))))
      && Uri.DecodeURIComponent(e.name) == Success(name)
      && Uri.DecodeURIComponent(e.text) == Success(message)
  {
    var e := MessageEnvelope(name, message);
    EncodedPlain(name);
    EncodedPlain(message);
    FieldsRoundTrip(e);
    Uri.DecodeEncode(name);
    Uri.DecodeEncode(message);
  }

  /** What `sendBye` writes reaches the peer as the encoded name, an empty text and `bye` set. */
  lemma ByeDelivered(name: string)
    ensures var e := ByeEnvelope(name);
      && ReadFields(FromCharCodes(WireBytes(Frame(e))))
         == Success(Fields(Some(JString(e.name)), Some(JString("")), Some(JBool(false)), Some(JBool(true))))
      && Uri.DecodeURIComponent(e.name) == Success(name)
  {
    var e := ByeEnvelope(name);
    EncodedPlain(name);
    FieldsRoundTrip(e);
    Uri.DecodeEncode(name);
  }

  /** Neither record sets both flags, and the two are told apart by `bye`. */
  lemma AtMostOneFlag(name: string, message: string)
    ensures !(MessageEnvelope(name, message).ping && MessageEnvelope(name, message).bye)
    ensures !(ByeEnvelope(name).ping && ByeEnvelope(name).bye)
    ensures MessageEnvelope(name, message) != ByeEnvelope(name)
  {
  }

  /** The frame has exactly one code per character of the serialised record, each below 128. */
  lemma FrameCodes(name: string, message: string)
    ensures var s := Serialize(MessageEnvelope(name, message));
      && |Frame(MessageEnvelope(name, message))| == |s|
      && forall i :: 0 <= i < |s| ==> Frame(MessageEnvelope(name, message))[i] == s[i] as int < 128
  {
    var e := MessageEnvelope(name, message);
    EncodedPlain(name);
    EncodedPlain(message);
    SerializeAscii(e);
    AsciiUnits(Serialize(e));
  }
}
