/** JSON text as the handlers produce it: `encoding/json`'s string escaping (with
    its default HTML-safe escaping, as of Go 1.22), the encoding of a TGN
    Location, and the hand-rolled quoting the transform uses inside `fmt.Sprintf`
    templates. A decoder for JSON string literals is the reference the encoders
    are checked against. */
module JsonText {
  import opened Wrappers
  import opened GoStrings
  import Tgn

  predicate IsControl(ch: char) {
    ch < ' '
  }

  /** A character `encoding/json` writes as a `\u` escape: a control character
      without a short form, an HTML-significant character, or a line/paragraph
      separator. */
  predicate NeedsUnicodeEscape(ch: char) {
    (IsControl(ch) && ch != '\U{0008}' && ch != '\U{000C}' && ch != '\n' && ch != '\r' && ch != '\t')
    || ch == '<' || ch == '>' || ch == '&' || ch == '\U{2028}' || ch == '\U{2029}'
  }

  function HexDigit(d: nat): (ch: char)
    requires d < 16
  {
    if d < 10 then ('0' as int + d) as char else ('a' as int + d - 10) as char
  }

  predicate IsHex(ch: char) {
    ('0' <= ch <= '9') || ('a' <= ch <= 'f') || ('A' <= ch <= 'F')
  }

  function HexValue(ch: char): (d: nat)
    requires IsHex(ch)
    ensures d < 16
  {
    if '0' <= ch <= '9' then ch as int - '0' as int
    else if 'a' <= ch <= 'f' then ch as int - 'a' as int + 10
    else ch as int - 'A' as int + 10
  }

  /** The value of four hex digits. */
  function Hex4Value(h: string): (v: nat)
    requires |h| == 4 && IsHex(h[0]) && IsHex(h[1]) && IsHex(h[2]) && IsHex(h[3])
    ensures v < 0x10000
  {
    HexValue(h[0]) * 4096 + HexValue(h[1]) * 256 + HexValue(h[2]) * 16 + HexValue(h[3])
  }

  /** `\uXXXX` with lower-case hex digits, for a code point of the Basic
      Multilingual Plane. */
  function UnicodeEscape(ch: char): (r: string)
    requires ch as int < 0x10000
    ensures |r| == 6 && r[0] == '\\' && r[1] == 'u'
  {
    var v := ch as int;
    "\\u" + [HexDigit(v / 4096), HexDigit(v / 256 % 16), HexDigit(v / 16 % 16), HexDigit(v % 16)]
  }

  /** How `encoding/json` writes one character inside a string literal. */
  function EscapeChar(ch: char): string
  {
    if ch == '"' then "\\\""
    else if ch == '\\' then "\\\\"
    else if ch == '\U{0008}' then "\\b"
    else if ch == '\U{000C}' then "\\f"
    else if ch == '\n' then "\\n"
    else if ch == '\r' then "\\r"
    else if ch == '\t' then "\\t"
    else if NeedsUnicodeEscape(ch) then UnicodeEscape(ch)
    else [ch]
  }

  /** Text with no raw control character, HTML-significant character or line
      separator. */
  predicate Clean(s: string) {
    forall k :: 0 <= k < |s| ==> !IsControl(s[k]) && !NeedsUnicodeEscape(s[k])
  }

  /** The body of the string literal `encoding/json` writes for `s`: nothing that
      needs escaping is left raw, and no character is dropped. */
  function Escape(s: string): (r: string)
    ensures Clean(r)
    ensures |r| >= |s|
  {
    if |s| == 0 then ""
    else
      var e := EscapeChar(s[0]);
      assert forall k :: 0 <= k < |e| ==> !IsControl(e[k]) && !NeedsUnicodeEscape(e[k]);
      e + Escape(s[1..])
  }

  /** The string literal `encoding/json` writes for `s`. */
  function Quote(s: string): string
  {
    "\"" + Escape(s) + "\""
  }

  // ---------------------------------------------------------------------------
  // Reading string literals back

  /** The character a two-character escape `\c` stands for. */
  function ShortEscape(c: char): Option<char>
  {
    if c == '"' then Some('"')
    else if c == '\\' then Some('\\')
    else if c == '/' then Some('/')
    else if c == 'b' then Some('\U{0008}')
    else if c == 'f' then Some('\U{000C}')
    else if c == 'n' then Some('\n')
    else if c == 'r' then Some('\r')
    else if c == 't' then Some('\t')
    else None
  }

  /** Reads one escape sequence (the text after the backslash): the character it
      stands for and how many characters it spans. Surrogate escapes are not
      accepted. */
  function ReadEscape(t: string): Option<(char, nat)>
  {
    if |t| == 0 then None
    else if t[0] == 'u' then
      if |t| < 5 || !(IsHex(t[1]) && IsHex(t[2]) && IsHex(t[3]) && IsHex(t[4])) then None
      else
        var v := Hex4Value(t[1..5]);
        if 0xD800 <= v < 0xE000 then None else Some((v as char, 5))
    else match ShortEscape(t[0])
      case None => None
      case Some(c) => Some((c, 1))
  }

  /** Reads the rest of a string literal whose opening quote has been consumed:
      the decoded value and the text after the closing quote. A raw control
      character, a bad escape or a missing closing quote is an error. */
  function ReadString(t: string): Option<(string, string)>
    decreases |t|
  {
    if |t| == 0 then None
    else if t[0] == '"' then Some(("", t[1..]))
    else if IsControl(t[0]) then None
    else if t[0] == '\\' then
      match ReadEscape(t[1..])
      case None => None
      case Some((c, n)) =>
        if 1 + n > |t| then None
        else match ReadString(t[1 + n..])
          case None => None
          case Some((v, rest)) => Some(([c] + v, rest))
    else
      match ReadString(t[1..])
      case None => None
      case Some((v, rest)) => Some(([t[0]] + v, rest))
  }

  // ---------------------------------------------------------------------------
  // Round trip

  lemma HexDigitValue(d: nat)
    requires d < 16
    ensures IsHex(HexDigit(d)) && HexValue(HexDigit(d)) == d
  {
  }

  /** Four base-16 digits of a number below 0x10000 add back up to it. */
  lemma HexDigitsSum(v: nat)
    requires v < 0x10000
    ensures v / 4096 < 16
    ensures (v / 4096) * 4096 + (v / 256 % 16) * 256 + (v / 16 % 16) * 16 + v % 16 == v
  {
    var a, b, c, d := v / 4096, v / 256 % 16, v / 16 % 16, v % 16;
    var q1 := v / 16;
    var q2 := q1 / 16;
    assert v == q1 * 16 + d;
    assert q2 == v / 256;
    assert q1 == q2 * 16 + c;
    assert q2 / 16 == a;
    assert q2 == a * 16 + b;
  }

  /** Decoding a `\u` escape written by `UnicodeEscape` gives the character back. */
  lemma UnicodeEscapeRead(ch: char, tail: string)
    requires ch as int < 0x10000 && !(0xD800 <= ch as int < 0xE000)
    ensures ReadEscape(UnicodeEscape(ch)[1..] + tail) == Some((ch, 5))
  {
    var v := ch as int;
    var h := [HexDigit(v / 4096), HexDigit(v / 256 % 16), HexDigit(v / 16 % 16), HexDigit(v % 16)];
    var t := UnicodeEscape(ch)[1..] + tail;
    HexDigitsSum(v);
    HexDigitValue(v / 4096);
    HexDigitValue(v / 256 % 16);
    HexDigitValue(v / 16 % 16);
    HexDigitValue(v % 16);
    assert t == "u" + h + tail;
    assert t[1..5] == h;
    assert Hex4Value(h) == v;
  }

  /** Reading past the escape of one character yields that character. */
  lemma EscapeCharRead(ch: char, tail: string)
    ensures ReadString(EscapeChar(ch) + tail) ==
      match ReadString(tail)
      case None => None
      case Some((v, rest)) => Some(([ch] + v, rest))
  {
    var e := EscapeChar(ch);
    var t := e + tail;
    if |e| == 1 {
      assert e == [ch];
      assert t[1..] == tail;
    } else if |e| == 2 {
      assert t[1..][1..] == tail;
      assert t[2..] == tail;
    } else {
      assert NeedsUnicodeEscape(ch) && e == UnicodeEscape(ch);
      assert t[1..] == UnicodeEscape(ch)[1..] + tail;
      UnicodeEscapeRead(ch, tail);
      assert t[6..] == tail;
    }
  }

  /** `ReadString` is the inverse of `Escape`: the literal `encoding/json` writes
      decodes to the value it was written from, and reading stops at its closing
      quote. */
  lemma {:induction false} ReadEscaped(v: string, rest: string)
    ensures ReadString(Escape(v) + "\"" + rest) == Some((v, rest))
    decreases |v|
  {
    if |v| == 0 {
      assert Escape(v) + "\"" + rest == "\"" + rest;
      assert ("\"" + rest)[1..] == rest;
    } else {
      var e, w := EscapeChar(v[0]), Escape(v[1..]) + "\"" + rest;
      assert Escape(v) == e + Escape(v[1..]);
      assert Escape(v) + "\"" + rest == e + w;
      EscapeCharRead(v[0], w);
      ReadEscaped(v[1..], rest);
      assert [v[0]] + v[1..] == v;
    }
  }

  /** Distinct strings are written as distinct literals. */
  lemma QuoteInjective(a: string, b: string)
    requires Quote(a) == Quote(b)
    ensures a == b
  {
    ReadEscaped(a, "");
    ReadEscaped(b, "");
    assert Quote(a)[1..] == Escape(a) + "\"" + "";
    assert Quote(b)[1..] == Escape(b) + "\"" + "";
  }

  // ---------------------------------------------------------------------------
  // tgn.Location as JSON

  /** One object member, `"key":"value"`. */
  function Member(key: string, v: string): string
  {
    "\"" + key + "\":" + Quote(v)
  }

  /** Members separated by commas, in the order given. */
  function WriteMembers(keys: seq<string>, vals: seq<string>): (r: string)
    requires |keys| == |vals|
    ensures (forall i :: 0 <= i < |keys| ==> Clean(keys[i])) ==> Clean(r)
  {
    if |keys| == 0 then ""
    else if |keys| == 1 then Member(keys[0], vals[0])
    else Member(keys[0], vals[0]) + "," + WriteMembers(keys[1..], vals[1..])
  }

  /** The member names of `tgn.Location`, in declaration order. */
  const LocationKeys: seq<string> := ["country", "state", "county", "city"]

  /** `json.Marshal` of a `tgn.Location`: its four members in declaration order.
      The result is one object, with every field value escaped, so it holds no
      raw line break. */
  function MarshalLocation(l: Tgn.Location): (r: string)
    ensures |r| >= 2 && r[0] == '{' && r[|r| - 1] == '}'
    ensures Clean(r)
  {
    LocationKeysClean();
    var w := WriteMembers(LocationKeys, [l.country, l.state, l.county, l.city]);
    assert Clean("{") && Clean("}");
    "{" + w + "}"
  }

  /** The member names need no escaping. */
  lemma LocationKeysClean()
    ensures forall i :: 0 <= i < |LocationKeys| ==> Clean(LocationKeys[i])
  {
    assert Clean("country");
    assert Clean("state");
    assert Clean("county");
    assert Clean("city");
  }

  /** Reads `key` (with its quotes, the colon and the opening quote of the value)
      and then the value's string literal. */
  function ReadMember(key: string, t: string): Option<(string, string)>
  {
    var lead := "\"" + key + "\":\"";
    if lead <= t then ReadString(t[|lead|..]) else None
  }

  /** A member is read from just after its quoted key, colon and opening quote. */
  lemma ReadMemberLead(key: string, tail: string)
    ensures ReadMember(key, "\"" + key + "\":\"" + tail) == ReadString(tail)
  {
    var lead := "\"" + key + "\":\"";
    assert (lead + tail)[|lead|..] == tail;
  }

  /** The `value` member in particular, as the value templates lay it out. */
  lemma ReadValueLead(tail: string)
    ensures ReadMember("value", "\"value\":\"" + tail) == ReadString(tail)
  {
    assert "\"" + "value" + "\":\"" + tail == "\"value\":\"" + tail;
    ReadMemberLead("value", tail);
  }

  /** Reads the members named `keys`, in that order and separated by commas. */
  function ReadMembers(keys: seq<string>, t: string): (r: Option<(seq<string>, string)>)
    ensures r.Some? ==> |r.value.0| == |keys|
    decreases |keys|
  {
    if |keys| == 0 then Some(([], t))
    else match ReadMember(keys[0], t)
      case None => None
      case Some((v, rest)) =>
        if |keys| == 1 then Some(([v], rest))
        else if |rest| == 0 || rest[0] != ',' then None
        else match ReadMembers(keys[1..], rest[1..])
          case None => None
          case Some((vs, tail)) => Some(([v] + vs, tail))
  }

  /** Reads back the object `MarshalLocation` writes. */
  function ParseLocation(t: string): Option<Tgn.Location>
  {
    if |t| == 0 || t[0] != '{' then None
    else match ReadMembers(LocationKeys, t[1..])
      case None => None
      case Some((vs, rest)) =>
        if rest != "}" then None else Some(Tgn.Location(vs[0], vs[1], vs[2], vs[3]))
  }

  lemma ReadMemberOf(key: string, v: string, rest: string)
    ensures ReadMember(key, Member(key, v) + rest) == Some((v, rest))
  {
    var lead := "\"" + key + "\":\"";
    var t := Member(key, v) + rest;
    assert t == lead + (Escape(v) + "\"" + rest);
    assert t[|lead|..] == Escape(v) + "\"" + rest;
    ReadEscaped(v, rest);
  }

  /** One step of reading a member list: a member, a comma, and the rest of the list. */
  lemma ReadMembersStep(keys: seq<string>, v: string, after: string, vs: seq<string>, rest: string)
    requires |keys| > 1
    requires |after| > 0 && after[0] == ','
    requires ReadMembers(keys[1..], after[1..]) == Some((vs, rest))
    ensures ReadMembers(keys, Member(keys[0], v) + after) == Some(([v] + vs, rest))
  {
    ReadMemberOf(keys[0], v, after);
  }

  /** A written member list reads back as the values it was written from. */
  lemma {:induction false} ReadWrittenMembers(keys: seq<string>, vals: seq<string>, rest: string)
    requires |keys| == |vals|
    ensures ReadMembers(keys, WriteMembers(keys, vals) + rest) == Some((vals, rest))
    decreases |keys|
  {
    if |keys| == 0 {
      assert WriteMembers(keys, vals) + rest == rest;
    } else if |keys| == 1 {
      ReadMemberOf(keys[0], vals[0], rest);
      assert [vals[0]] == vals;
    } else {
      var after := "," + WriteMembers(keys[1..], vals[1..]) + rest;
      WriteMembersCons(keys, vals, rest);
      ReadWrittenMembers(keys[1..], vals[1..], rest);
      ReadMembersStep(keys, vals[0], after, vals[1..], rest);
      assert [vals[0]] + vals[1..] == vals;
    }
  }

  lemma WriteMembersCons(keys: seq<string>, vals: seq<string>, rest: string)
    requires |keys| == |vals| > 1
    ensures var after := "," + WriteMembers(keys[1..], vals[1..]) + rest;
      && WriteMembers(keys, vals) + rest == Member(keys[0], vals[0]) + after
      && after[1..] == WriteMembers(keys[1..], vals[1..]) + rest
  {
    assert WriteMembers(keys, vals) == Member(keys[0], vals[0]) + "," + WriteMembers(keys[1..], vals[1..]);
    CommaLayout(Member(keys[0], vals[0]), WriteMembers(keys[1..], vals[1..]), rest);
  }

  lemma CommaLayout(m: string, w: string, rest: string)
    ensures m + "," + w + rest == m + ("," + w + rest)
    ensures ("," + w + rest)[1..] == w + rest
  {
  }

  /** The encoded location reads back as the same location. */
  lemma ParseMarshalLocation(l: Tgn.Location)
    ensures ParseLocation(MarshalLocation(l)) == Some(l)
  {
    var vals := [l.country, l.state, l.county, l.city];
    var w := WriteMembers(LocationKeys, vals);
    BracedInner(w);
    ReadWrittenMembers(LocationKeys, vals, "}");
    var vs := ReadMembers(LocationKeys, w + "}").value.0;
    assert vs == vals;
    assert Tgn.Location(vs[0], vs[1], vs[2], vs[3]) == l;
  }

  lemma BracedInner(w: string)
    ensures var t := "{" + w + "}"; |t| > 0 && t[0] == '{' && t[1..] == w + "}"
  {
  }

  /** Distinct locations are encoded as distinct texts. */
  lemma MarshalLocationInjective(a: Tgn.Location, b: Tgn.Location)
    requires MarshalLocation(a) == MarshalLocation(b)
    ensures a == b
  {
    ParseMarshalLocation(a);
    ParseMarshalLocation(b);
  }

  // ---------------------------------------------------------------------------
  // The transform's hand-rolled quoting

  /** Backslashes doubled first, then quotes escaped, by two `strings.ReplaceAll`. */
  function SlashQuoteEscape(s: string): string
  {
    ReplaceAll(ReplaceAll(s, "\\", "\\\\"), "\"", "\\\"")
  }

  /** The same substitution, one character at a time. */
  function SlashQuoteChar(ch: char): string
  {
    if ch == '\\' then "\\\\" else if ch == '"' then "\\\"" else [ch]
  }

  function SlashQuoteEach(s: string): string
  {
    if |s| == 0 then "" else SlashQuoteChar(s[0]) + SlashQuoteEach(s[1..])
  }

  lemma {:induction false} MapQuoteAfterSlash(s: string)
    ensures MapChar(MapChar(s, '\\', "\\\\"), '"', "\\\"") == SlashQuoteEach(s)
    decreases |s|
  {
    if |s| > 0 {
      var head := if s[0] == '\\' then "\\\\" else [s[0]];
      assert MapChar(s, '\\', "\\\\") == head + MapChar(s[1..], '\\', "\\\\");
      MapCharAppend(head, MapChar(s[1..], '\\', "\\\\"), '"', "\\\"");
      MapQuoteAfterSlash(s[1..]);
      if s[0] == '\\' {
        assert MapChar(head, '"', "\\\"") == "\\\\";
      } else if s[0] == '"' {
        assert MapChar(head, '"', "\\\"") == "\\\"";
      } else {
        assert MapChar(head, '"', "\\\"") == [s[0]];
      }
    }
  }

  /** The two passes never interfere: a backslash written by the first pass is
      not touched by the second, so every character is rewritten independently. */
  lemma SlashQuoteIsPerChar(s: string)
    ensures SlashQuoteEscape(s) == SlashQuoteEach(s)
  {
    assert "\\" == ['\\'];
    assert "\"" == ['"'];
    MapQuoteAfterSlash(s);
  }

  /** Without control characters the hand-rolled quoting is read back exactly. */
  lemma {:induction false} ReadSlashQuoted(s: string, rest: string)
    requires forall k :: 0 <= k < |s| ==> !IsControl(s[k])
    ensures ReadString(SlashQuoteEach(s) + "\"" + rest) == Some((s, rest))
    decreases |s|
  {
    var t := SlashQuoteEach(s) + "\"" + rest;
    if |s| == 0 {
      assert t == "\"" + rest;
      assert t[1..] == rest;
    } else {
      var tail := SlashQuoteEach(s[1..]) + "\"" + rest;
      ReadSlashQuoted(s[1..], rest);
      assert t == SlashQuoteChar(s[0]) + tail;
      if s[0] == '\\' || s[0] == '"' {
        assert t[2..] == tail;
      } else {
        assert t[1..] == tail;
      }
      assert [s[0]] + s[1..] == s;
    }
  }

  /** A control character in the value (a line break inside a quoted CSV cell,
      say) is copied raw into the literal, which no JSON reader accepts. */
  lemma SlashQuoteKeepsLineBreak(rest: string)
    ensures SlashQuoteEscape("\n") == "\n"
    ensures ReadString(SlashQuoteEscape("\n") + "\"" + rest) == None
  {
    SlashQuoteIsPerChar("\n");
  }
}
