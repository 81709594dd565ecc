/** `JSON.stringify` of a flat object whose properties are strings or
    `undefined`, and a decoder for the text it produces. */
module Json {
  import opened Wrappers
  import opened Strings

  /** One own property of the object, in insertion order; `None` is `undefined`. */
  datatype Property = Property(key: string, value: Option<string>)

  function HexDigit(n: nat): (c: char)
    requires n < 16
  {
    if n < 10 then ('0' as int + n) as char else ('a' as int + n - 10) as char
  }

  function HexValue(c: char): Option<nat> {
    if '0' <= c <= '9' then Some(c as int - '0' as int)
    else if 'a' <= c <= 'f' then Some(c as int - 'a' as int + 10)
    else if 'A' <= c <= 'F' then Some(c as int - 'A' as int + 10)
    else None
  }

  /** The escape `JSON.stringify` writes for one character of a string. */
  function EscapeChar(c: char): string {
    if c == '"' then "\\\""
    else if c == '\\' then "\\\\"
    else if c == '\U{8}' then "\\b"
    else if c == '\U{C}' then "\\f"
    else if c == '\n' then "\\n"
    else if c == '\r' then "\\r"
    else if c == '\t' then "\\t"
    else if c < ' ' then "\\u00" + [HexDigit(c as int / 16), HexDigit(c as int % 16)]
    else [c]
  }

  function Escape(s: string): string {
    if s == [] then "" else EscapeChar(s[0]) + Escape(s[1..])
  }

  /** A JSON string literal. */
  function Quote(s: string): string {
    "\"" + Escape(s) + "\""
  }

  /** The properties whose value is defined, as key/value pairs. */
  function Defined(props: seq<Property>): (r: seq<(string, string)>)
    ensures |r| <= |props|
  {
    if props == [] then []
    else if props[0].value.None? then Defined(props[1..])
    else [(props[0].key, props[0].value.value)] + Defined(props[1..])
  }

  function MemberText(kv: (string, string)): string {
    Quote(kv.0) + ":" + Quote(kv.1)
  }

  function MemberTexts(kvs: seq<(string, string)>): (r: seq<string>)
    ensures |r| == |kvs|
  {
    if kvs == [] then [] else [MemberText(kvs[0])] + MemberTexts(kvs[1..])
  }

  /** `JSON.stringify(obj)`: properties holding `undefined` are left out;
      the text is `{}` exactly when no value is defined. */
  function Stringify(props: seq<Property>): (r: string)
    ensures |r| >= 2 && r[0] == '{' && r[|r| - 1] == '}'
    ensures r == "{}" <==> Defined(props) == []
  {
    var members := MemberTexts(Defined(props));
    assert |members| >= 1 ==> |members[0]| >= 1 && |Join(members, ",")| >= |members[0]|;
    "{" + Join(members, ",") + "}"
  }

  function Prepend(c: char, r: Option<(string, string)>): Option<(string, string)> {
    if r.None? then None else Some(([c] + r.value.0, r.value.1))
  }

  /** Decodes the body of a string literal, `s` starting just after its
      opening quote; yields the value and the text after the closing quote. */
  function DecodeString(s: string): (r: Option<(string, string)>)
    ensures r.Some? ==> |r.value.1| < |s|
    decreases |s|
  {
    if |s| == 0 then None
    else if s[0] == '"' then Some(("", s[1..]))
    else if s[0] == '\\' then
      if |s| < 2 then None
      else if s[1] == '"' || s[1] == '\\' || s[1] == '/' then Prepend(s[1], DecodeString(s[2..]))
      else if s[1] == 'b' then Prepend('\U{8}', DecodeString(s[2..]))
      else if s[1] == 'f' then Prepend('\U{C}', DecodeString(s[2..]))
      else if s[1] == 'n' then Prepend('\n', DecodeString(s[2..]))
      else if s[1] == 'r' then Prepend('\r', DecodeString(s[2..]))
      else if s[1] == 't' then Prepend('\t', DecodeString(s[2..]))
      else if s[1] == 'u' && |s| >= 6 then
        var h0, h1, h2, h3 := HexValue(s[2]), HexValue(s[3]), HexValue(s[4]), HexValue(s[5]);
        if h0.None? || h1.None? || h2.None? || h3.None? then None
        else
          var code := 4096 * h0.value + 256 * h1.value + 16 * h2.value + h3.value;
          if 0xD800 <= code < 0xE000 then None
          else Prepend(code as char, DecodeString(s[6..]))
      else None
    else if s[0] < ' ' then None
    else Prepend(s[0], DecodeString(s[1..]))
  }

  /** Decodes one `"key":"value"` member; yields the pair and the text after it. */
  function DecodeMember(s: string): (r: Option<((string, string), string)>)
    ensures r.Some? ==> |r.value.1| < |s|
  {
    if |s| == 0 || s[0] != '"' then None
    else
      var key := DecodeString(s[1..]);
      if key.None? then None
      else
        var afterKey := key.value.1;
        if |afterKey| < 2 || afterKey[0] != ':' || afterKey[1] != '"' then None
        else
          var value := DecodeString(afterKey[2..]);
          if value.None? then None
          else Some(((key.value.0, value.value.0), value.value.1))
  }

  /** Decodes members separated by commas up to the closing brace, which must
      end the text. */
  function DecodeMembers(s: string): (r: Option<seq<(string, string)>>)
    decreases |s|
  {
    var member := DecodeMember(s);
    if member.None? then None
    else
      var rest := member.value.1;
      if rest == "}" then Some([member.value.0])
      else if |rest| > 0 && rest[0] == ',' then
        var more := DecodeMembers(rest[1..]);
        if more.None? then None else Some([member.value.0] + more.value)
      else None
  }

  /** Decodes a flat object of string values, such as `Stringify` writes. */
  function DecodeObject(s: string): Option<seq<(string, string)>> {
    if s == "{}" then Some([])
    else if |s| < 2 || s[0] != '{' then None
    else DecodeMembers(s[1..])
  }

  lemma HexDigitValue(n: nat)
    requires n < 16
    ensures HexValue(HexDigit(n)) == Some(n)
  {
  }

  /** Decoding the escape of one character gives that character back. */
  lemma DecodeEscapeChar(c: char, t: string)
    ensures DecodeString(EscapeChar(c) + t) == Prepend(c, DecodeString(t))
  {
    if c == '"' || c == '\\' || c == '\U{8}' || c == '\U{C}' {
      DecodeQuoteEscape(c, t);
    } else if c == '\n' || c == '\r' || c == '\t' {
      DecodeSpaceEscape(c, t);
    } else if c < ' ' {
      DecodeUnicodeEscape(c, t);
    } else {
      assert (EscapeChar(c) + t)[1..] == t;
    }
  }

  lemma DecodeQuoteEscape(c: char, t: string)
    requires c == '"' || c == '\\' || c == '\U{8}' || c == '\U{C}'
    ensures DecodeString(EscapeChar(c) + t) == Prepend(c, DecodeString(t))
  {
    assert (EscapeChar(c) + t)[2..] == t;
  }

  lemma DecodeSpaceEscape(c: char, t: string)
    requires c == '\n' || c == '\r' || c == '\t'
    ensures DecodeString(EscapeChar(c) + t) == Prepend(c, DecodeString(t))
  {
    assert (EscapeChar(c) + t)[2..] == t;
  }

  lemma DecodeUnicodeEscape(c: char, t: string)
    requires c < ' ' && c != '\U{8}' && c != '\U{C}' && c != '\n' && c != '\r' && c != '\t'
    ensures DecodeString(EscapeChar(c) + t) == Prepend(c, DecodeString(t))
  {
    var e := EscapeChar(c);
    var n := c as int;
    HexDigitValue(n / 16);
    HexDigitValue(n % 16);
    assert (e + t)[6..] == t;
    assert (e + t)[2] == '0' && (e + t)[3] == '0';
    assert (e + t)[4] == HexDigit(n / 16) && (e + t)[5] == HexDigit(n % 16);
    assert 4096 * 0 + 256 * 0 + 16 * (n / 16) + n % 16 == n;
  }

  /** A string literal decodes to the string it quotes, leaving what follows. */
  lemma {:induction false} DecodeEscaped(x: string, rest: string)
    ensures DecodeString(Escape(x) + "\"" + rest) == Some((x, rest))
  {
    if x == [] {
      assert Escape(x) + "\"" + rest == "\"" + rest;
      assert ("\"" + rest)[1..] == rest;
    } else {
      DecodeEscaped(x[1..], rest);
      assert Escape(x) + "\"" + rest == EscapeChar(x[0]) + (Escape(x[1..]) + "\"" + rest);
      DecodeEscapeChar(x[0], Escape(x[1..]) + "\"" + rest);
      assert [x[0]] + x[1..] == x;
    }
  }

  /** A member followed by more text, regrouped around its key. */
  lemma MemberShape(ek: string, ev: string, tail: string)
    ensures ("\"" + ek + "\"") + ":" + ("\"" + ev + "\"") + tail == "\"" + (ek + "\"" + (":\"" + ev + "\"" + tail))
  {
    assert ":" + "\"" == ":\"";
  }

  lemma DecodeMemberKey(k: string, v: string, tail: string)
    ensures var s := MemberText((k, v)) + tail;
      s[0] == '"' && DecodeString(s[1..]) == Some((k, ":\"" + Escape(v) + "\"" + tail))
  {
    var afterKey := ":\"" + Escape(v) + "\"" + tail;
    var s := MemberText((k, v)) + tail;
    MemberShape(Escape(k), Escape(v), tail);
    assert s == "\"" + (Escape(k) + "\"" + afterKey);
    assert s[1..] == Escape(k) + "\"" + afterKey;
    DecodeEscaped(k, afterKey);
  }

  lemma DecodeMemberValue(v: string, tail: string)
    ensures var afterKey := ":\"" + Escape(v) + "\"" + tail;
      afterKey[0] == ':' && afterKey[1] == '"' && DecodeString(afterKey[2..]) == Some((v, tail))
  {
    var afterKey := ":\"" + Escape(v) + "\"" + tail;
    assert afterKey[2..] == Escape(v) + "\"" + tail;
    DecodeEscaped(v, tail);
  }

  lemma DecodeMemberText(k: string, v: string, tail: string)
    ensures DecodeMember(MemberText((k, v)) + tail) == Some(((k, v), tail))
  {
    DecodeMemberKey(k, v, tail);
    DecodeMemberValue(v, tail);
  }

  /** A member followed by a comma and a decodable remainder decodes to
      that member, then the remainder's members. */
  lemma MembersCons(kv: (string, string), more: string, rest: seq<(string, string)>)
    requires DecodeMembers(more) == Some(rest)
    ensures DecodeMembers(MemberText(kv) + "," + more) == Some([kv] + rest)
  {
    var tail := "," + more;
    assert MemberText(kv) + "," + more == MemberText(kv) + tail;
    DecodeMemberText(kv.0, kv.1, tail);
    assert tail[1..] == more;
  }

  /** A last member followed by the closing brace. */
  lemma MembersLast(kv: (string, string))
    ensures DecodeMembers(MemberText(kv) + "}") == Some([kv])
  {
    DecodeMemberText(kv.0, kv.1, "}");
    assert DecodeMember(MemberText(kv) + "}") == Some((kv, "}"));
  }

  lemma {:induction false} DecodeMemberList(kvs: seq<(string, string)>)
    requires |kvs| >= 1
    ensures DecodeMembers(Join(MemberTexts(kvs), ",") + "}") == Some(kvs)
  {
    if |kvs| == 1 {
      MemberListOne(kvs);
    } else {
      DecodeMemberList(kvs[1..]);
      MemberListStep(kvs);
    }
  }

  lemma MemberListOne(kvs: seq<(string, string)>)
    requires |kvs| == 1
    ensures DecodeMembers(Join(MemberTexts(kvs), ",") + "}") == Some(kvs)
  {
    assert MemberTexts(kvs) == [MemberText(kvs[0])] + MemberTexts(kvs[1..]);
    assert Join(MemberTexts(kvs), ",") == MemberText(kvs[0]);
    MembersLast(kvs[0]);
    assert kvs == [kvs[0]];
  }

  /** One more member in front of a decodable list. */
  lemma MemberListStep(kvs: seq<(string, string)>)
    requires |kvs| >= 2
    requires DecodeMembers(Join(MemberTexts(kvs[1..]), ",") + "}") == Some(kvs[1..])
    ensures DecodeMembers(Join(MemberTexts(kvs), ",") + "}") == Some(kvs)
  {
    var head, tail := MemberText(kvs[0]), MemberTexts(kvs[1..]);
    assert MemberTexts(kvs) == [head] + tail;
    JoinCons(head, tail, ",");
    var j := Join(tail, ",");
    AppendRegroup(head, ",", j, "}");
    MembersCons(kvs[0], j + "}", kvs[1..]);
    HeadTail(kvs);
  }

  lemma HeadTail<T>(s: seq<T>)
    requires |s| >= 1
    ensures [s[0]] + s[1..] == s
  {
  }

  lemma AppendRegroup(a: string, b: string, c: string, d: string)
    ensures a + b + c + d == a + b + (c + d)
  {
  }

  /** What `Stringify` writes decodes to exactly its defined properties, in
      order: the undefined ones leave no key behind. */
  lemma StringifyDecodes(props: seq<Property>)
    ensures DecodeObject(Stringify(props)) == Some(Defined(props))
  {
    var kvs := Defined(props);
    if kvs == [] {
      assert Stringify(props) == "{}";
    } else {
      DecodeMemberList(kvs);
      assert Stringify(props)[1..] == Join(MemberTexts(kvs), ",") + "}";
    }
  }
}
