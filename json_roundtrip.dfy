/** `json.loads(json.dumps(v)) == v`: the decoder reads back everything the encoder
    writes. This is what lets challenge metadata travel through the session history. */
module JsonRoundTrip {
  import opened Wrappers
  import opened PyStr
  import opened Json

  /** What may follow a value inside a document: nothing, or a separator that ends it. */
  predicate Delimited(rest: string) {
    rest == [] || rest[0] == ',' || rest[0] == ']' || rest[0] == '}'
  }

  /** The characters a value can start with (so never whitespace, `]` or `}`). */
  predicate ValueStart(c: char) {
    c == 'n' || c == 't' || c == 'f' || c == '"' || c == '[' || c == '{' || c == '-' || IsDigit(c)
  }

  function PrependChar(c: char, r: Option<(string, string)>): Option<(string, string)> {
    match r
    case None => None
    case Some((body, after)) => Some(([c] + body, after))
  }

  lemma {:induction false} HexDigitValue(d: nat)
    requires d < 16
    ensures IsHexDigit(HexDigit(d)) && HexValue(HexDigit(d)) == d
  {
    var digits := "0123456789abcdef";
    assert HexDigit(d) == digits[d];
    if d < 10 {
      assert digits[d] == (d + '0' as int) as char;
    } else {
      assert digits[d] == (d - 10 + 'a' as int) as char;
    }
  }

  lemma {:induction false} Hex4Digits(n: nat)
    requires n < 0x10000
    ensures ((n / 0x1000 * 16 + n / 0x100 % 16) * 16 + n / 16 % 16) * 16 + n % 16 == n
  {
    var q := n / 16;
    assert n == q * 16 + n % 16;
    var q2 := q / 16;
    assert q == q2 * 16 + q % 16;
    assert n / 16 % 16 == q % 16;
    var q3 := q2 / 16;
    assert q2 == q3 * 16 + q2 % 16;
    assert n / 0x100 == q2;
    assert n / 0x1000 == q3;
  }

  lemma {:induction false} ParseHex4OfHex4(n: nat, rest: string)
    requires n < 0x10000
    ensures ParseHex4(Hex4(n) + rest) == Some(n)
  {
    var h := Hex4(n);
    var s := h + rest;
    assert s[..4] == h;
    var a, b, c, d := n / 0x1000, n / 0x100 % 16, n / 16 % 16, n % 16;
    HexDigitValue(a);
    HexDigitValue(b);
    HexDigitValue(c);
    HexDigitValue(d);
    assert s[0] == HexDigit(a) && s[1] == HexDigit(b) && s[2] == HexDigit(c) && s[3] == HexDigit(d);
    Hex4Digits(n);
  }

  /** The four hexadecimal digits of a character outside the surrogate range read back
      as it. */
  lemma {:induction false} ParseUnicodeOfHex4(c: char, tail: string)
    requires c as int < 0x10000
    ensures ParseUnicode(Hex4(c as int) + tail) == Some((c, tail))
  {
    ParseHex4OfHex4(c as int, tail);
    assert (Hex4(c as int) + tail)[4..] == tail;
  }

  /** The second escape of a surrogate pair completes the character. */
  lemma {:induction false} ParseLowHalfOfHex4(hi: int, lo: int, tail: string)
    requires IsHighSurrogate(hi) && IsLowSurrogate(lo)
    ensures ParseLowHalf(hi, "\\u" + Hex4(lo) + tail) ==
      Some(((0x10000 + (hi - 0xD800) * 0x400 + (lo - 0xDC00)) as char, tail))
  {
    var s := "\\u" + Hex4(lo) + tail;
    assert s[0] == '\\' && s[1] == 'u';
    assert s[2..] == Hex4(lo) + tail;
    ParseHex4OfHex4(lo, tail);
    assert s[6..] == tail;
  }

  lemma {:induction false} SurrogateSplit(n: int)
    requires 0 <= n < 0x100000
    ensures IsHighSurrogate(0xD800 + n / 0x400) && IsLowSurrogate(0xDC00 + n % 0x400)
    ensures 0x10000 + (0xD800 + n / 0x400 - 0xD800) * 0x400 + (0xDC00 + n % 0x400 - 0xDC00) == 0x10000 + n
  {
  }

  /** A surrogate pair of `\u` escapes reads back as the character it encodes. */
  lemma {:induction false} ParseSurrogatePair(hi: int, lo: int, tail: string)
    requires IsHighSurrogate(hi) && IsLowSurrogate(lo)
    ensures ParseUnicode(Hex4(hi) + ("\\u" + Hex4(lo) + tail)) ==
      Some(((0x10000 + (hi - 0xD800) * 0x400 + (lo - 0xDC00)) as char, tail))
  {
    var second := "\\u" + Hex4(lo) + tail;
    ParseHex4OfHex4(hi, second);
    assert (Hex4(hi) + second)[4..] == second;
    ParseLowHalfOfHex4(hi, lo, tail);
  }

  /** Reading an escape sequence and then the rest of a literal. */
  lemma {:induction false} ParseEscapeStep(e: string, tail: string, c: char)
    requires e != [] && e[0] == '\\'
    requires ParseEscape(e[1..] + tail) == Some((c, tail))
    ensures ParseStringBody(e + tail) == PrependChar(c, ParseStringBody(tail))
  {
    assert (e + tail)[0] == '\\';
    assert (e + tail)[1..] == e[1..] + tail;
  }

  /** The one-letter escapes `json.dumps` writes. */
  lemma {:induction false} ParseShortEscape(c: char, tail: string)
    requires c == '"' || c == '\\' || c == '\n' || c == '\r' || c == '\t' || c == Backspace || c == FormFeed
    ensures ParseStringBody(EscapeChar(c) + tail) == PrependChar(c, ParseStringBody(tail))
  {
    var e := EscapeChar(c);
    assert |e| == 2 && e[0] == '\\' && SimpleEscape(e[1]) == Some(c);
    assert e[1..] + tail == [e[1]] + tail;
    assert ([e[1]] + tail)[1..] == tail;
    ParseEscapeStep(e, tail, c);
  }

  /** After the backslash, a `u` starts a `\u` escape. */
  lemma {:induction false} ParseEscapeOfU(x: string)
    ensures ParseEscape("u" + x) == ParseUnicode(x)
  {
    assert ("u" + x)[0] == 'u' && ("u" + x)[1..] == x;
  }

  /** The `\u` escape `json.dumps` writes for a character below U+10000 outside
      printable ASCII. */
  lemma {:induction false} ParseBmpEscape(c: char, tail: string)
    requires !(' ' <= c <= '~') && c as int < 0x10000
    requires !(c == '"' || c == '\\' || c == '\n' || c == '\r' || c == '\t' || c == Backspace || c == FormFeed)
    ensures ParseStringBody(EscapeChar(c) + tail) == PrependChar(c, ParseStringBody(tail))
  {
    var e := EscapeChar(c);
    var x := Hex4(c as int) + tail;
    assert e == "\\u" + Hex4(c as int);
    assert e[1..] + tail == "u" + x;
    ParseEscapeOfU(x);
    ParseUnicodeOfHex4(c, tail);
    ParseEscapeStep(e, tail, c);
  }

  /** Reading a `\u` escape and then the rest of a literal. */
  lemma {:induction false} ParseUnicodeStep(x: string, tail: string, c: char)
    requires ParseUnicode(x + tail) == Some((c, tail))
    ensures ParseStringBody("\\u" + x + tail) == PrependChar(c, ParseStringBody(tail))
  {
    var e := "\\u" + x;
    assert e[1..] + tail == "u" + (x + tail);
    ParseEscapeOfU(x + tail);
    ParseEscapeStep(e, tail, c);
  }

  /** The two halves of the surrogate pair of a character from U+10000 on. */
  function HighHalf(c: char): int
    requires c as int >= 0x10000
  {
    0xD800 + (c as int - 0x10000) / 0x400
  }

  function LowHalf(c: char): int
    requires c as int >= 0x10000
  {
    0xDC00 + (c as int - 0x10000) % 0x400
  }

  /** The escape `json.dumps` writes for a character from U+10000 on, and the two
      halves it is made of. */
  lemma {:induction false} AstralEscapeText(c: char)
    requires c as int >= 0x10000
    ensures IsHighSurrogate(HighHalf(c)) && IsLowSurrogate(LowHalf(c))
    ensures (0x10000 + (HighHalf(c) - 0xD800) * 0x400 + (LowHalf(c) - 0xDC00)) as char == c
    ensures EscapeChar(c) == "\\u" + (Hex4(HighHalf(c)) + "\\u" + Hex4(LowHalf(c)))
  {
    SurrogateSplit(c as int - 0x10000);
  }

  /** The surrogate pair `json.dumps` writes for a character from U+10000 on. */
  lemma {:induction false} ParseAstralEscape(c: char, tail: string)
    requires c as int >= 0x10000
    ensures ParseStringBody(EscapeChar(c) + tail) == PrependChar(c, ParseStringBody(tail))
  {
    AstralEscapeText(c);
    var h, u, l := Hex4(HighHalf(c)), "\\u", Hex4(LowHalf(c));
    ConcatAssociative(h, u, l);
    ConcatAssociative(h, u + l, tail);
    ConcatAssociative(u, l, tail);
    ParseSurrogatePair(HighHalf(c), LowHalf(c), tail);
    ParseUnicodeStep(h + u + l, tail, c);
  }

  /** Reading one escaped character and then the rest of a literal. */
  lemma {:induction false} ParseEscapeChar(c: char, tail: string)
    ensures ParseStringBody(EscapeChar(c) + tail) == PrependChar(c, ParseStringBody(tail))
  {
    if c == '"' || c == '\\' || c == '\n' || c == '\r' || c == '\t' || c == Backspace || c == FormFeed {
      ParseShortEscape(c, tail);
    } else if ' ' <= c <= '~' {
      assert EscapeChar(c) == [c];
      assert ([c] + tail)[1..] == tail;
    } else if c as int < 0x10000 {
      ParseBmpEscape(c, tail);
    } else {
      ParseAstralEscape(c, tail);
    }
  }

  /** An escaped string followed by the closing quote reads back as the string. */
  lemma {:induction false} ParseEscapedString(s: string, rest: string)
    ensures ParseStringBody(EscapeString(s) + "\"" + rest) == Some((s, rest))
    decreases |s|
  {
    if s == [] {
      assert EscapeString(s) + "\"" + rest == "\"" + rest;
      assert ("\"" + rest)[1..] == rest;
    } else {
      var tail := EscapeString(s[1..]) + "\"" + rest;
      assert EscapeString(s) + "\"" + rest == EscapeChar(s[0]) + tail;
      ParseEscapeChar(s[0], tail);
      ParseEscapedString(s[1..], rest);
      assert [s[0]] + s[1..] == s;
    }
  }

  /** A quoted string, read from just after its opening quote. */
  lemma {:induction false} ParseQuoted(s: string, rest: string)
    ensures (Quote(s) + rest)[0] == '"'
    ensures ParseStringBody((Quote(s) + rest)[1..]) == Some((s, rest))
  {
    assert (Quote(s) + rest)[1..] == EscapeString(s) + "\"" + rest;
    ParseEscapedString(s, rest);
  }

  lemma {:induction false} DigitRunOfDigits(ds: string, rest: string)
    requires AllDigits(ds)
    requires rest == [] || !IsDigit(rest[0])
    ensures DigitRun(ds + rest) == |ds|
    decreases |ds|
  {
    if ds != [] {
      assert (ds + rest)[1..] == ds[1..] + rest;
      DigitRunOfDigits(ds[1..], rest);
    } else {
      assert ds + rest == rest;
    }
  }

  /** The integer part of a number: the whole of `str(m)`, up to the separator. */
  lemma {:induction false} IntegerPart(m: nat, rest: string)
    requires Delimited(rest)
    ensures var t := NatToDecimal(m) + rest;
      && t != [] && IsDigit(t[0])
      && (if t[0] == '0' then 1 else DigitRun(t)) == |NatToDecimal(m)|
      && t[..|NatToDecimal(m)|] == NatToDecimal(m)
      && t[|NatToDecimal(m)|..] == rest
      && !StartsFloatPart(rest)
  {
    var ds := NatToDecimal(m);
    var t := ds + rest;
    if t[0] == '0' {
      assert ds == "0";
    } else {
      DigitRunOfDigits(ds, rest);
    }
  }

  /** The digits of `str(m)` followed by a separator read back as `m`. */
  lemma {:induction false} ParseNaturalOfDecimal(m: nat, rest: string)
    requires Delimited(rest)
    ensures ParseNatural(NatToDecimal(m) + rest) == Some((m, rest))
  {
    IntegerPart(m, rest);
    DecimalValueOfNatToDecimal(m);
  }

  /** `str(i)` followed by a separator reads back as the integer `i`. */
  lemma {:induction false} ParseNumberOfDecimal(i: int, rest: string)
    requires Delimited(rest)
    ensures ParseNumber(IntToDecimal(i) + rest) == Some((JInt(i), rest))
  {
    var s := IntToDecimal(i) + rest;
    var m: nat := if i < 0 then -i else i;
    var ds := NatToDecimal(m);
    ParseNaturalOfDecimal(m, rest);
    if i < 0 {
      assert s == "-" + (ds + rest);
      assert s[0] == '-' && s[1..] == ds + rest;
    } else {
      assert s == ds + rest;
      assert s[0] != '-';
    }
  }

  lemma {:induction false} DumpsStart(v: Json)
    ensures |Dumps(v)| >= 1 && ValueStart(Dumps(v)[0])
  {
  }

  lemma {:induction false} SkipWsAtValue(s: string)
    requires s != [] && ValueStart(s[0])
    ensures SkipWs(s) == s
  {
  }

  lemma {:induction false} ParseLiteralWord(word: string, v: Json, rest: string)
    requires |word| >= 1
    ensures ParseLiteral(word + rest, word, v) == Some((v, rest))
  {
    assert (word + rest)[..|word|] == word && (word + rest)[|word|..] == rest;
  }

  /** Null, booleans, integers and strings read back. */
  lemma {:induction false} ParseDumpsScalar(v: Json, rest: string)
    requires !v.JArray? && !v.JObject?
    requires Delimited(rest)
    ensures ParseValue(Dumps(v) + rest) == Some((v, rest))
  {
    var s := Dumps(v) + rest;
    match v
    case JNull =>
      ParseLiteralWord("null", JNull, rest);
    case JBool(b) =>
      if b {
        ParseLiteralWord("true", v, rest);
      } else {
        ParseLiteralWord("false", v, rest);
      }
    case JInt(i) =>
      assert s[0] == '-' || IsDigit(s[0]);
      ParseNumberOfDecimal(i, rest);
    case JStr(text) =>
      ParseQuoted(text, rest);
  }

  lemma {:induction false} ParseDumps(v: Json, rest: string)
    requires Delimited(rest)
    ensures ParseValue(Dumps(v) + rest) == Some((v, rest))
    decreases v, 3
  {
    match v
    case JArray(items) =>
      ParseDumpsArrayValue(items, rest);
    case JObject(ms) =>
      ParseDumpsObjectValue(ms, rest);
    case _ =>
      ParseDumpsScalar(v, rest);
  }

  /** `open + inner + close` followed by `rest`, regrouped from the right. */
  lemma {:induction false} Bracketed(open: string, inner: string, close: string, rest: string)
    ensures open + inner + close + rest == open + (inner + (close + rest))
  {
    ConcatAssociative(open + inner, close, rest);
    ConcatAssociative(open, inner, close + rest);
  }

  lemma {:induction false} ParseValueOfArray(s: string)
    requires s != [] && s[0] == '['
    ensures ParseValue(s) == ParseArray(s[1..])
  {
  }

  lemma {:induction false} ParseValueOfObject(s: string)
    requires s != [] && s[0] == '{'
    ensures ParseValue(s) == ParseObject(s[1..])
  {
  }

  lemma {:induction false} ParseDumpsArrayValue(items: seq<Json>, rest: string)
    ensures ParseValue(Dumps(JArray(items)) + rest) == Some((JArray(items), rest))
    decreases items, 2
  {
    var inner := DumpItems(items) + ("]" + rest);
    Bracketed("[", DumpItems(items), "]", rest);
    assert ("[" + inner)[0] == '[' && ("[" + inner)[1..] == inner;
    ParseValueOfArray("[" + inner);
    ParseDumpsArray(items, rest);
  }

  lemma {:induction false} ParseDumpsObjectValue(ms: seq<Member>, rest: string)
    ensures ParseValue(Dumps(JObject(ms)) + rest) == Some((JObject(ms), rest))
    decreases ms, 2
  {
    var inner := DumpMembers(ms) + ("}" + rest);
    Bracketed("{", DumpMembers(ms), "}", rest);
    assert ("{" + inner)[0] == '{' && ("{" + inner)[1..] == inner;
    ParseValueOfObject("{" + inner);
    ParseDumpsObject(ms, rest);
  }

  lemma {:induction false} ParseDumpsArray(items: seq<Json>, rest: string)
    ensures ParseArray(DumpItems(items) + ("]" + rest)) == Some((JArray(items), rest))
    decreases items, 1
  {
    var s := DumpItems(items) + ("]" + rest);
    if items == [] {
      assert s == "]" + rest;
      assert s[1..] == rest;
    } else {
      DumpsStart(items[0]);
      DumpItemsStart(items);
      SkipWsAtValue(s);
      ParseDumpItems(items, rest);
    }
  }

  lemma {:induction false} ParseDumpsObject(ms: seq<Member>, rest: string)
    ensures ParseObject(DumpMembers(ms) + ("}" + rest)) == Some((JObject(ms), rest))
    decreases ms, 1
  {
    var s := DumpMembers(ms) + ("}" + rest);
    if ms == [] {
      assert s == "}" + rest;
      assert s[1..] == rest;
    } else {
      DumpMembersStart(ms);
      SkipWsAtValue(s);
      ParseDumpMembers(ms, rest);
    }
  }

  /** A non-empty list of items starts with its first value. */
  lemma {:induction false} DumpItemsStart(items: seq<Json>)
    requires items != []
    ensures |DumpItems(items)| >= 1 && DumpItems(items)[0] == Dumps(items[0])[0]
  {
    DumpsStart(items[0]);
  }

  /** A non-empty list of members starts with the quote of its first key. */
  lemma {:induction false} DumpMembersStart(ms: seq<Member>)
    requires ms != []
    ensures |DumpMembers(ms)| >= 1 && DumpMembers(ms)[0] == '"'
  {
  }

  /** One step of the element list: a value followed by `]`. */
  lemma {:induction false} ElementsLast(s: string, v: Json, rest: string)
    requires ParseValue(s) == Some((v, "]" + rest))
    ensures ParseElements(s) == Some(([v], rest))
  {
    assert SkipWs("]" + rest) == "]" + rest;
    assert ("]" + rest)[1..] == rest;
  }

  /** One step of the element list: a value followed by `, ` and the next value. */
  lemma {:induction false} ElementsNext(s: string, v: Json, next: string, vs: seq<Json>, rest: string)
    requires ParseValue(s) == Some((v, ", " + next))
    requires next != [] && ValueStart(next[0])
    requires ParseElements(next) == Some((vs, rest))
    ensures ParseElements(s) == Some(([v] + vs, rest))
  {
    var t := ", " + next;
    assert SkipWs(t) == t;
    assert t[1..] == " " + next;
    assert (" " + next)[1..] == next;
    SkipWsAtValue(next);
    assert SkipWs(t[1..]) == next;
  }

  /** A value, a separator and the text after it, regrouped from the right. */
  lemma {:induction false} Separated(head: string, sep: string, tail: string, rest: string)
    ensures head + sep + tail + rest == head + (sep + (tail + rest))
  {
    ConcatAssociative(head + sep, tail, rest);
    ConcatAssociative(head, sep, tail + rest);
  }

  lemma {:induction false} ParseDumpItems(items: seq<Json>, rest: string)
    requires items != []
    ensures ParseElements(DumpItems(items) + ("]" + rest)) == Some((items, rest))
    decreases items, 0
  {
    var s := DumpItems(items) + ("]" + rest);
    if |items| == 1 {
      assert s == Dumps(items[0]) + ("]" + rest);
      ParseDumps(items[0], "]" + rest);
      ElementsLast(s, items[0], rest);
      assert [items[0]] == items;
    } else {
      var next := DumpItems(items[1..]) + ("]" + rest);
      Separated(Dumps(items[0]), ", ", DumpItems(items[1..]), "]" + rest);
      assert s == Dumps(items[0]) + (", " + next);
      ParseDumps(items[0], ", " + next);
      DumpItemsStart(items[1..]);
      ParseDumpItems(items[1..], rest);
      ElementsNext(s, items[0], next, items[1..], rest);
      assert [items[0]] + items[1..] == items;
    }
  }

  /** The key and colon of a member: what follows is the member's value text. */
  lemma {:induction false} MemberHead(key: string, valueText: string)
    requires valueText != [] && ValueStart(valueText[0])
    ensures ParseMembers(Quote(key) + (": " + valueText)) == ParseMemberValue(key, valueText)
  {
    var s := Quote(key) + (": " + valueText);
    ParseQuoted(key, ": " + valueText);
    var t := ": " + valueText;
    assert SkipWs(t) == t;
    assert t[1..] == " " + valueText;
    assert (" " + valueText)[1..] == valueText;
    SkipWsAtValue(valueText);
  }

  lemma {:induction false} MembersLast(key: string, valueText: string, v: Json, rest: string)
    requires ParseValue(valueText) == Some((v, "}" + rest))
    ensures ParseMemberValue(key, valueText) == Some(([Member(key, v)], rest))
  {
    assert SkipWs("}" + rest) == "}" + rest;
    assert ("}" + rest)[1..] == rest;
  }

  lemma {:induction false} MembersNext(key: string, valueText: string, v: Json, next: string, ms: seq<Member>, rest: string)
    requires ParseValue(valueText) == Some((v, ", " + next))
    requires next != [] && ValueStart(next[0])
    requires ParseMembers(next) == Some((ms, rest))
    ensures ParseMemberValue(key, valueText) == Some(([Member(key, v)] + ms, rest))
  {
    var u := ", " + next;
    assert SkipWs(u) == u;
    assert u[1..] == " " + next;
    assert (" " + next)[1..] == next;
    SkipWsAtValue(next);
  }

  /** The text of a member list followed by `after`, split at its first member into the
      key, the value and what follows the value. */
  lemma {:induction false} DumpMembersCons(ms: seq<Member>, after: string)
    requires ms != []
    ensures |ms| == 1 ==>
      DumpMembers(ms) + after == Quote(ms[0].key) + (": " + (Dumps(ms[0].value) + after))
    ensures |ms| > 1 ==>
      DumpMembers(ms) + after ==
      Quote(ms[0].key) + (": " + (Dumps(ms[0].value) + (", " + (DumpMembers(ms[1..]) + after))))
  {
    var q := Quote(ms[0].key);
    var d := Dumps(ms[0].value);
    if |ms| == 1 {
      Bracketed(q, ": ", d, after);
    } else {
      var tail := DumpMembers(ms[1..]);
      Separated(q + ": " + d, ", ", tail, after);
      Bracketed(q, ": ", d, ", " + (tail + after));
    }
  }

  lemma {:induction false} ParseDumpMembers(ms: seq<Member>, rest: string)
    requires ms != []
    ensures ParseMembers(DumpMembers(ms) + ("}" + rest)) == Some((ms, rest))
    decreases ms, 0
  {
    var m := ms[0];
    DumpsStart(m.value);
    DumpMembersCons(ms, "}" + rest);
    if |ms| == 1 {
      ParseDumps(m.value, "}" + rest);
      MemberHead(m.key, Dumps(m.value) + ("}" + rest));
      MembersLast(m.key, Dumps(m.value) + ("}" + rest), m.value, rest);
      assert [Member(m.key, m.value)] == ms;
    } else {
      var next := DumpMembers(ms[1..]) + ("}" + rest);
      ParseDumps(m.value, ", " + next);
      DumpMembersStart(ms[1..]);
      ParseDumpMembers(ms[1..], rest);
      MemberHead(m.key, Dumps(m.value) + (", " + next));
      MembersNext(m.key, Dumps(m.value) + (", " + next), m.value, next, ms[1..], rest);
      assert [Member(m.key, m.value)] + ms[1..] == ms;
    }
  }

  /** `json.loads(json.dumps(v)) == v` */
  lemma {:induction false} LoadsDumps(v: Json)
    ensures Loads(Dumps(v)) == Some(v)
  {
    DumpsStart(v);
    SkipWsAtValue(Dumps(v));
    assert Dumps(v) + [] == Dumps(v);
    ParseDumps(v, []);
  }
}
