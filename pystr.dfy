/** The Python `str` operations that the modelled code relies on: `strip`, `lower`,
    `split`, `str(int)` and `int(str)`. */
module PyStr {
  import opened Wrappers

  // ---------------------------------------------------------------------------
  // Whitespace and strip
  // ---------------------------------------------------------------------------

  /** The characters for which Python's `str.isspace()` holds; `str.strip()` with no
      argument removes exactly these from both ends. */
  predicate IsSpace(c: char) {
    || c == ' '
    || '\t' <= c <= '\r'
    || '\U{1c}' <= c <= '\U{1f}'
    || c == '\U{85}' || c == '\U{a0}' || c == '\U{1680}'
    || '\U{2000}' <= c <= '\U{200a}'
    || c == '\U{2028}' || c == '\U{2029}' || c == '\U{202f}' || c == '\U{205f}' || c == '\U{3000}'
  }

  predicate AllSpace(s: string) {
    forall i | 0 <= i < |s| :: IsSpace(s[i])
  }

  /** Neither end of `s` is whitespace. */
  predicate IsStripped(s: string) {
    s == [] || (!IsSpace(s[0]) && !IsSpace(s[|s| - 1]))
  }

  /** The number of whitespace characters `s` starts with. */
  function LeadingSpace(s: string): (n: nat)
    ensures n <= |s|
    ensures forall i | 0 <= i < n :: IsSpace(s[i])
    ensures n < |s| ==> !IsSpace(s[n])
  {
    if s != [] && IsSpace(s[0]) then 1 + LeadingSpace(s[1..]) else 0
  }

  /** The length of `s` once its trailing whitespace is cut off. */
  function TrailingSpaceStart(s: string): (n: nat)
    ensures n <= |s|
    ensures forall i | n <= i < |s| :: IsSpace(s[i])
    ensures n > 0 ==> !IsSpace(s[n - 1])
  {
    if s != [] && IsSpace(s[|s| - 1]) then TrailingSpaceStart(s[..|s| - 1]) else |s|
  }

  /** `s.lstrip()`: the longest suffix of `s` that does not start with whitespace. */
  function TrimStart(s: string): (r: string)
    ensures |r| <= |s| && r == s[|s| - |r|..]
    ensures AllSpace(s[..|s| - |r|])
    ensures r == [] || !IsSpace(r[0])
  {
    s[LeadingSpace(s)..]
  }

  /** `s.rstrip()`: the longest prefix of `s` that does not end with whitespace. */
  function TrimEnd(s: string): (r: string)
    ensures |r| <= |s| && r == s[..|r|]
    ensures AllSpace(s[|r|..])
    ensures r == [] || !IsSpace(r[|r| - 1])
  {
    s[..TrailingSpaceStart(s)]
  }

  /** `s.strip()`: `s` without its leading and trailing whitespace. */
  function Strip(s: string): (r: string)
    ensures IsStripped(r) && |r| <= |s|
    ensures r == [] <==> AllSpace(s)
    ensures IsStripped(s) ==> r == s
    ensures forall c | c in r :: c in s
  {
    var t := TrimStart(s);
    var r := TrimEnd(t);
    assert forall c | c in r :: c in t;
    assert r == [] && t != [] ==> AllSpace(t);
    r
  }

  /** Stripping twice is stripping once. */
  lemma {:induction false} StripIdempotent(s: string)
    ensures Strip(Strip(s)) == Strip(s)
  {
  }

  // ---------------------------------------------------------------------------
  // lower
  // ---------------------------------------------------------------------------

  function LowerChar(c: char): char {
    if 'A' <= c <= 'Z' then (c as int - 'A' as int + 'a' as int) as char else c
  }

  /** `s.lower()` on the ASCII letters. No other character lower-cases to an ASCII
      letter other than `i` and `k`, so a comparison of the result with a lower-case
      ASCII word without those letters agrees with Python's. */
  function Lower(s: string): (r: string)
    ensures |r| == |s|
    ensures forall i | 0 <= i < |s| :: r[i] == LowerChar(s[i])
  {
    seq(|s|, i requires 0 <= i < |s| => LowerChar(s[i]))
  }

  // ---------------------------------------------------------------------------
  // split on one separator character
  // ---------------------------------------------------------------------------

  /** `s.split(sep)` for a one-character separator: the pieces between separators,
      empty pieces included, so there is always at least one. */
  function Split(s: string, sep: char): (parts: seq<string>)
    ensures |parts| >= 1
    ensures forall i | 0 <= i < |parts| :: sep !in parts[i]
    decreases |s|
  {
    if s == [] then [""]
    else
      var tail := Split(s[1..], sep);
      if s[0] == sep then [""] + tail else [[s[0]] + tail[0]] + tail[1..]
  }

  /** `sep.join(parts)` */
  function Join(parts: seq<string>, sep: char): string
    requires |parts| >= 1
  {
    if |parts| == 1 then parts[0] else parts[0] + [sep] + Join(parts[1..], sep)
  }

  /** Splitting loses nothing: joining the pieces gives the string back. */
  lemma {:induction false} JoinSplit(s: string, sep: char)
    ensures Join(Split(s, sep), sep) == s
    decreases |s|
  {
    if s != [] {
      var tail := Split(s[1..], sep);
      JoinSplit(s[1..], sep);
      if s[0] == sep {
        assert Split(s, sep) == [""] + tail;
        assert Join([""] + tail, sep) == [sep] + Join(tail, sep);
      } else if |tail| == 1 {
        assert Split(s, sep) == [[s[0]] + tail[0]];
      } else {
        assert Split(s, sep) == [[s[0]] + tail[0]] + tail[1..];
        assert ([[s[0]] + tail[0]] + tail[1..])[1..] == tail[1..];
        assert Join(tail, sep) == tail[0] + [sep] + Join(tail[1..], sep);
      }
    }
  }

  lemma {:induction false} SplitNoSeparator(x: string, sep: char)
    requires sep !in x
    ensures Split(x, sep) == [x]
    decreases |x|
  {
    if x != [] {
      SplitNoSeparator(x[1..], sep);
      assert [x[0]] + x[1..] == x;
    }
  }

  lemma {:induction false} SplitAtSeparator(x: string, y: string, sep: char)
    requires sep !in x
    ensures Split(x + [sep] + y, sep) == [x] + Split(y, sep)
    decreases |x|
  {
    if x == [] {
      assert x + [sep] + y == [sep] + y;
      assert ([sep] + y)[1..] == y;
    } else {
      assert (x + [sep] + y)[1..] == x[1..] + [sep] + y;
      SplitAtSeparator(x[1..], y, sep);
      assert [x[0]] + x[1..] == x;
    }
  }

  /** Joining pieces without separators and splitting again gives the pieces back. */
  lemma {:induction false} SplitJoin(parts: seq<string>, sep: char)
    requires |parts| >= 1
    requires forall i | 0 <= i < |parts| :: sep !in parts[i]
    ensures Split(Join(parts, sep), sep) == parts
    decreases |parts|
  {
    if |parts| == 1 {
      SplitNoSeparator(parts[0], sep);
    } else {
      SplitJoin(parts[1..], sep);
      SplitAtSeparator(parts[0], Join(parts[1..], sep), sep);
      assert [parts[0]] + parts[1..] == parts;
    }
  }

  /** `[p.strip() for p in parts if p.strip()]` */
  function StrippedNonEmpty(parts: seq<string>): (r: seq<string>)
    ensures |r| <= |parts|
    ensures forall i | 0 <= i < |r| :: r[i] != "" && IsStripped(r[i])
  {
    if parts == [] then []
    else
      var p := Strip(parts[0]);
      var rest := StrippedNonEmpty(parts[1..]);
      (if p == "" then [] else [p]) + rest
  }

  /** An element of the comprehension is the non-empty stripped form of some piece, and
      every piece that strips to something non-empty contributes its stripped form. */
  lemma {:induction false} StrippedNonEmptyMembers(parts: seq<string>, x: string)
    ensures x in StrippedNonEmpty(parts) <==> x != "" && exists i :: 0 <= i < |parts| && Strip(parts[i]) == x
  {
    if parts != [] {
      StrippedNonEmptyMembers(parts[1..], x);
      if x != "" && Strip(parts[0]) != x && x !in StrippedNonEmpty(parts[1..]) {
        forall i | 0 <= i < |parts| ensures Strip(parts[i]) != x {
          if i > 0 {
            assert parts[1..][i - 1] == parts[i];
          }
        }
      }
      if x != "" && x !in StrippedNonEmpty(parts) {
        assert x !in StrippedNonEmpty(parts[1..]);
      }
      if x in StrippedNonEmpty(parts[1..]) {
        var i :| 0 <= i < |parts[1..]| && Strip(parts[1..][i]) == x;
        assert Strip(parts[i + 1]) == x;
      }
    }
  }

  lemma {:induction false} ConcatAssociative<T>(x: seq<T>, y: seq<T>, z: seq<T>)
    ensures x + (y + z) == (x + y) + z
  {
  }

  /** The order of the pieces is kept: the first piece's contribution comes first. */
  lemma {:induction false} StrippedNonEmptyAppend(a: seq<string>, b: seq<string>)
    ensures StrippedNonEmpty(a + b) == StrippedNonEmpty(a) + StrippedNonEmpty(b)
  {
    if a != [] {
      assert (a + b)[0] == a[0];
      assert (a + b)[1..] == a[1..] + b;
      StrippedNonEmptyAppend(a[1..], b);
      var h := if Strip(a[0]) == "" then [] else [Strip(a[0])];
      assert StrippedNonEmpty(a + b) == h + StrippedNonEmpty(a[1..] + b);
      assert StrippedNonEmpty(a) == h + StrippedNonEmpty(a[1..]);
      ConcatAssociative(h, StrippedNonEmpty(a[1..]), StrippedNonEmpty(b));
    } else {
      assert a + b == b;
    }
  }

  /** `[p.strip() for p in raw.split(",") if p.strip()]`, the origin-list comprehension. */
  function CommaSegments(raw: string): (r: seq<string>)
    ensures forall i | 0 <= i < |r| :: r[i] != "" && IsStripped(r[i]) && ',' !in r[i]
  {
    var parts := Split(raw, ',');
    var r := StrippedNonEmpty(parts);
    forall i | 0 <= i < |r| ensures ',' !in r[i] {
      StrippedNonEmptyMembers(parts, r[i]);
    }
    r
  }

  // ---------------------------------------------------------------------------
  // Decimal digits, str(int) and int(str)
  // ---------------------------------------------------------------------------

  predicate IsDigit(c: char) {
    '0' <= c <= '9'
  }

  predicate AllDigits(s: string) {
    forall i | 0 <= i < |s| :: IsDigit(s[i])
  }

  function DigitValue(c: char): (d: nat)
    requires IsDigit(c)
    ensures d < 10
  {
    c as int - '0' as int
  }

  function DigitChar(d: nat): (c: char)
    requires d < 10
    ensures IsDigit(c) && DigitValue(c) == d
  {
    (d + '0' as int) as char
  }

  /** The value of a string of decimal digits (leading zeros allowed). */
  function DecimalValue(ds: string): nat
    requires AllDigits(ds)
  {
    if ds == [] then 0 else DecimalValue(ds[..|ds| - 1]) * 10 + DigitValue(ds[|ds| - 1])
  }

  /** `str(n)` for `n >= 0`: digits without a leading zero, except for zero itself. */
  function NatToDecimal(n: nat): (r: string)
    ensures |r| >= 1 && AllDigits(r)
    ensures r[0] == '0' <==> n == 0
    ensures n == 0 ==> r == "0"
    decreases n
  {
    if n < 10 then [DigitChar(n)] else NatToDecimal(n / 10) + [DigitChar(n % 10)]
  }

  lemma {:induction false} DecimalValueOfNatToDecimal(n: nat)
    ensures DecimalValue(NatToDecimal(n)) == n
    decreases n
  {
    if n >= 10 {
      var r := NatToDecimal(n);
      assert r[..|r| - 1] == NatToDecimal(n / 10);
      DecimalValueOfNatToDecimal(n / 10);
    }
  }

  function Pow10(k: nat): (r: nat)
    ensures r >= 1
  {
    if k == 0 then 1 else 10 * Pow10(k - 1)
  }

  lemma {:induction false} Pow10Monotone(j: nat, k: nat)
    requires j <= k
    ensures Pow10(j) <= Pow10(k)
    decreases k
  {
    if j < k {
      Pow10Monotone(j, k - 1);
    }
  }

  /** A digit string of length `k` without a leading zero denotes a number with
      exactly `k` digits. */
  lemma {:induction false} DecimalValueBounds(ds: string)
    requires |ds| >= 1 && AllDigits(ds) && ds[0] != '0'
    ensures Pow10(|ds| - 1) <= DecimalValue(ds) < Pow10(|ds|)
    decreases |ds|
  {
    var init := ds[..|ds| - 1];
    if |ds| == 1 {
      assert init == [];
    } else {
      assert init[0] == ds[0];
      DecimalValueBounds(init);
      assert DecimalValue(ds) == DecimalValue(init) * 10 + DigitValue(ds[|ds| - 1]);
    }
  }

  /** A digit string of any length has a value below `10^|ds|`. */
  lemma {:induction false} DecimalValueBelow(ds: string)
    requires AllDigits(ds)
    ensures DecimalValue(ds) < Pow10(|ds|)
    decreases |ds|
  {
    if ds != [] {
      DecimalValueBelow(ds[..|ds| - 1]);
    }
  }

  /** `str(int(ds)) == ds` for a digit string without a leading zero. */
  lemma {:induction false} NatToDecimalOfDecimalValue(ds: string)
    requires |ds| >= 1 && AllDigits(ds) && ds[0] != '0'
    ensures NatToDecimal(DecimalValue(ds)) == ds
    decreases |ds|
  {
    var init := ds[..|ds| - 1];
    if |ds| == 1 {
      assert init == [];
    } else {
      assert init[0] == ds[0];
      NatToDecimalOfDecimalValue(init);
      DecimalValueBounds(init);
      var v := DecimalValue(ds);
      assert v == DecimalValue(init) * 10 + DigitValue(ds[|ds| - 1]);
      assert v / 10 == DecimalValue(init) && v % 10 == DigitValue(ds[|ds| - 1]);
      assert ds == init + [ds[|ds| - 1]];
    }
  }

  /** `str(n)` has `k` digits exactly when `10^(k-1) <= n < 10^k`. */
  lemma {:induction false} NatToDecimalLength(n: nat)
    requires n >= 1
    ensures Pow10(|NatToDecimal(n)| - 1) <= n < Pow10(|NatToDecimal(n)|)
  {
    DecimalValueOfNatToDecimal(n);
    DecimalValueBounds(NatToDecimal(n));
  }

  /** `k` copies of `c`. */
  function Repeat(c: char, k: nat): (r: string)
    ensures |r| == k && forall i | 0 <= i < k :: r[i] == c
  {
    seq(k, i => c)
  }

  /** Leading zeros do not change the value of a digit string. */
  lemma {:induction false} DecimalValueLeadingZeros(k: nat, ds: string)
    requires AllDigits(ds)
    ensures AllDigits(Repeat('0', k) + ds)
    ensures DecimalValue(Repeat('0', k) + ds) == DecimalValue(ds)
    decreases |ds|
  {
    var s := Repeat('0', k) + ds;
    if ds == [] {
      assert s == Repeat('0', k);
      ZerosValue(k);
    } else {
      assert s[..|s| - 1] == Repeat('0', k) + ds[..|ds| - 1];
      DecimalValueLeadingZeros(k, ds[..|ds| - 1]);
    }
  }

  lemma {:induction false} ZerosValue(k: nat)
    ensures DecimalValue(Repeat('0', k)) == 0
  {
    if k > 0 {
      assert Repeat('0', k)[..k - 1] == Repeat('0', k - 1);
      ZerosValue(k - 1);
    }
  }

  /** `str(i)` */
  function IntToDecimal(i: int): (r: string)
    ensures |r| >= 1 && (r[0] == '-' || IsDigit(r[0]))
    ensures i >= 0 ==> AllDigits(r)
    ensures i < 0 ==> r[0] == '-' && AllDigits(r[1..])
  {
    if i < 0 then "-" + NatToDecimal(-i) else NatToDecimal(i)
  }

  /** Digits with single underscores between them, as `int()` accepts after the sign. */
  predicate DigitGroups(b: string) {
    && |b| >= 1
    && IsDigit(b[0]) && IsDigit(b[|b| - 1])
    && (forall i | 0 <= i < |b| :: IsDigit(b[i]) || b[i] == '_')
    && (forall i | 0 <= i < |b| - 1 :: b[i] == '_' ==> b[i + 1] != '_')
  }

  function RemoveUnderscores(b: string): (r: string)
    requires forall i | 0 <= i < |b| :: IsDigit(b[i]) || b[i] == '_'
    ensures AllDigits(r)
    ensures AllDigits(b) ==> r == b
  {
    if b == [] then []
    else (if b[0] == '_' then [] else [b[0]]) + RemoveUnderscores(b[1..])
  }

  /** Python's `int(s)` on a string: whitespace around, at most one sign, then ASCII
      decimal digit groups; anything else raises `ValueError`, modelled as `None`. */
  function IntOfString(s: string): Option<int>
  {
    var t := Strip(s);
    if t == [] then None else SignedValue(t)
  }

  /** A stripped, non-empty text with its optional sign. */
  function SignedValue(t: string): Option<int>
    requires t != []
  {
    if t[0] == '-' then
      match UnsignedValue(t[1..])
      case Some(m) => Some(-m)
      case None => None
    else if t[0] == '+' then UnsignedValue(t[1..])
    else UnsignedValue(t)
  }

  /** Digit groups read as a number. */
  function UnsignedValue(b: string): Option<int>
  {
    if DigitGroups(b) then Some(DecimalValue(RemoveUnderscores(b))) else None
  }

  /** A run of digits is a single digit group, with no underscores to remove. */
  lemma {:induction false} DigitsAreGroups(b: string)
    requires |b| >= 1 && AllDigits(b)
    ensures DigitGroups(b) && RemoveUnderscores(b) == b
  {
  }

  /** `str(i)` has no whitespace at either end. */
  lemma {:induction false} DecimalIsStripped(i: int)
    ensures Strip(IntToDecimal(i)) == IntToDecimal(i)
  {
    var r := IntToDecimal(i);
    var body := NatToDecimal(if i < 0 then -i else i);
    assert r[|r| - 1] == body[|body| - 1];
    assert IsStripped(r);
  }

  /** The sign and digits of `str(i)` read back as `i`. */
  lemma {:induction false} SignedValueOfDecimal(i: int)
    ensures SignedValue(IntToDecimal(i)) == Some(i)
  {
    var r := IntToDecimal(i);
    var n: nat := if i < 0 then -i else i;
    var body := NatToDecimal(n);
    DigitsAreGroups(body);
    DecimalValueOfNatToDecimal(n);
    assert UnsignedValue(body) == Some(n);
    if i < 0 {
      assert r[0] == '-' && r[1..] == body;
    } else {
      assert r == body && r[0] != '-' && r[0] != '+';
    }
  }

  /** `int(str(i)) == i` */
  lemma {:induction false} IntOfStringOfDecimal(i: int)
    ensures IntOfString(IntToDecimal(i)) == Some(i)
  {
    DecimalIsStripped(i);
    SignedValueOfDecimal(i);
  }
}
