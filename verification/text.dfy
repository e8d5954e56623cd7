/** String helpers shared by every search box and keyword test in the store:
    ASCII lower-casing (`toLowerCase`), substring search (`includes`),
    code-point lexicographic order, and whitespace trimming (`trim`). */
module Text {

  import opened Optional

  predicate IsUpper(c: char) {
    'A' <= c <= 'Z'
  }

  /** Lower-cases one character; only the ASCII letters A-Z change. */
  function LowerChar(c: char): (r: char)
    ensures !IsUpper(r)
    ensures IsUpper(c) ==> r as int - c as int == 32
    ensures !IsUpper(c) ==> r == c
  {
    if IsUpper(c) then (c as int + 32) as char else c
  }

  /** `s.toLowerCase()` restricted to ASCII letters. */
  function ToLower(s: string): (r: string)
    ensures |r| == |s|
    ensures forall i :: 0 <= i < |s| ==> r[i] == LowerChar(s[i])
  {
    if s == [] then [] else [LowerChar(s[0])] + ToLower(s[1..])
  }

  /** Lower-casing twice is lower-casing once. */
  lemma ToLowerIdempotent(s: string)
    ensures ToLower(ToLower(s)) == ToLower(s)
  {
    var once := ToLower(s);
    assert forall i :: 0 <= i < |once| ==> LowerChar(once[i]) == once[i];
  }

  predicate IsPrefix(p: string, s: string) {
    |p| <= |s| && p == s[..|p|]
  }

  /** `s.includes(sub)`: `sub` occurs somewhere in `s`. */
  predicate Contains(s: string, sub: string)
    decreases |s|
  {
    IsPrefix(sub, s) || (|s| > 0 && Contains(s[1..], sub))
  }

  /** An occurrence of `sub` in `s` starting at `i`. */
  predicate OccursAt(s: string, sub: string, i: int) {
    0 <= i && i + |sub| <= |s| && s[i..i + |sub|] == sub
  }

  /** An occurrence at a known position makes `Contains` hold. */
  lemma {:induction false} OccursImpliesContains(s: string, sub: string, i: int)
    requires OccursAt(s, sub, i)
    ensures Contains(s, sub)
    decreases i
  {
    if i == 0 {
      assert IsPrefix(sub, s);
    } else {
      assert s[1..][i - 1..i - 1 + |sub|] == s[i..i + |sub|];
      OccursImpliesContains(s[1..], sub, i - 1);
    }
  }

  /** `Contains` always has a witnessing position. */
  lemma {:induction false} ContainsImpliesOccurs(s: string, sub: string)
    requires Contains(s, sub)
    ensures exists i :: OccursAt(s, sub, i)
    decreases |s|
  {
    if IsPrefix(sub, s) {
      assert OccursAt(s, sub, 0);
    } else {
      ContainsImpliesOccurs(s[1..], sub);
      var i :| OccursAt(s[1..], sub, i);
      assert s[1..][i..i + |sub|] == s[i + 1..i + 1 + |sub|];
      assert OccursAt(s, sub, i + 1);
    }
  }

  /** The scanning definition of `Contains` agrees with the positional one. */
  lemma ContainsIffOccurs(s: string, sub: string)
    ensures Contains(s, sub) <==> exists i :: OccursAt(s, sub, i)
  {
    if Contains(s, sub) {
      ContainsImpliesOccurs(s, sub);
    }
    if i :| OccursAt(s, sub, i) {
      OccursImpliesContains(s, sub, i);
    }
  }

  /** The empty string occurs in every string, so an empty search keeps all. */
  lemma ContainsEmpty(s: string)
    ensures Contains(s, "")
  {
    assert IsPrefix("", s);
  }

  /** `field.toLowerCase().includes(term.toLowerCase())`, the test behind
      every admin search box. */
  predicate IncludesIgnoringCase(field: string, term: string) {
    Contains(ToLower(field), ToLower(term))
  }

  /** An empty search term matches every field. */
  lemma EmptyTermMatches(field: string)
    ensures IncludesIgnoringCase(field, "")
  {
    ContainsEmpty(ToLower(field));
  }

  /** Code-point lexicographic order. It stands in for JavaScript's `<=` on
      strings, which compares UTF-16 code units; the two differ only above
      U+FFFF (see the README's "Left out"). */
  predicate LexLe(a: string, b: string)
    decreases |a|
  {
    |a| == 0 || (|b| > 0 && (a[0] < b[0] || (a[0] == b[0] && LexLe(a[1..], b[1..]))))
  }

  /** JavaScript's `a > b` on strings. */
  predicate LexGt(a: string, b: string) {
    !LexLe(a, b)
  }

  lemma {:induction false} LexLeTotal(a: string, b: string)
    ensures LexLe(a, b) || LexLe(b, a)
    decreases |a|
  {
    if |a| > 0 && |b| > 0 && a[0] == b[0] {
      LexLeTotal(a[1..], b[1..]);
    }
  }

  lemma {:induction false} LexLeAntisymmetric(a: string, b: string)
    requires LexLe(a, b) && LexLe(b, a)
    ensures a == b
    decreases |a|
  {
    if |a| > 0 {
      LexLeAntisymmetric(a[1..], b[1..]);
      assert a == [a[0]] + a[1..] && b == [b[0]] + b[1..];
    }
  }

  lemma {:induction false} LexLeTransitive(a: string, b: string, c: string)
    requires LexLe(a, b) && LexLe(b, c)
    ensures LexLe(a, c)
    decreases |a|
  {
    if |a| > 0 && a[0] == b[0] && b[0] == c[0] {
      LexLeTransitive(a[1..], b[1..], c[1..]);
    }
  }

  /** The white space and line terminators of sections 12.2 and 12.3 of
      ECMA-262 (tab, vertical tab, form feed, the byte-order mark, line feed,
      carriage return, the line and paragraph separators and every space
      separator of Unicode category Zs): what `trim` strips and what
      `parseInt` skips. */
  predicate IsSpace(c: char) {
    c == '\t' || c == '\U{000B}' || c == '\U{000C}' || c == '\U{FEFF}'
    || c == '\n' || c == '\r' || c == '\U{2028}' || c == '\U{2029}'
    || c == ' ' || c == '\U{00A0}' || c == '\U{1680}' || '\U{2000}' <= c <= '\U{200A}'
    || c == '\U{202F}' || c == '\U{205F}' || c == '\U{3000}'
  }

  function TrimStart(s: string): (r: string)
    ensures |r| <= |s|
    ensures r == s[|s| - |r|..]
    ensures forall i :: 0 <= i < |s| - |r| ==> IsSpace(s[i])
    ensures |r| > 0 ==> !IsSpace(r[0])
  {
    if |s| > 0 && IsSpace(s[0]) then TrimStart(s[1..]) else s
  }

  function TrimEnd(s: string): (r: string)
    ensures |r| <= |s|
    ensures r == s[..|r|]
    ensures forall i :: |r| <= i < |s| ==> IsSpace(s[i])
    ensures |r| > 0 ==> !IsSpace(r[|r| - 1])
  {
    if |s| > 0 && IsSpace(s[|s| - 1]) then TrimEnd(s[..|s| - 1]) else s
  }

  /** `s.trim()`. */
  function Trim(s: string): string {
    TrimEnd(TrimStart(s))
  }

  /** A string trims to nothing exactly when every character is white space. */
  lemma TrimEmptyIffBlank(s: string)
    ensures Trim(s) == "" <==> forall i :: 0 <= i < |s| ==> IsSpace(s[i])
  {
    var t := TrimStart(s);
    if Trim(s) != "" {
      var r := Trim(s);
      assert !IsSpace(r[0]);
      assert r[0] == t[0] == s[|s| - |t|];
    }
  }

  predicate IsDigit(c: char) {
    '0' <= c <= '9'
  }

  /** The value `parseInt` gives a character as a digit: 0-9, then the
      letters a-z (either case) as 10-35. Every other character gets 36,
      which no radix admits. */
  function DigitValue(c: char): (v: nat)
    ensures v <= 36
    ensures IsDigit(c) ==> v == c as int - '0' as int
  {
    if IsDigit(c) then c as int - '0' as int
    else if 'a' <= c <= 'z' then c as int - 'a' as int + 10
    else if 'A' <= c <= 'Z' then c as int - 'A' as int + 10
    else 36
  }

  predicate IsRadixDigit(c: char, radix: nat) {
    DigitValue(c) < radix
  }

  /** The number of digits of the given radix that `s` starts with. */
  function DigitRunLength(s: string, radix: nat): (n: nat)
    ensures n <= |s|
    ensures forall i :: 0 <= i < n ==> IsRadixDigit(s[i], radix)
    ensures n < |s| ==> !IsRadixDigit(s[n], radix)
  {
    if |s| > 0 && IsRadixDigit(s[0], radix) then 1 + DigitRunLength(s[1..], radix) else 0
  }

  /** The value of a string of digits in the given radix, most significant
      digit first. */
  function RadixValue(d: string, radix: nat): nat
    requires forall i :: 0 <= i < |d| ==> IsRadixDigit(d[i], radix)
  {
    if d == [] then 0
    else
      var high: nat := RadixValue(d[..|d| - 1], radix);
      var low: nat := DigitValue(d[|d| - 1]);
      assert radix * high >= 0 by { MulNat(radix, high); }
      radix * high + low
  }

  lemma MulNat(a: nat, b: nat)
    ensures a * b >= 0
  {
  }

  /** Whether `u` starts with the hexadecimal prefix `0x` or `0X`. */
  predicate HasHexPrefix(u: string) {
    |u| >= 2 && u[0] == '0' && (u[1] == 'x' || u[1] == 'X')
  }

  /** The sign `parseInt` reads after the white space: `-` negates. */
  predicate IsNegative(t: string) {
    |t| > 0 && t[0] == '-'
  }

  /** `t` without its leading `+` or `-`, if it has one. */
  function DropSign(t: string): string {
    if |t| > 0 && (t[0] == '-' || t[0] == '+') then t[1..] else t
  }

  /** The magnitude `parseInt` reads from unsigned text: hexadecimal digits
      after a `0x` or `0X` prefix, decimal digits otherwise, up to the first
      character that is not a digit. `None` when no digit is read. */
  function Magnitude(u: string): Option<nat> {
    var radix := if HasHexPrefix(u) then 16 else 10;
    var digits := if HasHexPrefix(u) then u[2..] else u;
    var n := DigitRunLength(digits, radix);
    if n == 0 then None else Some(RadixValue(digits[..n], radix))
  }

  /** `parseInt(s)` without a radix argument, as section 19.2.5 of ECMA-262
      defines it: leading white space is skipped, one `+` or `-` is read,
      and the magnitude follows. `None` stands for `NaN`. */
  function ParseInt(s: string): Option<int> {
    ParseSigned(TrimStart(s))
  }

  /** What `parseInt` reads once the white space is skipped. */
  function ParseSigned(t: string): Option<int> {
    match Magnitude(DropSign(t))
    case None => None
    case Some(v) =>
      var m: int := v;
      Some(if IsNegative(t) then -m else m)
  }

  /** Text that starts with neither white space, a sign nor a digit reads
      as `NaN`. */
  lemma NoDigitIsNaN(s: string)
    requires |s| > 0 && !IsSpace(s[0]) && s[0] != '-' && s[0] != '+' && !IsDigit(s[0])
    ensures ParseInt(s) == None
  {
    TrimStartKeeps(s);
    assert DropSign(s) == s;
    assert !HasHexPrefix(s);
    assert DigitValue(s[0]) >= 10;
    assert Magnitude(s) == None;
  }

  /** A negative result always comes from a `-` sign. */
  lemma NegativeNeedsMinus(t: string)
    requires ParseSigned(t).Some? && ParseSigned(t).value < 0
    ensures IsNegative(t)
  {
  }

  /** The sign in front of unsigned text decides the sign of the result. */
  lemma SignedMagnitude(u: string, v: nat)
    requires |u| == 0 || (u[0] != '-' && u[0] != '+')
    requires Magnitude(u) == Some(v)
    ensures ParseSigned(u) == Some(v)
    ensures ParseSigned("-" + u) == Some(-(v as int))
    ensures ParseSigned("+" + u) == Some(v)
  {
    assert DropSign(u) == u;
    assert DropSign("-" + u) == u;
    assert DropSign("+" + u) == u;
  }

  /** `TrimStart` leaves a string that does not start with white space alone. */
  lemma TrimStartKeeps(s: string)
    requires |s| == 0 || !IsSpace(s[0])
    ensures TrimStart(s) == s
  {
  }

  /** `TrimStart` skips a prefix of white space. */
  lemma {:induction false} TrimStartSkips(ws: string, s: string)
    requires forall i :: 0 <= i < |ws| ==> IsSpace(ws[i])
    ensures TrimStart(ws + s) == TrimStart(s)
    decreases |ws|
  {
    if ws == [] {
      assert ws + s == s;
    } else {
      var t := ws + s;
      assert t[0] == ws[0];
      assert t[1..] == ws[1..] + s;
      assert TrimStart(t) == TrimStart(t[1..]);
      TrimStartSkips(ws[1..], s);
    }
  }

  /** `String(n)` for a natural number: its decimal digits, with no
      leading zero. */
  function DecimalString(n: nat): (r: string)
    ensures |r| > 0
    ensures forall i :: 0 <= i < |r| ==> IsDigit(r[i])
    ensures |r| > 1 ==> r[0] != '0'
    decreases n
  {
    if n < 10 then [('0' as int + n) as char]
    else DecimalString(n / 10) + [('0' as int + n % 10) as char]
  }

  /** `String(n)` for an integer. */
  function IntString(n: int): string {
    if n < 0 then "-" + DecimalString(-n) else DecimalString(n)
  }

  /** Reading back the decimal digits of `n` gives `n`. */
  lemma {:induction false} DecimalRoundTrip(n: nat)
    ensures RadixValue(DecimalString(n), 10) == n
    decreases n
  {
    var d := DecimalString(n);
    if n >= 10 {
      DecimalRoundTrip(n / 10);
      assert d[..|d| - 1] == DecimalString(n / 10);
    }
  }

  /** A run of decimal digits with no hexadecimal prefix is its own
      magnitude. */
  lemma DigitsMagnitude(d: string)
    requires |d| > 0 && forall i :: 0 <= i < |d| ==> IsDigit(d[i])
    requires !HasHexPrefix(d)
    ensures Magnitude(d) == Some(RadixValue(d, 10))
  {
    var n := DigitRunLength(d, 10);
    assert n == |d|;
    assert d[..n] == d;
  }

  /** A run of decimal digits that fills the whole string parses as its
      decimal value, and with a `-` in front as its negation. */
  lemma DigitsParse(d: string)
    requires |d| > 0 && forall i :: 0 <= i < |d| ==> IsDigit(d[i])
    requires !HasHexPrefix(d)
    ensures ParseInt(d) == Some(RadixValue(d, 10))
    ensures ParseInt("-" + d) == Some(-(RadixValue(d, 10) as int))
  {
    DigitsMagnitude(d);
    SignedMagnitude(d, RadixValue(d, 10));
    TrimStartKeeps(d);
    TrimStartKeeps("-" + d);
  }

  /** `parseInt(String(n)) === n`: parsing inverts decimal formatting. */
  lemma ParseIntRoundTrip(n: int)
    ensures ParseInt(IntString(n)) == Some(n)
  {
    var m: nat := if n < 0 then -n else n;
    var d := DecimalString(m);
    DecimalRoundTrip(m);
    assert !HasHexPrefix(d) by {
      assert |d| > 1 ==> IsDigit(d[1]);
    }
    DigitsParse(d);
    if n < 0 {
      assert IntString(n) == "-" + d;
    } else {
      assert IntString(n) == d;
    }
  }

  /** Leading white space never changes what `parseInt` reads. */
  lemma ParseIntSkipsSpace(ws: string, s: string)
    requires forall i :: 0 <= i < |ws| ==> IsSpace(ws[i])
    ensures ParseInt(ws + s) == ParseInt(s)
  {
    TrimStartSkips(ws, s);
  }

  /** A `0x` prefix selects radix 16: `parseInt("0x10")` is 16. */
  lemma HexExample()
    ensures ParseInt("0x10") == Some(16)
  {
    var s := "0x10";
    TrimStartKeeps(s);
    assert Magnitude(s) == Some(16) by {
      assert HasHexPrefix(s);
      var digits := s[2..];
      assert digits == "10";
      assert DigitRunLength(digits, 16) == 2 by {
        assert digits[1..] == "0" && "0"[1..] == "";
      }
      assert digits[..2] == digits;
      assert digits[..1] == "1";
      assert RadixValue("1", 16) == 1 by { assert "1"[..0] == ""; }
    }
    SignedMagnitude(s, 16);
  }

  lemma SevenMagnitude()
    ensures Magnitude("7") == Some(7)
  {
    DigitsMagnitude("7");
    assert RadixValue("7", 10) == 7 by { assert "7"[..0] == ""; }
  }

  /** Leading white space is skipped: `parseInt(" 7")` is 7. */
  lemma SpaceExample()
    ensures ParseInt(" 7") == Some(7)
  {
    SevenMagnitude();
    SignedMagnitude("7", 7);
    TrimStartKeeps("7");
    TrimStartSkips(" ", "7");
    assert " " + "7" == " 7";
  }

  /** A `+` sign is read and dropped: `parseInt("+7")` is 7. */
  lemma PlusExample()
    ensures ParseInt("+7") == Some(7)
  {
    SevenMagnitude();
    SignedMagnitude("7", 7);
    TrimStartKeeps("+7");
    assert "+" + "7" == "+7";
  }

  /** A `-` sign negates: `parseInt("-7")` is -7. */
  lemma MinusExample()
    ensures ParseInt("-7") == Some(-7)
  {
    SevenMagnitude();
    SignedMagnitude("7", 7);
    TrimStartKeeps("-7");
    assert "-" + "7" == "-7";
  }

  /** Reading stops at the first character that is not a digit:
      `parseInt("12ab")` is 12. */
  lemma TailExample()
    ensures ParseInt("12ab") == Some(12)
  {
    var s := "12ab";
    TrimStartKeeps(s);
    assert Magnitude(s) == Some(12) by {
      assert !HasHexPrefix(s);
      assert DigitRunLength(s, 10) == 2 by {
        assert s[1..][1..] == "ab";
        assert !IsRadixDigit('a', 10);
      }
      assert s[..2] == "12";
      assert "12"[..1] == "1";
      assert RadixValue("1", 10) == 1 by { assert "1"[..0] == ""; }
    }
    SignedMagnitude(s, 12);
  }

  /** Text with no leading digit is `NaN`: `parseInt("ab")`. */
  lemma LetterExample()
    ensures ParseInt("ab") == None
  {
    NoDigitIsNaN("ab");
  }
}
