/**
 * String helpers that the routes and pages use through JavaScript's string
 * methods and SQLite's text functions: substring search, ASCII lower-casing,
 * trimming, splitting on a separator, left padding and decimal text.
 */
module Text {
  import opened Wrappers

  // ---------------------------------------------------------------- search

  /** `s.startsWith(p)`. */
  predicate StartsWith(s: string, p: string) {
    |p| <= |s| && s[..|p|] == p
  }

  /** `s.includes(sub)`: `sub` occurs somewhere in `s`. */
  predicate Contains(s: string, sub: string)
    decreases |s|
  {
    StartsWith(s, sub) || (|s| > 0 && Contains(s[1..], sub))
  }

  /** `sub` occurs in `s` at index `i`. */
  predicate OccursAt(s: string, sub: string, i: int) {
    0 <= i && i + |sub| <= |s| && s[i..i + |sub|] == sub
  }

  /** An occurrence at any index makes `Contains` hold. */
  lemma {:induction false} OccursContains(s: string, sub: string, i: int)
    requires OccursAt(s, sub, i)
    ensures Contains(s, sub)
    decreases i
  {
    if i > 0 {
      assert s[1..][i - 1..i - 1 + |sub|] == s[i..i + |sub|];
      OccursContains(s[1..], sub, i - 1);
    } else {
      assert s[..|sub|] == sub;
    }
  }

  /** `Contains` agrees with the positional reading of "occurs somewhere". */
  lemma {:induction false} ContainsIffOccurs(s: string, sub: string)
    ensures Contains(s, sub) <==> exists i :: OccursAt(s, sub, i)
    decreases |s|
  {
    if exists i :: OccursAt(s, sub, i) {
      var i :| OccursAt(s, sub, i);
      OccursContains(s, sub, i);
    }
    if Contains(s, sub) {
      if StartsWith(s, sub) {
        assert OccursAt(s, sub, 0);
      } else {
        ContainsIffOccurs(s[1..], sub);
        var i :| OccursAt(s[1..], sub, i);
        assert s[1..][i..i + |sub|] == s[i + 1..i + 1 + |sub|];
        assert OccursAt(s, sub, i + 1);
      }
    }
  }

  // ----------------------------------------------------------- lower case

  /** `toLowerCase` on one character, for the ASCII letters. */
  function LowerChar(c: char): char {
    if 'A' <= c <= 'Z' then (c as int + 32) as char else c
  }

  /** `s.toLowerCase()`, ASCII letters only. */
  function Lower(s: string): (r: string)
    ensures |r| == |s|
    ensures forall i :: 0 <= i < |s| ==> r[i] == LowerChar(s[i])
  {
    seq(|s|, i requires 0 <= i < |s| => LowerChar(s[i]))
  }

  /** Lower-casing twice is lower-casing once. */
  lemma LowerIdempotent(s: string)
    ensures Lower(Lower(s)) == Lower(s)
  {
  }

  /** Case-insensitive substring test, as `a.toLowerCase().includes(b.toLowerCase())`. */
  predicate ContainsIgnoringCase(s: string, sub: string) {
    Contains(Lower(s), Lower(sub))
  }

  // --------------------------------------------------------------- trimming

  /** The white-space characters `String.prototype.trim` removes (ASCII ones, NBSP, BOM, line/paragraph separators). */
  predicate IsSpace(c: char) {
    c == ' ' || c == '\t' || c == '\n' || c == '\r' || c == '\U{0B}' || c == '\U{0C}'
    || c == '\U{A0}' || c == '\U{FEFF}' || c == '\U{2028}' || c == '\U{2029}'
  }

  function TrimStart(s: string): (r: string)
    ensures |r| <= |s| && r == s[|s| - |r|..]
    ensures r == [] || !IsSpace(r[0])
    ensures forall i :: 0 <= i < |s| - |r| ==> IsSpace(s[i])
  {
    if |s| > 0 && IsSpace(s[0]) then TrimStart(s[1..]) else s
  }

  function TrimEnd(s: string): (r: string)
    ensures |r| <= |s| && r == s[..|r|]
    ensures r == [] || !IsSpace(r[|r| - 1])
    ensures forall i :: |r| <= i < |s| ==> IsSpace(s[i])
  {
    if |s| > 0 && IsSpace(s[|s| - 1]) then TrimEnd(s[..|s| - 1]) else s
  }

  /** `s.trim()`: neither end of the result is white space, and only white space was cut. */
  function Trim(s: string): (r: string)
    ensures |r| <= |s|
    ensures r == [] || (!IsSpace(r[0]) && !IsSpace(r[|r| - 1]))
    ensures exists k :: OccursAt(s, r, k)
  {
    var a := TrimStart(s);
    var r := TrimEnd(a);
    assert r == s[|s| - |a|..][..|r|] == s[|s| - |a|..|s| - |a| + |r|];
    assert OccursAt(s, r, |s| - |a|);
    r
  }

  /** Trimming a string with no white space at either end leaves it unchanged. */
  lemma {:induction false} TrimIdempotent(s: string)
    ensures Trim(Trim(s)) == Trim(s)
  {
    var t := Trim(s);
    assert TrimStart(t) == t;
    assert TrimEnd(t) == t;
  }

  /** A string is blank when trimming leaves nothing (`!s.trim()`). */
  predicate IsBlank(s: string) {
    Trim(s) == ""
  }

  // ---------------------------------------------------------- split / join

  /** `s.split(sep)`: the pieces between separators, always at least one. */
  function Split(s: string, sep: char): (parts: seq<string>)
    ensures |parts| >= 1
    decreases |s|
  {
    if |s| == 0 then [""]
    else
      var rest := Split(s[1..], sep);
      if s[0] == sep then [""] + rest else [[s[0]] + rest[0]] + rest[1..]
  }

  /** No piece holds the separator. */
  lemma {:induction false} SplitPiecesWithoutSep(s: string, sep: char)
    ensures forall p :: p in Split(s, sep) ==> sep !in p
    decreases |s|
  {
    if |s| > 0 {
      SplitPiecesWithoutSep(s[1..], sep);
      var rest := Split(s[1..], sep);
      if s[0] != sep {
        assert rest[0] in rest;
        forall p | p in rest[1..] ensures p in rest {
          var i :| 0 <= i < |rest[1..]| && rest[1..][i] == p;
          assert rest[i + 1] == p;
        }
      }
    }
  }

  /** The inverse of `Split`: the pieces glued back with the separator. */
  function Join(parts: seq<string>, sep: char): string {
    if |parts| == 0 then ""
    else if |parts| == 1 then parts[0]
    else parts[0] + [sep] + Join(parts[1..], sep)
  }

  /** Splitting loses nothing: joining the pieces gives back the string. */
  lemma {:induction false} JoinSplit(s: string, sep: char)
    ensures Join(Split(s, sep), sep) == s
    decreases |s|
  {
    if |s| > 0 {
      var rest := Split(s[1..], sep);
      JoinSplit(s[1..], sep);
      if s[0] == sep {
        assert Split(s, sep) == [""] + rest;
        assert s == [sep] + s[1..];
      } else {
        var parts := Split(s, sep);
        assert parts == [[s[0]] + rest[0]] + rest[1..];
        if |rest| == 1 {
          assert Join(parts, sep) == [s[0]] + rest[0];
        } else {
          assert Join(rest, sep) == rest[0] + [sep] + Join(rest[1..], sep);
          assert parts[1..] == rest[1..];
        }
      }
    }
  }

  /** A text without the separator is one piece. */
  lemma {:induction false} SplitWithoutSep(s: string, sep: char)
    requires forall i :: 0 <= i < |s| ==> s[i] != sep
    ensures Split(s, sep) == [s]
    decreases |s|
  {
    if |s| > 0 {
      SplitWithoutSep(s[1..], sep);
      assert [s[0]] + s[1..] == s;
    }
  }

  /** Number of occurrences of `c` in `s`. */
  function Count(s: string, c: char): nat {
    if |s| == 0 then 0 else (if s[0] == c then 1 else 0) + Count(s[1..], c)
  }

  /** There is one piece more than there are separators. */
  lemma {:induction false} SplitLength(s: string, sep: char)
    ensures |Split(s, sep)| == Count(s, sep) + 1
    decreases |s|
  {
    if |s| > 0 {
      SplitLength(s[1..], sep);
    }
  }

  /** One step of `Split`: the first character starts a new piece or extends the first one. */
  lemma SplitStep(s: string, sep: char)
    requires |s| > 0
    ensures var rest := Split(s[1..], sep);
      Split(s, sep) == if s[0] == sep then [""] + rest else [[s[0]] + rest[0]] + rest[1..]
  {
  }

  /** Splitting at a separator splits the pieces there. */
  lemma {:induction false} SplitAppend(a: string, b: string, sep: char)
    ensures Split(a + [sep] + b, sep) == Split(a, sep) + Split(b, sep)
    decreases |a|
  {
    if |a| == 0 {
      var s := a + [sep] + b;
      SplitStep(s, sep);
      assert s[0] == sep && s[1..] == b;
      assert Split(a, sep) == [""];
    } else {
      SplitAppend(a[1..], b, sep);
      SplitAppendStep(a[0], a[1..] + [sep] + b, a[1..], b, sep);
      assert [a[0]] + a[1..] == a;
      assert [a[0]] + (a[1..] + [sep] + b) == a + [sep] + b;
    }
  }

  /** The step of `SplitAppend`: the first character of `a` goes the same way in both splits. */
  lemma SplitAppendStep(c: char, joined: string, a: string, b: string, sep: char)
    requires Split(joined, sep) == Split(a, sep) + Split(b, sep)
    ensures Split([c] + joined, sep) == Split([c] + a, sep) + Split(b, sep)
  {
    if c == sep {
      SplitAppendStepSep(c, joined, a, b, sep);
    } else {
      SplitAppendStepOther(c, joined, a, b, sep);
    }
  }

  lemma SplitAppendStepSep(c: char, joined: string, a: string, b: string, sep: char)
    requires c == sep
    requires Split(joined, sep) == Split(a, sep) + Split(b, sep)
    ensures Split([c] + joined, sep) == Split([c] + a, sep) + Split(b, sep)
  {
    SplitConsSep(c, joined, sep);
    SplitConsSep(c, a, sep);
    PrependAppend("", Split(a, sep), Split(b, sep));
  }

  lemma PrependAppend(first: string, left: seq<string>, right: seq<string>)
    ensures [first] + (left + right) == ([first] + left) + right
  {
  }

  lemma SplitAppendStepOther(c: char, joined: string, a: string, b: string, sep: char)
    requires c != sep
    requires Split(joined, sep) == Split(a, sep) + Split(b, sep)
    ensures Split([c] + joined, sep) == Split([c] + a, sep) + Split(b, sep)
  {
    SplitConsOther(c, joined, sep);
    SplitConsOther(c, a, sep);
    ExtendFirstAppend(c, Split(a, sep), Split(b, sep));
  }

  /** Extending the first piece of a concatenation extends the first piece of its left part. */
  lemma ExtendFirstAppend(c: char, left: seq<string>, right: seq<string>)
    requires |left| >= 1
    ensures [[c] + (left + right)[0]] + (left + right)[1..] == ([[c] + left[0]] + left[1..]) + right
  {
    assert (left + right)[0] == left[0];
    assert (left + right)[1..] == left[1..] + right;
  }

  /** A separator in front starts an empty piece. */
  lemma SplitConsSep(c: char, rest: string, sep: char)
    requires c == sep
    ensures Split([c] + rest, sep) == [""] + Split(rest, sep)
  {
    assert ([c] + rest)[0] == c && ([c] + rest)[1..] == rest;
  }

  /** Any other character in front joins the first piece. */
  lemma SplitConsOther(c: char, rest: string, sep: char)
    requires c != sep
    ensures Split([c] + rest, sep) == [[c] + Split(rest, sep)[0]] + Split(rest, sep)[1..]
  {
    assert ([c] + rest)[0] == c && ([c] + rest)[1..] == rest;
  }

  // ------------------------------------------------------- padding, digits

  /** `c` repeated `n` times. */
  function Repeat(n: nat, c: char): (r: string)
    ensures |r| == n && forall i :: 0 <= i < n ==> r[i] == c
  {
    if n == 0 then "" else [c] + Repeat(n - 1, c)
  }

  /** `s.padStart(width, c)`: `c` added on the left up to `width` characters; longer strings unchanged. */
  function PadStart(s: string, width: nat, c: char): (r: string)
    ensures |r| == if |s| >= width then |s| else width
    ensures r[|r| - |s|..] == s
    ensures forall i :: 0 <= i < |r| - |s| ==> r[i] == c
  {
    if |s| >= width then s else Repeat(width - |s|, c) + s
  }

  /** A single digit and the same digit with a leading zero pad to the same text ("3" and "03"). */
  lemma PadStartLeadingZero(d: char)
    ensures PadStart([d], 2, '0') == PadStart(['0', d], 2, '0') == ['0', d]
  {
    assert Repeat(1, '0') == ['0'];
  }

  function DigitChar(d: nat): char
    requires d < 10
  {
    ('0' as int + d) as char
  }

  predicate IsDigit(c: char) {
    '0' <= c <= '9'
  }

  /** `n` in exactly `width` decimal digits, keeping the low-order ones (`printf("%0*d")` for `n < 10^width`). */
  function Fixed(n: nat, width: nat): (r: string)
    ensures |r| == width
    ensures forall i :: 0 <= i < width ==> IsDigit(r[i])
  {
    if width == 0 then "" else Fixed(n / 10, width - 1) + [DigitChar(n % 10)]
  }

  function Pow10(k: nat): (r: nat)
    ensures r >= 1
  {
    if k == 0 then 1 else 10 * Pow10(k - 1)
  }

  /** Different numbers below `10^width` have different fixed-width texts. */
  lemma {:induction false} FixedInjective(a: nat, b: nat, width: nat)
    requires a < Pow10(width) && b < Pow10(width)
    requires Fixed(a, width) == Fixed(b, width)
    ensures a == b
  {
    if width > 0 {
      var fa, fb := Fixed(a, width), Fixed(b, width);
      assert fa[width - 1] == fb[width - 1];
      assert a % 10 == b % 10;
      assert fa[..width - 1] == Fixed(a / 10, width - 1);
      assert fb[..width - 1] == Fixed(b / 10, width - 1);
      FixedInjective(a / 10, b / 10, width - 1);
    }
  }

  /** Decimal text of a natural number without leading zeros (`String(n)`). */
  function NatToText(n: nat): (r: string)
    ensures |r| >= 1
    ensures forall i :: 0 <= i < |r| ==> IsDigit(r[i])
  {
    if n < 10 then [DigitChar(n)] else NatToText(n / 10) + [DigitChar(n % 10)]
  }

  /** Value of a string of decimal digits. */
  function DigitsValue(s: string): nat
    requires forall i :: 0 <= i < |s| ==> IsDigit(s[i])
  {
    if |s| == 0 then 0
    else
      assert IsDigit(s[|s| - 1]);
      10 * DigitsValue(s[..|s| - 1]) + (s[|s| - 1] as int - '0' as int)
  }

  /** Reading back the text of a number gives the number. */
  lemma {:induction false} NatToTextRoundTrip(n: nat)
    ensures DigitsValue(NatToText(n)) == n
  {
    if n >= 10 {
      var t := NatToText(n);
      assert t[..|t| - 1] == NatToText(n / 10);
      NatToTextRoundTrip(n / 10);
    }
  }

  /** Reading back a fixed-width text gives the number when it fits. */
  lemma {:induction false} FixedRoundTrip(n: nat, width: nat)
    requires n < Pow10(width)
    ensures DigitsValue(Fixed(n, width)) == n
  {
    if width > 0 {
      var t := Fixed(n, width);
      assert t[..width - 1] == Fixed(n / 10, width - 1);
      FixedRoundTrip(n / 10, width - 1);
    }
  }

  /** A number written without padding and padded to `width` is its fixed-width text. */
  lemma {:induction false} PaddedTextIsFixed(n: nat, width: nat)
    requires n < Pow10(width)
    requires |NatToText(n)| <= width
    ensures PadStart(NatToText(n), width, '0') == Fixed(n, width)
  {
    var t := NatToText(n);
    var p := PadStart(t, width, '0');
    assert |p| == width;
    assert forall i :: 0 <= i < |p| ==> IsDigit(p[i]);
    PadValue(t, width);
    NatToTextRoundTrip(n);
    FixedRoundTrip(n, width);
    DigitsFixed(p);
  }

  /** Padding with zeros keeps the value of a digit string. */
  lemma {:induction false} PadValue(t: string, width: nat)
    requires forall i :: 0 <= i < |t| ==> IsDigit(t[i])
    ensures forall i :: 0 <= i < |PadStart(t, width, '0')| ==> IsDigit(PadStart(t, width, '0')[i])
    ensures DigitsValue(PadStart(t, width, '0')) == DigitsValue(t)
    decreases |t|
  {
    PadDigits(t, width);
    if |t| < width {
      if |t| == 0 {
        ZerosValue(PadStart(t, width, '0'));
      } else {
        var t', last := t[..|t| - 1], t[|t| - 1];
        assert t == t' + [last];
        PadValue(t', width - 1);
        PadValueStep(t', last, t, width - 1, width);
      }
    }
  }

  /** The step of `PadValue`: padding keeps the value when it does so for the text without its last digit. */
  lemma PadValueStep(t: string, last: char, u: string, narrow: nat, width: nat)
    requires u == t + [last] && |t| < narrow && width == narrow + 1
    requires forall i :: 0 <= i < |u| ==> IsDigit(u[i])
    requires forall i :: 0 <= i < |PadStart(t, narrow, '0')| ==> IsDigit(PadStart(t, narrow, '0')[i])
    requires DigitsValue(PadStart(t, narrow, '0')) == DigitsValue(t)
    ensures forall i :: 0 <= i < |PadStart(u, width, '0')| ==> IsDigit(PadStart(u, width, '0')[i])
    ensures DigitsValue(PadStart(u, width, '0')) == DigitsValue(u)
  {
    assert IsDigit(u[|t|]);
    PadSnoc(t, last, narrow);
    DigitsValueSnoc(PadStart(t, narrow, '0'), last);
    DigitsValueSnoc(t, last);
  }

  lemma PadDigits(t: string, width: nat)
    requires forall i :: 0 <= i < |t| ==> IsDigit(t[i])
    ensures forall i :: 0 <= i < |PadStart(t, width, '0')| ==> IsDigit(PadStart(t, width, '0')[i])
  {
    var p := PadStart(t, width, '0');
    forall i | 0 <= i < |p| ensures IsDigit(p[i]) {
      if i >= |p| - |t| {
        assert p[i] == p[|p| - |t|..][i - (|p| - |t|)];
      }
    }
  }

  /** Padding one character more on the right pads the rest to one less. */
  lemma PadSnoc(t: string, c: char, width: nat)
    requires |t| < width
    ensures PadStart(t + [c], width + 1, '0') == PadStart(t, width, '0') + [c]
  {
    assert Repeat(width - |t|, '0') + (t + [c]) == (Repeat(width - |t|, '0') + t) + [c];
  }

  lemma DigitsValueSnoc(s: string, c: char)
    requires forall i :: 0 <= i < |s| ==> IsDigit(s[i])
    requires IsDigit(c)
    ensures forall i :: 0 <= i < |s + [c]| ==> IsDigit((s + [c])[i])
    ensures DigitsValue(s + [c]) == 10 * DigitsValue(s) + (c as int - '0' as int)
  {
    assert (s + [c])[..|s|] == s;
  }

  lemma {:induction false} ZerosValue(z: string)
    requires forall i :: 0 <= i < |z| ==> z[i] == '0'
    ensures DigitsValue(z) == 0
    decreases |z|
  {
    if |z| > 0 {
      ZerosValue(z[..|z| - 1]);
    }
  }

  /** A digit string is the fixed-width text of its own value. */
  lemma {:induction false} DigitsFixed(s: string)
    requires forall i :: 0 <= i < |s| ==> IsDigit(s[i])
    ensures DigitsValue(s) < Pow10(|s|)
    ensures Fixed(DigitsValue(s), |s|) == s
    decreases |s|
  {
    if |s| > 0 {
      var s' := s[..|s| - 1];
      DigitsFixed(s');
      var v := DigitsValue(s);
      var d := s[|s| - 1] as int - '0' as int;
      assert v == 10 * DigitsValue(s') + d;
      assert v / 10 == DigitsValue(s') && v % 10 == d;
      assert s == s' + [s[|s| - 1]];
    }
  }

  /** Texts of numbers from `10^(k-1)` on have at least `k` digits. */
  lemma {:induction false} NatToTextLength(n: nat, k: nat)
    requires k >= 1 && n >= Pow10(k - 1)
    ensures |NatToText(n)| >= k
  {
    if k > 1 {
      NatToTextLength(n / 10, k - 1);
    }
  }

  /** Texts of numbers below `10^k` have at most `k` digits. */
  lemma {:induction false} NatToTextShort(n: nat, k: nat)
    requires k >= 1 && n < Pow10(k)
    ensures |NatToText(n)| <= k
  {
    if n >= 10 {
      NatToTextShort(n / 10, k - 1);
    }
  }

  // -------------------------------------------------------- number parsing

  /** `Number(s)` for the texts it reads as whole numbers: the empty string is 0, a digit string its value; anything else is NaN (None). */
  function Number(s: string): (r: Option<int>)
    ensures r.Some? ==> r.value >= 0
  {
    if forall i :: 0 <= i < |s| ==> IsDigit(s[i]) then Some(DigitsValue(s)) else None
  }

  /** Length of the longest prefix of `s` made of digits. */
  function DigitPrefix(s: string): (k: nat)
    ensures k <= |s|
    ensures forall i :: 0 <= i < k ==> IsDigit(s[i])
    ensures k == |s| || !IsDigit(s[k])
  {
    if |s| > 0 && IsDigit(s[0]) then 1 + DigitPrefix(s[1..]) else 0
  }

  /**
   * `parseInt(s)`: white space skipped, an optional sign, then the longest run
   * of digits; None (NaN) when there is no digit.
   */
  function ParseInt(s: string): (r: Option<int>) {
    var t := TrimStart(s);
    var neg := |t| > 0 && t[0] == '-';
    var u := if |t| > 0 && (t[0] == '-' || t[0] == '+') then t[1..] else t;
    var k := DigitPrefix(u);
    if k == 0 then None
    else
      var v: int := DigitsValue(u[..k]);
      Some(if neg then -v else v)
  }

  /** `parseInt` reads back the text of a number. */
  lemma ParseIntOfText(n: nat)
    ensures ParseInt(NatToText(n)) == Some(n)
  {
    NatToTextRoundTrip(n);
    ParseIntDigits(NatToText(n));
  }

  /** `parseInt` of a non-empty digit string is its value. */
  lemma ParseIntDigits(t: string)
    requires |t| > 0
    requires forall i :: 0 <= i < |t| ==> IsDigit(t[i])
    ensures ParseInt(t) == Some(DigitsValue(t))
  {
    assert IsDigit(t[0]);
    assert !IsSpace(t[0]) && t[0] != '-' && t[0] != '+';
    assert TrimStart(t) == t;
    DigitPrefixAll(t);
    assert t[..|t|] == t;
  }

  lemma {:induction false} DigitPrefixAll(s: string)
    requires forall i :: 0 <= i < |s| ==> IsDigit(s[i])
    ensures DigitPrefix(s) == |s|
    decreases |s|
  {
    if |s| > 0 {
      DigitPrefixAll(s[1..]);
    }
  }

  // ---------------------------------------------------------------- order

  /** Byte-wise text order (SQLite's BINARY collation, JavaScript's `<` on strings): `a` sorts no later than `b`. */
  predicate TextLe(a: string, b: string)
    decreases |a|
  {
    |a| == 0 || (|b| > 0 && (a[0] < b[0] || (a[0] == b[0] && TextLe(a[1..], b[1..]))))
  }

  /** Any two texts are ordered one way or the other. */
  lemma {:induction false} TextLeTotal(a: string, b: string)
    ensures TextLe(a, b) || TextLe(b, a)
    decreases |a|
  {
    if |a| > 0 && |b| > 0 && a[0] == b[0] {
      TextLeTotal(a[1..], b[1..]);
    }
  }

  /** The text order is transitive. */
  lemma {:induction false} TextLeTransitive(a: string, b: string, c: string)
    requires TextLe(a, b) && TextLe(b, c)
    ensures TextLe(a, c)
    decreases |a|
  {
    if |a| > 0 && a[0] == b[0] && b[0] == c[0] {
      TextLeTransitive(a[1..], b[1..], c[1..]);
    }
  }

  /** Texts ordered both ways are equal. */
  lemma {:induction false} TextLeAntisymmetric(a: string, b: string)
    requires TextLe(a, b) && TextLe(b, a)
    ensures a == b
    decreases |a|
  {
    if |a| > 0 {
      TextLeAntisymmetric(a[1..], b[1..]);
      assert a == [a[0]] + a[1..] && b == [b[0]] + b[1..];
    }
  }

  /** The three facts together: the text order is a total order. */
  lemma TextOrder()
    ensures forall a, b :: TextLe(a, b) || TextLe(b, a)
    ensures forall a, b, c :: TextLe(a, b) && TextLe(b, c) ==> TextLe(a, c)
    ensures forall a, b :: TextLe(a, b) && TextLe(b, a) ==> a == b
  {
    forall a, b ensures TextLe(a, b) || TextLe(b, a) {
      TextLeTotal(a, b);
    }
    forall a, b, c | TextLe(a, b) && TextLe(b, c) ensures TextLe(a, c) {
      TextLeTransitive(a, b, c);
    }
    forall a, b | TextLe(a, b) && TextLe(b, a) ensures a == b {
      TextLeAntisymmetric(a, b);
    }
  }

  // ------------------------------------------------------------ null text

  /** `x || null` on a text column: the empty text is stored as NULL. */
  function NullIfEmpty(s: string): (r: Option<string>)
    ensures r.None? <==> s == ""
    ensures r.Some? ==> r.value == s
  {
    if s == "" then None else Some(s)
  }
}
