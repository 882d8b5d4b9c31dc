/** String primitives the application relies on: `trim`, `toLowerCase`,
    `includes`, the `\s` character class, `length` and decimal rendering
    of a number. Strings are sequences of Unicode scalar values, one `char`
    per code point; `Utf16Length` gives the length JavaScript reports. */
module Text {

  /** The ECMAScript WhiteSpace and LineTerminator code points: exactly the
      characters `String.prototype.trim` strips and the regular-expression
      class `\s` matches. */
  predicate IsSpace(c: char) {
    var u := c as int;
    || (0x09 <= u <= 0x0D)
    || u == 0x20
    || u == 0xA0
    || u == 0x1680
    || (0x2000 <= u <= 0x200A)
    || u == 0x2028
    || u == 0x2029
    || u == 0x202F
    || u == 0x205F
    || u == 0x3000
    || u == 0xFEFF
  }

  predicate AllSpace(s: string) {
    forall i :: 0 <= i < |s| ==> IsSpace(s[i])
  }

  predicate NoSpace(s: string) {
    forall i :: 0 <= i < |s| ==> !IsSpace(s[i])
  }

  /** Drops the leading white space. */
  function TrimStart(s: string): (r: string)
    ensures |r| <= |s| && r == s[|s| - |r|..]
    ensures AllSpace(s[..|s| - |r|])
    ensures r == [] || !IsSpace(r[0])
  {
    if |s| > 0 && IsSpace(s[0]) then TrimStart(s[1..]) else s
  }

  /** Drops the trailing white space. */
  function TrimEnd(s: string): (r: string)
    ensures |r| <= |s| && r == s[..|r|]
    ensures AllSpace(s[|r|..])
    ensures r == [] || !IsSpace(r[|r| - 1])
  {
    if |s| > 0 && IsSpace(s[|s| - 1]) then
      var r := TrimEnd(s[..|s| - 1]);
      assert s[|r|..] == s[..|s| - 1][|r|..] + [s[|s| - 1]];
      r
    else s
  }

  /** The number of white-space characters `s` begins with. */
  function Lead(s: string): (k: nat)
    ensures k <= |s|
  {
    |s| - |TrimStart(s)|
  }

  /** `String.prototype.trim`: the infix of `s` left once white space is
      removed from both ends, starting after the `Lead(s)` leading spaces. */
  function Trim(s: string): (r: string)
    ensures Lead(s) + |r| <= |s| && r == s[Lead(s)..Lead(s) + |r|]
    ensures AllSpace(s[..Lead(s)]) && AllSpace(s[Lead(s) + |r|..])
    ensures r == [] || (!IsSpace(r[0]) && !IsSpace(r[|r| - 1]))
  {
    var t := TrimStart(s);
    var r := TrimEnd(t);
    var a := |s| - |t|;
    assert t == s[a..];
    assert r == s[a..a + |r|];
    assert s[a + |r|..] == t[|r|..];
    r
  }

  /** JavaScript's `!s.trim()`: nothing but white space, which is exactly
      when trimming leaves the empty string (`BlankIffTrimEmpty`). */
  predicate IsBlank(s: string) {
    AllSpace(s)
  }

  /** A string is blank exactly when trimming empties it. */
  lemma BlankIffTrimEmpty(s: string)
    ensures IsBlank(s) <==> Trim(s) == []
  {
    var r := Trim(s);
    var a := Lead(s);
    if r == [] {
      assert s == s[..a] + s[a..];
    } else {
      assert s[a] == r[0];
    }
  }

  /** Trimming twice is trimming once. */
  lemma TrimIdempotent(s: string)
    ensures Trim(Trim(s)) == Trim(s)
  {
    TrimFixedIff(Trim(s));
  }

  /** `s.trim() === s` exactly when `s` neither begins nor ends with white
      space. */
  lemma TrimFixedIff(s: string)
    ensures Trim(s) == s <==> (s == [] || (!IsSpace(s[0]) && !IsSpace(s[|s| - 1])))
  {
    if s == [] {
      assert TrimStart(s) == s;
    } else if !IsSpace(s[0]) && !IsSpace(s[|s| - 1]) {
      assert TrimStart(s) == s;
      assert TrimEnd(s) == s;
    } else {
      var r := Trim(s);
      assert r == [] || (!IsSpace(r[0]) && !IsSpace(r[|r| - 1]));
    }
  }

  /** A code point outside the Basic Multilingual Plane, which UTF-16
      stores as a surrogate pair. */
  predicate IsAstral(c: char) {
    c as int >= 0x1_0000
  }

  /** `s.length`: the number of UTF-16 code units, one for a character of
      the Basic Multilingual Plane and two for an astral one. */
  function Utf16Length(s: string): (n: nat)
    ensures |s| <= n <= 2 * |s|
    ensures n == |s| <==> forall i :: 0 <= i < |s| ==> !IsAstral(s[i])
    ensures n == 2 * |s| <==> forall i :: 0 <= i < |s| ==> IsAstral(s[i])
    decreases |s|
  {
    if s == [] then 0
    else
      var n := (if IsAstral(s[0]) then 2 else 1) + Utf16Length(s[1..]);
      assert forall i :: 1 <= i < |s| ==> s[i] == s[1..][i - 1];
      n
  }

  /** Code units add up over a concatenation. */
  lemma {:induction false} Utf16LengthAppend(a: string, b: string)
    ensures Utf16Length(a + b) == Utf16Length(a) + Utf16Length(b)
    decreases |a|
  {
    if a == [] {
      assert a + b == b;
    } else {
      assert (a + b)[0] == a[0];
      assert (a + b)[1..] == a[1..] + b;
      Utf16LengthAppend(a[1..], b);
    }
  }

  /** An infix has no more code units than the whole string. */
  lemma Utf16LengthInfix(s: string, t: string, lo: nat, hi: nat)
    requires lo <= hi <= |s| && t == s[lo..hi]
    ensures Utf16Length(t) <= Utf16Length(s)
  {
    assert s == s[..lo] + s[lo..hi] + s[hi..];
    Utf16LengthAppend(s[..lo], s[lo..hi]);
    Utf16LengthAppend(s[..lo] + s[lo..hi], s[hi..]);
  }

  /** Trimming never adds code units. */
  lemma TrimUtf16Length(s: string)
    ensures Utf16Length(Trim(s)) <= Utf16Length(s)
  {
    var r, k := Trim(s), Lead(s);
    Utf16LengthInfix(s, r, k, k + |r|);
  }

  /** ASCII case folding of one character. */
  function LowerChar(c: char): (r: char)
    ensures !('A' <= r <= 'Z')
    ensures r != c ==> 'A' <= c <= 'Z' && r as int == c as int + 32
  {
    if 'A' <= c <= 'Z' then (c as int + 32) as char else c
  }

  /** `String.prototype.toLowerCase`, restricted to ASCII letters. */
  function Lower(s: string): (r: string)
    ensures |r| == |s|
    ensures forall i :: 0 <= i < |s| ==> r[i] == LowerChar(s[i])
  {
    seq(|s|, i requires 0 <= i < |s| => LowerChar(s[i]))
  }

  lemma LowerIdempotent(s: string)
    ensures Lower(Lower(s)) == Lower(s)
  {
  }

  /** `n` sits in `h` at offset `i`. */
  predicate OccursAt(h: string, n: string, i: nat) {
    i + |n| <= |h| && h[i..i + |n|] == n
  }

  /** The reference meaning of substring search: some offset holds `n`. */
  ghost predicate Contains(h: string, n: string) {
    exists i: nat :: OccursAt(h, n, i)
  }

  /** `String.prototype.includes`, as a left-to-right scan of `h`. */
  function Includes(h: string, n: string): bool
    decreases |h|
  {
    if |h| < |n| then false
    else if h[..|n|] == n then true
    else Includes(h[1..], n)
  }

  /** The scan finds `n` exactly when `n` occurs somewhere in `h`. */
  lemma {:induction false} IncludesIff(h: string, n: string)
    ensures Includes(h, n) <==> Contains(h, n)
    decreases |h|
  {
    if |h| < |n| {
      assert forall i: nat :: !OccursAt(h, n, i);
    } else if h[..|n|] == n {
      assert OccursAt(h, n, 0);
    } else {
      IncludesIff(h[1..], n);
      if Includes(h[1..], n) {
        var i: nat :| OccursAt(h[1..], n, i);
        assert h[i + 1..i + 1 + |n|] == h[1..][i..i + |n|];
        assert OccursAt(h, n, i + 1);
      }
      if Contains(h, n) {
        var i: nat :| OccursAt(h, n, i);
        assert i != 0;
        assert h[1..][i - 1..i - 1 + |n|] == h[i..i + |n|];
        assert OccursAt(h[1..], n, i - 1);
      }
    }
  }

  /** Lowercasing never creates white space, so a string without white space
      holds no needle that starts with white space. */
  lemma SpaceFreeExcludes(h: string, n: string)
    requires NoSpace(h) && n != [] && IsSpace(n[0])
    ensures !Contains(Lower(h), n)
  {
  }

  predicate IsDigit(c: char) {
    '0' <= c <= '9'
  }

  predicate AllDigits(s: string) {
    forall i :: 0 <= i < |s| ==> IsDigit(s[i])
  }

  function DigitChar(d: nat): (c: char)
    requires d < 10
    ensures IsDigit(c)
  {
    ('0' as int + d) as char
  }

  /** `String(n)` for a non-negative integer below 10^21: its decimal digits. */
  function NatToDecimal(n: nat): (r: string)
    ensures |r| >= 1 && AllDigits(r)
    decreases n
  {
    if n < 10 then [DigitChar(n)] else NatToDecimal(n / 10) + [DigitChar(n % 10)]
  }

  /** The number a string of decimal digits denotes. */
  function DecimalValue(s: string): nat
    requires AllDigits(s)
  {
    if s == [] then 0 else DecimalValue(s[..|s| - 1]) * 10 + (s[|s| - 1] as int - '0' as int)
  }

  /** Reading back a rendered number gives the number. */
  lemma {:induction false} DecimalRoundTrip(n: nat)
    ensures DecimalValue(NatToDecimal(n)) == n
    decreases n
  {
    if n >= 10 {
      var r := NatToDecimal(n);
      DecimalRoundTrip(n / 10);
      assert r[..|r| - 1] == NatToDecimal(n / 10);
    }
  }

  /** Distinct numbers render as distinct strings. */
  lemma DecimalInjective(n: nat, m: nat)
    requires NatToDecimal(n) == NatToDecimal(m)
    ensures n == m
  {
    DecimalRoundTrip(n);
    DecimalRoundTrip(m);
  }
}
