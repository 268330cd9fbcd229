/** The string operations of Python that the log tools lean on: character
    classes, int(s, 16) and int(s), str.split() on whitespace, str.split(sep),
    slicing with clamped bounds and str.replace. Each comes with the partner
    that shows what it computes (a printer it inverts, a joiner it undoes). */
module Text {
  import opened Outcomes

  // ---------------------------------------------------------------------------
  // Digits and numerals

  predicate IsDigit(c: char) { '0' <= c <= '9' }

  predicate IsHexDigit(c: char) { IsDigit(c) || 'a' <= c <= 'f' || 'A' <= c <= 'F' }

  /** The value of one hexadecimal digit (either case). */
  function DigitValue(c: char): (v: nat)
    requires IsHexDigit(c)
    ensures v < 16
    ensures IsDigit(c) <==> v < 10
  {
    if IsDigit(c) then c as int - '0' as int
    else if 'a' <= c <= 'f' then c as int - 'a' as int + 10
    else c as int - 'A' as int + 10
  }

  predicate AllDigits(s: string) { forall k :: 0 <= k < |s| ==> IsDigit(s[k]) }

  /** Every character is a digit of the given base (10 or 16 here). */
  predicate AllDigitsOf(s: string, base: nat) {
    forall k :: 0 <= k < |s| ==> IsHexDigit(s[k]) && DigitValue(s[k]) < base
  }

  function Pow(b: nat, e: nat): nat {
    if e == 0 then 1 else b * Pow(b, e - 1)
  }

  /** The value of a numeral read most significant digit first. */
  function Value(s: string, base: nat): (v: nat)
    requires AllDigitsOf(s, base)
    decreases |s|
  {
    if s == [] then 0 else base * Value(s[..|s| - 1], base) + DigitValue(s[|s| - 1])
  }

  lemma MulMono(a: nat, b: nat, c: nat)
    requires b <= c
    ensures a * b <= a * c
  {
  }

  /** A numeral of w digits in base b is below b to the w. */
  lemma {:induction false} ValueBound(s: string, base: nat)
    requires AllDigitsOf(s, base)
    ensures Value(s, base) < Pow(base, |s|)
    decreases |s|
  {
    if s != [] {
      var init := s[..|s| - 1];
      ValueBound(init, base);
      DigitStep(base, Value(init, base), DigitValue(s[|s| - 1]), Pow(base, |s| - 1));
    }
  }

  /** Appending a digit d below the base to a value below p stays below base * p. */
  lemma DigitStep(base: nat, v: nat, d: nat, p: nat)
    requires d < base && v < p
    ensures base * v + d < base * p
  {
    MulMono(base, v + 1, p);
    assert base * (v + 1) == base * v + base;
  }

  /** Python's int(s, 16) on a text without sign, prefix, blanks or underscores. */
  function ParseHex(s: string): (r: Option<nat>)
    ensures r.Some? <==> s != [] && AllDigitsOf(s, 16)
    ensures r.Some? ==> r.value < Pow(16, |s|)
  {
    if s != [] && AllDigitsOf(s, 16) then ValueBound(s, 16); Some(Value(s, 16)) else None
  }

  /** The decimal value of a text of ASCII digits. */
  function DecValue(s: string): (v: nat)
    requires AllDigits(s)
    ensures v < Pow(10, |s|)
  {
    assert AllDigitsOf(s, 10) by {
      forall k | 0 <= k < |s| ensures IsHexDigit(s[k]) && DigitValue(s[k]) < 10 { }
    }
    ValueBound(s, 10);
    Value(s, 10)
  }

  /** The digit character of d: '0'..'9', then upper-case 'A'..'F'. */
  function DigitChar(d: nat): (c: char)
    requires d < 16
    ensures IsHexDigit(c) && DigitValue(c) == d
  {
    if d < 10 then ('0' as int + d) as char else ('A' as int + d - 10) as char
  }

  /** The numeral of n in exactly w digits (leading zeros, upper-case letters). */
  function Numeral(n: nat, base: nat, w: nat): (s: string)
    requires 2 <= base <= 16
    ensures |s| == w
    ensures AllDigitsOf(s, base)
  {
    if w == 0 then [] else Numeral(n / base, base, w - 1) + [DigitChar(n % base)]
  }

  lemma PowPositive(b: nat, e: nat)
    requires b >= 1
    ensures Pow(b, e) >= 1
  {
    if e > 0 { PowPositive(b, e - 1); }
  }

  lemma DivBound(n: nat, b: nat, p: nat)
    requires b > 0 && n < b * p
    ensures n / b < p
  {
  }

  lemma DivBounds(n: nat, b: nat)
    requires b > 0
    ensures 0 <= n / b && 0 <= n % b < b
  {
  }

  lemma DivMod(n: nat, b: nat)
    requires b > 0
    ensures b * (n / b) + n % b == n
  {
  }

  /** Reading back a numeral gives the number, when it fits in the width. */
  lemma {:induction false} NumeralValue(n: nat, base: nat, w: nat)
    requires 2 <= base <= 16
    requires n < Pow(base, w)
    ensures Value(Numeral(n, base, w), base) == n
    decreases w
  {
    if w > 0 {
      DivBounds(n, base);
      var q, d := n / base, n % base;
      var s := Numeral(n, base, w);
      assert Value(s, base) == base * q + d by {
        DivStep(n, base, w);
        NumeralValue(q, base, w - 1);
        NumeralLast(n, base, w);
        ValueStep(s, base, q, d);
      }
      assert base * q + d == n by { DivMod(n, base); }
    }
  }

  /** The last digit of a numeral is n % base, the digits before it the
      numeral of n / base. */
  lemma NumeralLast(n: nat, base: nat, w: nat)
    requires 2 <= base <= 16 && 0 < w
    ensures Numeral(n, base, w)[..w - 1] == Numeral(n / base, base, w - 1)
    ensures DigitValue(Numeral(n, base, w)[w - 1]) == n % base
  {
  }

  lemma DivStep(n: nat, base: nat, w: nat)
    requires 2 <= base && 0 < w
    requires n < Pow(base, w)
    ensures n / base < Pow(base, w - 1)
    ensures base * (n / base) + n % base == n
  {
    DivBound(n, base, Pow(base, w - 1));
    DivMod(n, base);
  }

  lemma ValueStep(s: string, base: nat, q: nat, d: nat)
    requires s != [] && AllDigitsOf(s, base)
    requires Value(s[..|s| - 1], base) == q
    requires DigitValue(s[|s| - 1]) == d
    ensures Value(s, base) == base * q + d
  {
  }

  /** int(s, 16) inverts the fixed-width hexadecimal printer. */
  lemma ParseHexNumeral(n: nat, w: nat)
    requires 0 < w && n < Pow(16, w)
    ensures ParseHex(Numeral(n, 16, w)) == Some(n)
  {
    NumeralValue(n, 16, w);
  }

  /** The w-digit hexadecimal numeral of n stands at position i of s. */
  predicate HexAt(s: string, i: nat, w: nat, n: nat)
    requires 0 < w
  {
    i + w <= |s| && s[i..i + w] == Numeral(n, 16, w)
  }

  /** int(s[i:i+w], 16) reads back a numeral standing at position i. */
  lemma ParseHexAt(s: string, i: nat, w: nat, n: nat)
    requires 0 < w && n < Pow(16, w) && HexAt(s, i, w, n)
    ensures ParseHex(Slice(s, i, i + w)) == Some(n)
  {
    ParseHexNumeral(n, w);
  }

  /** A numeral stays in place, shifted by what is put in front of it. */
  lemma HexAtShift(pre: string, s: string, post: string, i: nat, w: nat, n: nat)
    requires 0 < w && HexAt(s, i, w, n)
    ensures HexAt(pre + s + post, |pre| + i, w, n)
  {
    assert (pre + s + post)[|pre| + i..|pre| + i + w] == s[i..i + w];
  }

  /** The low digit of a two-digit numeral of a value below 16 is its
      one-digit numeral. */
  lemma HexAtLowDigit(s: string, i: nat, n: nat)
    requires n < 16 && HexAt(s, i, 2, n)
    ensures HexAt(s, i + 1, 1, n)
  {
    assert Numeral(n, 16, 2) == Numeral(0, 16, 1) + [DigitChar(n)];
    assert s[i + 1..i + 2] == s[i..i + 2][1..];
  }

  /** A decimal numeral is all ASCII digits, and DecValue reads it back. */
  lemma DecNumeral(n: nat, w: nat)
    requires n < Pow(10, w)
    ensures AllDigits(Numeral(n, 10, w))
    ensures DecValue(Numeral(n, 10, w)) == n
  {
    var s := Numeral(n, 10, w);
    forall k | 0 <= k < |s| ensures IsDigit(s[k]) {
      assert IsHexDigit(s[k]) && DigitValue(s[k]) < 10;
    }
    NumeralValue(n, 10, w);
  }

  // ---------------------------------------------------------------------------
  // Whitespace and str.split()

  /** The characters Python's str.isspace accepts, hence str.split() splits on. */
  predicate IsSpace(c: char) {
    || ('\t' <= c <= '\r')
    || ('\U{1c}' <= c <= ' ')
    || c == '\U{85}' || c == '\U{a0}' || c == '\U{1680}'
    || ('\U{2000}' <= c <= '\U{200a}')
    || c == '\U{2028}' || c == '\U{2029}' || c == '\U{202f}' || c == '\U{205f}' || c == '\U{3000}'
  }

  predicate NoSpace(s: string) { forall k :: 0 <= k < |s| ==> !IsSpace(s[k]) }

  /** A field that str.split() can return: non-empty, without whitespace. */
  predicate IsToken(t: string) { t != [] && NoSpace(t) }

  predicate AllSpace(s: string) { forall k :: 0 <= k < |s| ==> IsSpace(s[k]) }

  /** The length of the run of non-blank characters that starts s. */
  function TokenLength(s: string): (n: nat)
    ensures n <= |s|
    ensures NoSpace(s[..n])
    ensures n < |s| ==> IsSpace(s[n])
  {
    if s == [] || IsSpace(s[0]) then 0
    else
      var m := TokenLength(s[1..]);
      assert s[..1 + m] == [s[0]] + s[1..][..m];
      1 + m
  }

  /** Python's s.split(): the maximal runs of non-blank characters, in order. */
  function Split(s: string): (r: seq<string>)
    ensures forall k :: 0 <= k < |r| ==> IsToken(r[k])
    decreases |s|
  {
    if s == [] then []
    else if IsSpace(s[0]) then Split(s[1..])
    else
      var n := TokenLength(s);
      [s[..n]] + Split(s[n..])
  }

  /** Python's " ".join(tokens). */
  function JoinSpace(ts: seq<string>): string {
    if ts == [] then []
    else if |ts| == 1 then ts[0]
    else ts[0] + " " + JoinSpace(ts[1..])
  }

  lemma {:induction false} TokenLengthOfToken(t: string, x: string)
    requires IsToken(t)
    requires x == [] || IsSpace(x[0])
    ensures TokenLength(t + x) == |t|
  {
    if |t| == 1 {
      assert (t + x)[1..] == x;
    } else {
      assert (t + x)[1..] == t[1..] + x;
      TokenLengthOfToken(t[1..], x);
    }
  }

  /** A token followed by a blank (or by nothing) is split off whole. */
  lemma SplitToken(t: string, x: string)
    requires IsToken(t)
    requires x == [] || IsSpace(x[0])
    ensures Split(t + x) == [t] + Split(x)
  {
    TokenLengthOfToken(t, x);
    assert (t + x)[..|t|] == t;
    assert (t + x)[|t|..] == x;
  }

  lemma {:induction false} SplitAllSpace(w: string)
    requires AllSpace(w)
    ensures Split(w) == []
  {
    if w != [] {
      SplitAllSpace(w[1..]);
    }
  }

  /** Splitting joined tokens (followed by any trailing blanks, such as the
      line's newline) gives back the tokens. */
  lemma {:induction false} SplitJoin(ts: seq<string>, w: string)
    requires forall k :: 0 <= k < |ts| ==> IsToken(ts[k])
    requires AllSpace(w)
    ensures Split(JoinSpace(ts) + w) == ts
  {
    if ts == [] {
      assert JoinSpace(ts) + w == w;
      SplitAllSpace(w);
    } else if |ts| == 1 {
      SplitAllSpace(w);
      SplitToken(ts[0], w);
    } else {
      var rest := JoinSpace(ts[1..]) + w;
      assert JoinSpace(ts) + w == ts[0] + (" " + rest);
      SplitToken(ts[0], " " + rest);
      assert (" " + rest)[1..] == rest;
      SplitJoin(ts[1..], w);
      assert ts == [ts[0]] + ts[1..];
    }
  }

  /** " ".join(s.split()).split() is s.split(): the normalisation the log
      parser applies before splitting changes nothing. */
  lemma NormaliseSplit(s: string)
    ensures Split(JoinSpace(Split(s))) == Split(s)
  {
    SplitJoin(Split(s), []);
    assert JoinSpace(Split(s)) + [] == JoinSpace(Split(s));
  }

  /** When s starts with m non-blank characters, its first field starts with them. */
  lemma FirstToken(s: string, m: nat)
    requires 0 < m <= |s|
    requires NoSpace(s[..m])
    ensures |Split(s)| > 0 && |Split(s)[0]| >= m && Split(s)[0][..m] == s[..m]
  {
    assert !IsSpace(s[0]) by { assert s[..m][0] == s[0]; }
    var n := TokenLength(s);
    assert n >= m;
  }

  // ---------------------------------------------------------------------------
  // str.split(sep) with a one-character separator

  function IndexOf(s: string, c: char): (i: nat)
    requires c in s
    ensures i < |s| && s[i] == c && c !in s[..i]
  {
    if s[0] == c then 0
    else
      var j := IndexOf(s[1..], c);
      assert s[..1 + j] == [s[0]] + s[1..][..j];
      1 + j
  }

  /** Python's s.split(c): the texts between the occurrences of c. */
  function SplitOn(s: string, c: char): (r: seq<string>)
    ensures |r| >= 1
    ensures forall k :: 0 <= k < |r| ==> c !in r[k]
    decreases |s|
  {
    if c in s then
      var i := IndexOf(s, c);
      [s[..i]] + SplitOn(s[i + 1..], c)
    else [s]
  }

  /** Python's c.join(parts). */
  function JoinOn(parts: seq<string>, c: char): string
    requires |parts| >= 1
  {
    if |parts| == 1 then parts[0] else parts[0] + [c] + JoinOn(parts[1..], c)
  }

  /** Splitting on c loses nothing: joining the parts with c gives s back. */
  lemma {:induction false} JoinSplitOn(s: string, c: char)
    ensures JoinOn(SplitOn(s, c), c) == s
    decreases |s|
  {
    if c in s {
      var i := IndexOf(s, c);
      var rest := SplitOn(s[i + 1..], c);
      assert SplitOn(s, c) == [s[..i]] + rest;
      assert ([s[..i]] + rest)[1..] == rest;
      assert JoinOn(SplitOn(s, c), c) == s[..i] + [c] + JoinOn(rest, c);
      JoinSplitOn(s[i + 1..], c);
      assert s == s[..i] + [c] + s[i + 1..];
    }
  }

  /** Two texts without the separator, joined by it, split back into the two. */
  lemma SplitOnPair(a: string, b: string, c: char)
    requires c !in a && c !in b
    ensures SplitOn(a + [c] + b, c) == [a, b]
  {
    var s := a + [c] + b;
    assert s[|a|] == c;
    var i := IndexOf(s, c);
    assert i == |a|;
    assert s[..i] == a;
    assert s[i + 1..] == b;
  }

  // ---------------------------------------------------------------------------
  // Slicing and str.replace

  /** Python's s[i:j] for non-negative bounds: clamped to the text, empty when
      the bounds cross. */
  function Slice(s: string, i: nat, j: nat): (r: string)
    ensures j <= |s| && i <= j ==> r == s[i..j]
    ensures |s| <= i || j <= i ==> r == []
    ensures i <= |s| <= j ==> r == s[i..]
  {
    var hi := if j < |s| then j else |s|;
    if i < hi then s[i..hi] else []
  }

  /** pat occurs in s starting at k. */
  predicate OccursAt(s: string, pat: string, k: nat) {
    k + |pat| <= |s| && s[k..k + |pat|] == pat
  }

  /** Python's s.replace(pat, rep): every occurrence, scanned left to right
      without overlap, is replaced. */
  function ReplaceAll(s: string, pat: string, rep: string): string
    requires pat != []
    decreases |s|
  {
    if |s| < |pat| then s
    else if s[..|pat|] == pat then rep + ReplaceAll(s[|pat|..], pat, rep)
    else [s[0]] + ReplaceAll(s[1..], pat, rep)
  }

  /** Dropping the first character keeps "pat occurs only as the suffix". */
  lemma OnlySuffixTail(s: string, pat: string)
    requires s != []
    requires forall k :: 0 <= k < |s| ==> !OccursAt(s + pat, pat, k)
    ensures forall k :: 0 <= k < |s| - 1 ==> !OccursAt(s[1..] + pat, pat, k)
  {
    var t := s + pat;
    assert t[1..] == s[1..] + pat;
    forall k | 0 <= k < |s| - 1 ensures !OccursAt(s[1..] + pat, pat, k) {
      assert !OccursAt(t, pat, k + 1);
      assert t[1..][k..k + |pat|] == t[k + 1..k + 1 + |pat|];
    }
  }

  /** When pat occurs in s + pat only as its suffix, replacing it swaps the suffix. */
  lemma {:induction false} ReplaceSuffix(s: string, pat: string, rep: string)
    requires pat != []
    requires forall k :: 0 <= k < |s| ==> !OccursAt(s + pat, pat, k)
    ensures ReplaceAll(s + pat, pat, rep) == s + rep
    decreases |s|
  {
    var t := s + pat;
    if s == [] {
      assert t == pat;
      assert t[..|pat|] == pat;
      assert t[|pat|..] == [];
    } else {
      assert !OccursAt(t, pat, 0);
      assert t[..|pat|] != pat;
      assert ReplaceAll(t, pat, rep) == [t[0]] + ReplaceAll(t[1..], pat, rep);
      assert t[1..] == s[1..] + pat;
      OnlySuffixTail(s, pat);
      ReplaceSuffix(s[1..], pat, rep);
      assert s == [s[0]] + s[1..];
    }
  }

  /** If the first character of pat never appears in s, pat occurs in s + pat
      only as its suffix. */
  lemma OnlySuffixOccurrence(s: string, pat: string)
    requires pat != [] && pat[0] !in s
    ensures forall k :: 0 <= k < |s| ==> !OccursAt(s + pat, pat, k)
  {
    forall k | 0 <= k < |s| ensures !OccursAt(s + pat, pat, k) {
      assert (s + pat)[k] == s[k];
    }
  }
}
