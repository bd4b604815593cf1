/** Text and hex-string primitives shared by every part of the model: the
    handful of Python `str`/`bytes` operations the capture scripts use
    (`startswith`, `endswith`, `in`, `find`, `strip`, `upper`, `lower`,
    `bytes.hex()` and `bytes.fromhex`), stated over `seq<char>` and bytes. */
module HexText {

  datatype Option<T> = None | Some(value: T)

  type byte = x: int | 0 <= x < 256

  // ---------------------------------------------------------------------
  // Prefix, suffix and substring tests
  // ---------------------------------------------------------------------

  /** Python `s.startswith(p)`. */
  predicate StartsWith<T(==)>(s: seq<T>, p: seq<T>) {
    |p| <= |s| && s[..|p|] == p
  }

  /** Python `s.endswith(p)`. */
  predicate EndsWith<T(==)>(s: seq<T>, p: seq<T>) {
    |p| <= |s| && s[|s| - |p|..] == p
  }

  /** `pat` occurs in `s` starting at index `i`. */
  predicate OccursAt<T(==)>(s: seq<T>, pat: seq<T>, i: nat) {
    i + |pat| <= |s| && s[i..i + |pat|] == pat
  }

  /** Python `s.find(pat, from)` for `from <= len(s)`: the lowest index at or
      after `from` where `pat` occurs, or `None` for Python's -1. */
  function Find<T(==)>(s: seq<T>, pat: seq<T>, from: nat): (r: Option<nat>)
    requires from <= |s|
    ensures r.Some? ==> from <= r.value && OccursAt(s, pat, r.value)
    ensures r.Some? ==> forall j :: from <= j < r.value ==> !OccursAt(s, pat, j)
    ensures r.None? ==> forall j :: from <= j ==> !OccursAt(s, pat, j)
    decreases |s| - from
  {
    if OccursAt(s, pat, from) then Some(from)
    else if from + |pat| >= |s| then None
    else Find(s, pat, from + 1)
  }

  /** Python `pat in s`. */
  predicate Contains<T(==)>(s: seq<T>, pat: seq<T>) {
    Find(s, pat, 0).Some?
  }

  lemma ContainsIff<T>(s: seq<T>, pat: seq<T>)
    ensures Contains(s, pat) <==> exists i: nat :: OccursAt(s, pat, i)
  {
    if Contains(s, pat) {
      assert OccursAt(s, pat, Find(s, pat, 0).value);
    }
  }

  lemma AppendAssoc<T>(a: seq<T>, b: seq<T>, c: seq<T>)
    ensures (a + b) + c == a + (b + c)
  {
  }

  /** A slice of a slice is a slice of the whole sequence. */
  lemma SliceOfSlice<T>(s: seq<T>, lo: nat, hi: nat, a: nat, b: nat)
    requires lo <= hi <= |s| && a <= b <= hi - lo
    ensures s[lo..hi][a..b] == s[lo + a..lo + b]
  {
    var t := s[lo..hi];
    var x, y := t[a..b], s[lo + a..lo + b];
    forall k | 0 <= k < |x| ensures x[k] == y[k] {
      assert x[k] == t[a + k] && y[k] == s[lo + a + k];
    }
  }

  /** An occurrence inside a slice is an occurrence in the whole sequence. */
  lemma OccursInSlice<T>(s: seq<T>, lo: nat, hi: nat, pat: seq<T>, i: nat)
    requires lo <= hi <= |s|
    requires OccursAt(s[lo..hi], pat, i)
    ensures OccursAt(s, pat, lo + i)
  {
    SliceOfSlice(s, lo, hi, i, i + |pat|);
  }

  /** An occurrence with none before it, at or after `from`, is what `find`
      returns. */
  lemma FindIs<T>(s: seq<T>, pat: seq<T>, from: nat, i: nat)
    requires from <= i && from <= |s| && OccursAt(s, pat, i)
    requires forall j :: from <= j < i ==> !OccursAt(s, pat, j)
    ensures Find(s, pat, from) == Some(i)
  {
  }

  /** Occurrences inside a slice are exactly those of the whole sequence
      that lie within the slice's bounds. */
  lemma OccursInSliceIff<T>(s: seq<T>, lo: nat, hi: nat, pat: seq<T>, i: nat)
    requires lo <= hi <= |s|
    ensures OccursAt(s[lo..hi], pat, i) <==> lo + i + |pat| <= hi && OccursAt(s, pat, lo + i)
  {
    if lo + i + |pat| <= hi {
      SliceOfSlice(s, lo, hi, i, i + |pat|);
    }
  }

  /** True iff some pattern of `pats` occurs in `s`: the loop
      `for p in pats: if p in s: return True` followed by `return False`. */
  function ContainsAny(s: string, pats: seq<string>): (r: bool)
    ensures r <==> exists k :: 0 <= k < |pats| && Contains(s, pats[k])
  {
    if pats == [] then false
    else Contains(s, pats[0]) || ContainsAny(s, pats[1..])
  }

  /** Python `s.startswith((p0, p1, ...))`. */
  function StartsWithAny(s: string, prefixes: seq<string>): (r: bool)
    ensures r <==> exists k :: 0 <= k < |prefixes| && StartsWith(s, prefixes[k])
  {
    if prefixes == [] then false
    else StartsWith(s, prefixes[0]) || StartsWithAny(s, prefixes[1..])
  }

  // ---------------------------------------------------------------------
  // Characters
  // ---------------------------------------------------------------------

  /** The character class `[0-9A-Fa-f]`. */
  predicate IsHexDigit(c: char) {
    '0' <= c <= '9' || 'A' <= c <= 'F' || 'a' <= c <= 'f'
  }

  /** The character class `[0-9A-F]`. */
  predicate IsUpperHexDigit(c: char) {
    '0' <= c <= '9' || 'A' <= c <= 'F'
  }

  predicate AllHex(s: string) {
    forall i :: 0 <= i < |s| ==> IsHexDigit(s[i])
  }

  predicate AllUpperHex(s: string) {
    forall i :: 0 <= i < |s| ==> IsUpperHexDigit(s[i])
  }

  /** The characters Python's `str.strip()` removes. */
  predicate IsSpace(c: char) {
    c == ' ' || '\t' <= c <= '\r' || '\U{1C}' <= c <= '\U{1F}' || c == '\U{85}'
    || c == '\U{A0}' || c == '\U{1680}' || '\U{2000}' <= c <= '\U{200A}'
    || c == '\U{2028}' || c == '\U{2029}' || c == '\U{202F}' || c == '\U{205F}'
    || c == '\U{3000}'
  }

  function UpperChar(c: char): char {
    if 'a' <= c <= 'z' then (c as int - 32) as char else c
  }

  function LowerChar(c: char): char {
    if 'A' <= c <= 'Z' then (c as int + 32) as char else c
  }

  /** Python `s.upper()` on ASCII letters. */
  function Upper(s: string): (r: string)
    ensures |r| == |s|
    ensures forall i :: 0 <= i < |s| ==> r[i] == UpperChar(s[i])
  {
    if s == [] then [] else [UpperChar(s[0])] + Upper(s[1..])
  }

  /** Python `s.lower()` on ASCII letters. */
  function Lower(s: string): (r: string)
    ensures |r| == |s|
    ensures forall i :: 0 <= i < |s| ==> r[i] == LowerChar(s[i])
  {
    if s == [] then [] else [LowerChar(s[0])] + Lower(s[1..])
  }

  /** Upper-casing works character by character. */
  lemma {:induction false} UpperAppend(a: string, b: string)
    ensures Upper(a + b) == Upper(a) + Upper(b)
    decreases |a|
  {
    if a == [] {
      assert a + b == b;
    } else {
      assert (a + b)[0] == a[0];
      assert (a + b)[1..] == a[1..] + b;
      UpperAppend(a[1..], b);
    }
  }

  lemma UpperOfHex(s: string)
    requires AllHex(s)
    ensures AllUpperHex(Upper(s))
  {
  }

  lemma UpperOfUpperHex(s: string)
    requires AllUpperHex(s)
    ensures Upper(s) == s
  {
  }

  /** Python `s.lstrip()`. */
  function LStrip(s: string): (r: string)
    ensures |r| <= |s| && r == s[|s| - |r|..]
    ensures r == [] || !IsSpace(r[0])
    ensures forall i :: 0 <= i < |s| - |r| ==> IsSpace(s[i])
  {
    if s != [] && IsSpace(s[0]) then LStrip(s[1..]) else s
  }

  /** Python `s.rstrip()`. */
  function RStrip(s: string): (r: string)
    ensures |r| <= |s| && r == s[..|r|]
    ensures r == [] || !IsSpace(r[|r| - 1])
    ensures forall i :: |r| <= i < |s| ==> IsSpace(s[i])
  {
    if s != [] && IsSpace(s[|s| - 1]) then RStrip(s[..|s| - 1]) else s
  }

  /** Everything before `lo` and from `hi` on is whitespace. */
  predicate SpaceOutside(s: string, lo: nat, hi: nat) {
    (forall i :: 0 <= i < lo && i < |s| ==> IsSpace(s[i])) &&
    (forall i :: hi <= i < |s| ==> IsSpace(s[i]))
  }

  /** Cutting a whitespace suffix off `s` (giving `t`) and then a
      whitespace prefix off `t` (giving `u`) leaves a slice of `s` with
      only whitespace outside it. */
  lemma CutBothEnds(s: string, t: string, u: string)
    requires |t| <= |s| && t == s[..|t|]
    requires forall i :: |t| <= i < |s| ==> IsSpace(s[i])
    requires |u| <= |t| && u == t[|t| - |u|..]
    requires forall i :: 0 <= i < |t| - |u| ==> IsSpace(t[i])
    ensures u == s[|t| - |u|..|t|] && SpaceOutside(s, |t| - |u|, |t|)
  {
    assert forall i :: 0 <= i < |t| ==> t[i] == s[i];
  }

  /** Python `s.strip()`: only leading and trailing whitespace goes. */
  function Strip(s: string): (r: string)
    ensures r == [] || (!IsSpace(r[0]) && !IsSpace(r[|r| - 1]))
    ensures exists lo: nat, hi: nat :: lo <= hi <= |s| && r == s[lo..hi] && SpaceOutside(s, lo, hi)
  {
    var t := RStrip(s);
    var u := LStrip(t);
    CutBothEnds(s, t, u);
    u
  }

  lemma {:induction false} StripNoSpace(s: string)
    requires forall i :: 0 <= i < |s| ==> !IsSpace(s[i])
    ensures Strip(s) == s
  {
  }

  // ---------------------------------------------------------------------
  // Hex encoding of bytes
  // ---------------------------------------------------------------------

  /** The upper-case hex digit for a value below 16. */
  function HexDigit(n: nat): (c: char)
    requires n < 16
    ensures IsUpperHexDigit(c)
  {
    if n < 10 then ('0' as int + n) as char else ('A' as int + n - 10) as char
  }

  /** The value of a hex digit, upper or lower case. */
  function DigitValue(c: char): (n: nat)
    requires IsHexDigit(c)
    ensures n < 16
  {
    if '0' <= c <= '9' then c as int - '0' as int
    else if 'A' <= c <= 'F' then c as int - 'A' as int + 10
    else c as int - 'a' as int + 10
  }

  lemma DigitRoundTrip(n: nat)
    requires n < 16
    ensures DigitValue(HexDigit(n)) == n
  {
  }

  lemma DigitValueUpper(c: char)
    requires IsHexDigit(c)
    ensures HexDigit(DigitValue(c)) == UpperChar(c)
  {
  }

  /** `f"{b:02X}"`: two upper-case hex digits. */
  function Hex2(b: byte): (r: string)
    ensures |r| == 2 && AllUpperHex(r)
  {
    [HexDigit(b / 16), HexDigit(b % 16)]
  }

  /** `bytes.hex().upper()`. */
  function ToHex(bs: seq<byte>): (r: string)
    ensures |r| == 2 * |bs|
  {
    if bs == [] then [] else Hex2(bs[0]) + ToHex(bs[1..])
  }

  lemma {:induction false} ToHexIsHex(bs: seq<byte>)
    ensures AllUpperHex(ToHex(bs)) && AllHex(ToHex(bs))
  {
    if bs != [] {
      ToHexIsHex(bs[1..]);
      var h, t := Hex2(bs[0]), ToHex(bs[1..]);
      forall i | 0 <= i < |h + t| ensures IsUpperHexDigit((h + t)[i]) {
        if i >= 2 {
          assert (h + t)[i] == t[i - 2];
        }
      }
    }
  }

  lemma {:induction false} ToHexAppend(a: seq<byte>, b: seq<byte>)
    ensures ToHex(a + b) == ToHex(a) + ToHex(b)
  {
    if a == [] {
      assert a + b == b;
    } else {
      assert (a + b)[1..] == a[1..] + b;
      ToHexAppend(a[1..], b);
    }
  }

  /** `bytes.fromhex(s)` for an even-length string of hex digits. */
  function FromHex(s: string): (r: seq<byte>)
    requires AllHex(s) && |s| % 2 == 0
    ensures 2 * |r| == |s|
  {
    if s == [] then [] else [16 * DigitValue(s[0]) + DigitValue(s[1])] + FromHex(s[2..])
  }

  /** Decoding the upper-case encoding gives back the bytes. */
  lemma {:induction false} FromHexToHex(bs: seq<byte>)
    ensures AllHex(ToHex(bs))
    ensures FromHex(ToHex(bs)) == bs
  {
    ToHexIsHex(bs);
    if bs != [] {
      var h := ToHex(bs);
      assert h[2..] == ToHex(bs[1..]);
      DigitRoundTrip(bs[0] / 16);
      DigitRoundTrip(bs[0] % 16);
      FromHexToHex(bs[1..]);
    }
  }

  /** Encoding decoded text gives back the text, upper-cased. */
  lemma {:induction false} ToHexFromHex(s: string)
    requires AllHex(s) && |s| % 2 == 0
    ensures ToHex(FromHex(s)) == Upper(s)
  {
    if s != [] {
      var b: byte := 16 * DigitValue(s[0]) + DigitValue(s[1]);
      assert b / 16 == DigitValue(s[0]) && b % 16 == DigitValue(s[1]);
      DigitValueUpper(s[0]);
      DigitValueUpper(s[1]);
      ToHexFromHex(s[2..]);
      assert s[1..][1..] == s[2..];
      assert Upper(s[1..]) == [UpperChar(s[1])] + Upper(s[2..]);
      assert Upper(s) == [UpperChar(s[0])] + Upper(s[1..]);
    }
  }

  /** `str(n)` for a natural number. */
  function Decimal(n: nat): (r: string)
    ensures |r| >= 1
    ensures forall i :: 0 <= i < |r| ==> '0' <= r[i] <= '9'
  {
    if n < 10 then [('0' as int + n) as char]
    else Decimal(n / 10) + [('0' as int + n % 10) as char]
  }

  /** Keeps the characters satisfying `IsHexDigit`, in order:
      `re.sub(r'[^0-9A-Fa-f]', '', s)`. */
  function HexOnly(s: string): (r: string)
    ensures AllHex(r)
    ensures |r| <= |s|
  {
    if s == [] then []
    else (if IsHexDigit(s[0]) then [s[0]] else []) + HexOnly(s[1..])
  }

  lemma {:induction false} HexOnlyOfHex(s: string)
    requires AllHex(s)
    ensures HexOnly(s) == s
  {
    if s != [] {
      HexOnlyOfHex(s[1..]);
    }
  }

  /** A single character is kept exactly when it is a hex digit. */
  lemma HexOnlyChar(c: char)
    ensures HexOnly([c]) == (if IsHexDigit(c) then [c] else [])
  {
    assert [c][1..] == [];
  }

  /** Filtering distributes over concatenation, so the kept digits stay in
      their input order. */
  lemma {:induction false} HexOnlyAppend(a: string, b: string)
    ensures HexOnly(a + b) == HexOnly(a) + HexOnly(b)
    decreases |a|
  {
    if a == [] {
      assert a + b == b;
    } else {
      assert (a + b)[0] == a[0];
      assert (a + b)[1..] == a[1..] + b;
      HexOnlyAppend(a[1..], b);
    }
  }

  /** Every hex digit of the input survives, with its multiplicity. */
  lemma {:induction false} HexOnlyKeepsHex(s: string, c: char)
    requires IsHexDigit(c)
    ensures multiset(HexOnly(s))[c] == multiset(s)[c]
  {
    if s != [] {
      HexOnlyKeepsHex(s[1..], c);
      assert s == [s[0]] + s[1..];
    }
  }
}
