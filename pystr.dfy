// The handful of Python 2 string operations the scripts rely on, with
// Python's own edge cases: `find` answers -1 on a miss, slice bounds may be
// negative (counted from the end) and are clamped, `replace` rewrites every
// non-overlapping occurrence from left to right.
module PyStr {

  /** A slice or search bound as Python normalises it for a string of length n. */
  function Bound(i: int, n: nat): (r: nat)
    ensures r <= n
  {
    if i < 0 then (if n + i < 0 then 0 else n + i)
    else if i > n then n
    else i
  }

  /** `s[i:j]` */
  function Slice(s: string, i: int, j: int): (r: string)
    ensures |r| <= |s|
  {
    var lo, hi := Bound(i, |s|), Bound(j, |s|);
    if lo < hi then s[lo..hi] else ""
  }

  /** `s[i:]` */
  function SliceFrom(s: string, i: int): (r: string)
    ensures |r| <= |s|
  {
    Slice(s, i, |s|)
  }

  predicate OccursAt(s: string, pat: string, i: int) {
    0 <= i && i + |pat| <= |s| && s[i..i + |pat|] == pat
  }

  /** Left-to-right search for pat from position i onwards. */
  function Scan(s: string, pat: string, i: nat): (r: int)
    requires pat != "" && i <= |s|
    ensures r == -1 || (i <= r && OccursAt(s, pat, r))
    ensures forall k :: i <= k && (r == -1 || k < r) ==> !OccursAt(s, pat, k)
    decreases |s| - i
  {
    if i + |pat| > |s| then -1
    else if s[i..i + |pat|] == pat then i
    else Scan(s, pat, i + 1)
  }

  /** `s.find(pat, start)`: the first occurrence at or after the normalised start, or -1. */
  function FindFrom(s: string, pat: string, start: int): (r: int)
    requires pat != ""
    ensures r == -1 || (Bound(start, |s|) <= r && OccursAt(s, pat, r))
    ensures forall k :: Bound(start, |s|) <= k && (r == -1 || k < r) ==> !OccursAt(s, pat, k)
  {
    Scan(s, pat, Bound(start, |s|))
  }

  /** `s.find(pat)` */
  function Find(s: string, pat: string): (r: int)
    requires pat != ""
    ensures r == -1 || OccursAt(s, pat, r)
    ensures forall k :: 0 <= k && (r == -1 || k < r) ==> !OccursAt(s, pat, k)
  {
    FindFrom(s, pat, 0)
  }

  /** `pat in s` */
  predicate Contains(s: string, pat: string)
    requires pat != ""
  {
    Find(s, pat) >= 0
  }

  lemma ContainsIffOccurs(s: string, pat: string)
    requires pat != ""
    ensures Contains(s, pat) <==> exists k :: OccursAt(s, pat, k)
  {
    if !Contains(s, pat) {
      forall k ensures !OccursAt(s, pat, k) {
        if k < 0 {
        }
      }
    }
  }

  /** A prefix of s ending before the first occurrence of pat holds no occurrence of it. */
  lemma NoOccurrenceBefore(s: string, pat: string, i: int)
    requires pat != "" && 0 <= i <= |s|
    requires forall k :: 0 <= k < i ==> !OccursAt(s, pat, k)
    ensures Find(s[..i], pat) == -1
  {
    var t := s[..i];
    var r := Find(t, pat);
    if r != -1 {
      assert t[r..r + |pat|] == s[r..r + |pat|];
      assert OccursAt(s, pat, r);
    }
  }

  /** `s.split(sep)` for a non-empty separator. */
  function SplitOn(s: string, sep: string): (parts: seq<string>)
    requires sep != ""
    ensures |parts| >= 1
    ensures forall p :: p in parts ==> Find(p, sep) == -1
    decreases |s|
  {
    var i := Find(s, sep);
    if i < 0 then [s]
    else
      NoOccurrenceBefore(s, sep, i);
      [s[..i]] + SplitOn(s[i + |sep|..], sep)
  }

  /** `sep.join(parts)` */
  function Join(parts: seq<string>, sep: string): string {
    if |parts| == 0 then ""
    else if |parts| == 1 then parts[0]
    else parts[0] + sep + Join(parts[1..], sep)
  }

  /** `s.replace(pat, rep)` for a non-empty `pat`. */
  function ReplaceAll(s: string, pat: string, rep: string): string
    requires pat != ""
    decreases |s|
  {
    var i := Find(s, pat);
    if i < 0 then s else s[..i] + rep + ReplaceAll(s[i + |pat|..], pat, rep)
  }

  lemma JoinCons(head: string, tail: seq<string>, sep: string)
    requires |tail| >= 1
    ensures Join([head] + tail, sep) == head + sep + Join(tail, sep)
  {
    assert ([head] + tail)[1..] == tail;
  }

  lemma SplitOnUnfold(s: string, sep: string, i: int)
    requires sep != "" && i == Find(s, sep) && i >= 0
    ensures i + |sep| <= |s|
    ensures SplitOn(s, sep) == [s[..i]] + SplitOn(s[i + |sep|..], sep)
    ensures s == s[..i] + sep + s[i + |sep|..]
  {
    assert s[i..i + |sep|] == sep;
  }

  /** Splitting at a separator and joining with it again gives back the text. */
  lemma {:induction false} SplitJoin(s: string, sep: string)
    requires sep != ""
    ensures Join(SplitOn(s, sep), sep) == s
    decreases |s|
  {
    var i := Find(s, sep);
    if i >= 0 {
      SplitOnUnfold(s, sep, i);
      var rest := s[i + |sep|..];
      SplitJoin(rest, sep);
      JoinCons(s[..i], SplitOn(rest, sep), sep);
    }
  }

  /** `replace` is the text cut at every occurrence of `pat` and glued back with `rep`:
      the pieces between occurrences are kept verbatim and none of them contains `pat`. */
  lemma {:induction false} ReplaceAllSplitsAndJoins(s: string, pat: string, rep: string)
    requires pat != ""
    ensures ReplaceAll(s, pat, rep) == Join(SplitOn(s, pat), rep)
    ensures Join(SplitOn(s, pat), pat) == s
    ensures forall p :: p in SplitOn(s, pat) ==> Find(p, pat) == -1
    decreases |s|
  {
    SplitJoin(s, pat);
    var i := Find(s, pat);
    if i >= 0 {
      ReplaceAllSplitsAndJoins(s[i + |pat|..], pat, rep);
    }
  }

  /** Replacing every occurrence of a character by text without it leaves none. */
  lemma {:induction false} ReplaceAllRemoves(s: string, c: char, rep: string)
    requires c !in rep
    ensures c !in ReplaceAll(s, [c], rep)
    decreases |s|
  {
    var i := Find(s, [c]);
    var n := if i < 0 then |s| else i;
    forall k | 0 <= k < n ensures s[k] != c {
      assert s[k..k + 1] == [s[k]];
      assert !OccursAt(s, [c], k);
    }
    if i >= 0 {
      ReplaceAllRemoves(s[i + 1..], c, rep);
      assert forall x :: x in s[..i] ==> x != c;
    }
  }

  /** A character found neither in the text nor in the replacement is not in the
      result. */
  lemma {:induction false} ReplaceAllKeepsOut(s: string, pat: string, rep: string, c: char)
    requires pat != "" && c !in s && c !in rep
    ensures c !in ReplaceAll(s, pat, rep)
    decreases |s|
  {
    var i := ReplaceAllSplit(s, pat, rep);
    if i >= 0 {
      var tail := s[i + |pat|..];
      NotInSlice(s, c, 0, i);
      NotInSlice(s, c, i + |pat|, |s|);
      ReplaceAllKeepsOut(tail, pat, rep, c);
      NotInConcat(s[..i], rep, ReplaceAll(tail, pat, rep), c);
    }
  }

  /** One step of `ReplaceAll`: either nothing is replaced, or the text splits at
      the first occurrence `i` of `pat`. */
  lemma ReplaceAllSplit(s: string, pat: string, rep: string) returns (i: int)
    requires pat != ""
    ensures i < 0 ==> ReplaceAll(s, pat, rep) == s
    ensures i >= 0 ==> i + |pat| <= |s| && ReplaceAll(s, pat, rep) == s[..i] + rep + ReplaceAll(s[i + |pat|..], pat, rep)
  {
    i := Find(s, pat);
    if i >= 0 {
      assert OccursAt(s, pat, i);
      assert ReplaceAll(s, pat, rep) == s[..i] + rep + ReplaceAll(s[i + |pat|..], pat, rep);
    } else {
      assert ReplaceAll(s, pat, rep) == s;
    }
  }

  lemma NotInSlice(s: string, c: char, i: nat, j: nat)
    requires i <= j <= |s| && c !in s
    ensures c !in s[i..j]
  {
    forall k | 0 <= k < j - i ensures s[i..j][k] != c {
      assert s[i..j][k] == s[i + k];
    }
  }

  lemma NotInConcat(a: string, b: string, d: string, c: char)
    requires c !in a && c !in b && c !in d
    ensures c !in a + b + d
  {
  }

  /** A text that does not contain `pat` is left exactly as it is. */
  lemma ReplaceAllAbsent(s: string, pat: string, rep: string)
    requires pat != "" && !Contains(s, pat)
    ensures ReplaceAll(s, pat, rep) == s
  {
  }

  // ---------------------------------------------------------------------
  // Whitespace, case, digits

  /** The characters Python's `str.strip()` and `str.split()` treat as whitespace. */
  predicate IsSpace(c: char) {
    c == ' ' || c == '\t' || c == '\n' || c == '\r' || c == '\U{0B}' || c == '\U{0C}'
  }

  function LStrip(s: string): (r: string)
    ensures |r| <= |s| && r == s[|s| - |r|..]
    ensures r == "" || !IsSpace(r[0])
    ensures forall k :: 0 <= k < |s| - |r| ==> IsSpace(s[k])
  {
    if s != "" && IsSpace(s[0]) then LStrip(s[1..]) else s
  }

  function RStrip(s: string): (r: string)
    ensures |r| <= |s| && r == s[..|r|]
    ensures r == "" || !IsSpace(r[|r| - 1])
    ensures forall k :: |r| <= k < |s| ==> IsSpace(s[k])
  {
    if s != "" && IsSpace(s[|s| - 1]) then RStrip(s[..|s| - 1]) else s
  }

  /** `s.strip()`: the text with its leading and trailing whitespace cut off. */
  function Strip(s: string): (r: string)
    ensures r == "" || (!IsSpace(r[0]) && !IsSpace(r[|r| - 1]))
    ensures s == "" || (!IsSpace(s[0]) && !IsSpace(s[|s| - 1])) ==> r == s
  {
    RStrip(LStrip(s))
  }

  /** What `strip` removes is whitespace only, and what it keeps is a piece of `s`. */
  lemma StripCutsWhitespace(s: string)
    ensures |s| - |LStrip(s)| + |Strip(s)| <= |s|
    ensures Strip(s) == s[|s| - |LStrip(s)|..|s| - |LStrip(s)| + |Strip(s)|]
    ensures forall k :: 0 <= k < |s| - |LStrip(s)| || |s| - |LStrip(s)| + |Strip(s)| <= k < |s| ==> IsSpace(s[k])
  {
    var l := LStrip(s);
    var r := RStrip(l);
    var off := |s| - |l|;
    assert l == s[off..];
    assert r == l[..|r|];
    assert r == s[off..off + |r|];
    forall k | off + |r| <= k < |s| ensures IsSpace(s[k]) {
      assert s[k] == l[k - off];
    }
  }

  /** Index of the first whitespace character at or after i, or |s|. */
  function WordEnd(s: string, i: nat): (r: nat)
    requires i <= |s|
    ensures i <= r <= |s|
    ensures r < |s| ==> IsSpace(s[r])
    ensures forall k :: i <= k < r ==> !IsSpace(s[k])
    decreases |s| - i
  {
    if i == |s| || IsSpace(s[i]) then i else WordEnd(s, i + 1)
  }

  predicate IsWord(w: string) {
    w != "" && forall k :: 0 <= k < |w| ==> !IsSpace(w[k])
  }

  /** `s.split()`: the maximal runs of non-whitespace characters, in order. */
  function SplitWhitespace(s: string): (words: seq<string>)
    ensures forall w :: w in words ==> IsWord(w)
    decreases |s|
  {
    var t := LStrip(s);
    if t == "" then []
    else
      var n := WordEnd(t, 0);
      var word := t[..n];
      assert IsWord(word);
      [word] + SplitWhitespace(t[n..])
  }

  function LowerChar(c: char): char {
    if 'A' <= c <= 'Z' then (c as int + 32) as char else c
  }

  /** `s.lower()` on the ASCII letters; other characters are kept. */
  function Lower(s: string): (r: string)
    ensures |r| == |s|
    ensures forall k :: 0 <= k < |s| ==> r[k] == LowerChar(s[k])
  {
    if s == "" then "" else [LowerChar(s[0])] + Lower(s[1..])
  }

  predicate IsDigit(c: char) {
    '0' <= c <= '9'
  }

  predicate AllDigits(s: string) {
    forall k :: 0 <= k < |s| ==> IsDigit(s[k])
  }

  /** `''.join(c for c in s if c.isdigit())` */
  function DigitsOf(s: string): (r: string)
    ensures AllDigits(r) && |r| <= |s|
  {
    if s == "" then ""
    else (if IsDigit(s[0]) then [s[0]] else []) + DigitsOf(s[1..])
  }

  /** `s.lstrip('0')` */
  function LStripZeros(s: string): (r: string)
    ensures |r| <= |s| && r == s[|s| - |r|..]
    ensures r == "" || r[0] != '0'
    ensures forall k :: 0 <= k < |s| - |r| ==> s[k] == '0'
  {
    if s != "" && s[0] == '0' then LStripZeros(s[1..]) else s
  }

  function DigitValue(c: char): nat
    requires IsDigit(c)
  {
    c as int - '0' as int
  }

  function DigitChar(d: nat): (c: char)
    requires d < 10
    ensures IsDigit(c) && DigitValue(c) == d
  {
    ('0' as int + d) as char
  }

  /** `int(s)` for a string of decimal digits. */
  function DecimalValue(s: string): nat
    requires AllDigits(s)
  {
    if s == "" then 0 else DecimalValue(s[..|s| - 1]) * 10 + DigitValue(s[|s| - 1])
  }

  /** `str(n)` for a natural number: its decimal digits without leading zeros. */
  function Decimal(n: nat): (r: string)
    ensures r != "" && AllDigits(r)
    ensures DecimalValue(r) == n
    ensures r[0] == '0' <==> n == 0
  {
    if n < 10 then [DigitChar(n)]
    else
      var r := Decimal(n / 10) + [DigitChar(n % 10)];
      assert r[..|r| - 1] == Decimal(n / 10);
      r
  }

  /** The decimal rendering of a number identifies the number. */
  lemma DecimalInjective(a: nat, b: nat)
    requires Decimal(a) == Decimal(b)
    ensures a == b
  {
    assert DecimalValue(Decimal(a)) == a;
  }

  /** `s.rjust(width, '0')`, which is what `format(n, '0<width>')` does to `str(n)`. */
  function ZeroPad(s: string, width: nat): (r: string)
    ensures |r| == if |s| >= width then |s| else width
    ensures r[|r| - |s|..] == s
    ensures forall k :: 0 <= k < |r| - |s| ==> r[k] == '0'
    decreases width - |s|
  {
    if |s| >= width then s else ZeroPad("0" + s, width)
  }

  /** Leading zeros do not change the value of a decimal string. */
  lemma {:induction false} LeadingZeros(z: nat, s: string)
    requires AllDigits(s)
    ensures AllDigits(seq(z, _ => '0') + s)
    ensures DecimalValue(seq(z, _ => '0') + s) == DecimalValue(s)
    decreases |s|
  {
    var t := seq(z, _ => '0') + s;
    if s == "" {
      ZerosValue(z);
      assert t == seq(z, _ => '0');
    } else {
      assert t[..|t| - 1] == seq(z, _ => '0') + s[..|s| - 1];
      LeadingZeros(z, s[..|s| - 1]);
    }
  }

  lemma {:induction false} ZerosValue(z: nat)
    ensures AllDigits(seq(z, _ => '0'))
    ensures DecimalValue(seq(z, _ => '0')) == 0
  {
    if z > 0 {
      assert seq(z, _ => '0')[..z - 1] == seq(z - 1, _ => '0');
      ZerosValue(z - 1);
    }
  }

  /** Zero padding keeps the value: `int(format(n, '08')) == n`. */
  lemma ZeroPadValue(s: string, width: nat)
    requires AllDigits(s)
    ensures AllDigits(ZeroPad(s, width))
    ensures DecimalValue(ZeroPad(s, width)) == DecimalValue(s)
  {
    var r := ZeroPad(s, width);
    var z := |r| - |s|;
    assert r == seq(z, _ => '0') + s;
    LeadingZeros(z, s);
  }

  function Pow10(n: nat): (r: nat)
    ensures r >= 1
  {
    if n == 0 then 1 else 10 * Pow10(n - 1)
  }

  lemma ShiftDigit(a: int, p: int, b: int, d: int)
    ensures (a * p + b) * 10 + d == a * (p * 10) + (b * 10 + d)
  {
  }

  /** The value of a concatenation of digit strings. */
  lemma {:induction false} DecimalAppend(s: string, t: string)
    requires AllDigits(s) && AllDigits(t)
    ensures AllDigits(s + t)
    ensures DecimalValue(s + t) == DecimalValue(s) * Pow10(|t|) + DecimalValue(t)
    decreases |t|
  {
    if t != "" {
      var u, t' := s + t, t[..|t| - 1];
      assert u[..|u| - 1] == s + t';
      assert u[|u| - 1] == t[|t| - 1];
      DecimalAppend(s, t');
      var a, b, d, p := DecimalValue(s), DecimalValue(t'), DigitValue(t[|t| - 1]), Pow10(|t'|);
      assert DecimalValue(u) == (a * p + b) * 10 + d;
      assert Pow10(|t|) == p * 10;
      assert DecimalValue(t) == b * 10 + d;
      ShiftDigit(a, p, b, d);
    } else {
      assert s + t == s;
    }
  }
}
