/** The pieces of Python's `str` behaviour that the core relies on:
    whitespace (`str.isspace`, regex `\s`), `strip`, `find`/`rfind`,
    `startswith`/`endswith`, `"sep".join`, `str(int)` and the `{n:02d}` format. */
module Text {

  /** Python's `str.isspace`, which is also what `\s` matches in a `str` pattern. */
  predicate IsSpace(c: char) {
    || c == ' '
    || ('\t' <= c <= '\r')
    || ('\U{1C}' <= c <= '\U{1F}')
    || c == '\U{85}' || c == '\U{A0}' || c == '\U{1680}'
    || ('\U{2000}' <= c <= '\U{200A}')
    || c == '\U{2028}' || c == '\U{2029}' || c == '\U{202F}' || c == '\U{205F}' || c == '\U{3000}'
  }

  /** An ASCII decimal digit. */
  predicate IsDigit(c: char) {
    '0' <= c <= '9'
  }

  function DigitValue(c: char): (d: nat)
    requires IsDigit(c)
    ensures d < 10
  {
    (c as int) - ('0' as int)
  }

  function Digit(d: nat): (c: char)
    requires d < 10
    ensures IsDigit(c) && DigitValue(c) == d
  {
    (('0' as int) + d) as char
  }

  predicate AllDigits(s: string) {
    forall k :: 0 <= k < |s| ==> IsDigit(s[k])
  }

  /** `int(s)` for a non-empty string of ASCII digits. */
  function ParseNat(s: string): nat
    requires AllDigits(s)
    decreases |s|
  {
    if |s| == 0 then 0 else ParseNat(s[..|s| - 1]) * 10 + DigitValue(s[|s| - 1])
  }

  /** `str(n)` for a natural number. */
  function NatToString(n: nat): (r: string)
    ensures |r| >= 1 && AllDigits(r)
    ensures ParseNat(r) == n
    ensures n < 10 ==> |r| == 1
    ensures 10 <= n < 100 ==> |r| == 2
  {
    if n < 10 then [Digit(n)]
    else
      var r := NatToString(n / 10) + [Digit(n % 10)];
      assert r[..|r| - 1] == NatToString(n / 10);
      r
  }

  /** `str(n)` for any integer. */
  function IntToString(n: int): (r: string)
    ensures |r| >= 1
    ensures n >= 0 ==> AllDigits(r) && ParseNat(r) == n
    ensures n < 0 ==> r[0] == '-' && AllDigits(r[1..]) && ParseNat(r[1..]) == -n
  {
    if n >= 0 then NatToString(n) else "-" + NatToString(-n)
  }

  /** The format spec `{n:02d}`: zero-padded to a width of two, the sign counting in the width. */
  function Pad02(n: int): (r: string)
    ensures |r| >= 2
    ensures 0 <= n < 100 ==> |r| == 2 && AllDigits(r) && DigitValue(r[0]) * 10 + DigitValue(r[1]) == n
    ensures n < 0 ==> r[0] == '-'
  {
    if n < 0 then "-" + NatToString(-n)
    else if n < 10 then "0" + NatToString(n)
    else
      var r := NatToString(n);
      assert n < 100 ==> r[..1] == [r[0]] && ParseNat(r[..1]) == DigitValue(r[0]);
      r
  }

  /** The first index at or after `p` that does not hold whitespace (or `|s|`). */
  function SkipSpaces(s: string, p: nat): (q: nat)
    requires p <= |s|
    ensures p <= q <= |s|
    ensures forall k :: p <= k < q ==> IsSpace(s[k])
    ensures q < |s| ==> !IsSpace(s[q])
    decreases |s| - p
  {
    if p < |s| && IsSpace(s[p]) then SkipSpaces(s, p + 1) else p
  }

  /** The three ensures of `SkipSpaces` determine it. */
  lemma {:induction false} SkipSpacesUnique(s: string, p: nat, q: nat)
    requires p <= q <= |s|
    requires forall k :: p <= k < q ==> IsSpace(s[k])
    requires q < |s| ==> !IsSpace(s[q])
    ensures SkipSpaces(s, p) == q
    decreases q - p
  {
    if p < q {
      SkipSpacesUnique(s, p + 1, q);
    }
  }

  function TrimLeft(s: string): (r: string)
    ensures |r| <= |s| && r == s[|s| - |r|..]
    ensures r == [] || !IsSpace(r[0])
  {
    s[SkipSpaces(s, 0)..]
  }

  function TrimRight(s: string): (r: string)
    ensures |r| <= |s| && r == s[..|r|]
    ensures r == [] || !IsSpace(r[|r| - 1])
    ensures forall k :: |r| <= k < |s| ==> IsSpace(s[k])
    decreases |s|
  {
    if |s| > 0 && IsSpace(s[|s| - 1]) then TrimRight(s[..|s| - 1]) else s
  }

  /** No whitespace at either end. */
  predicate Stripped(s: string) {
    s == [] || (!IsSpace(s[0]) && !IsSpace(s[|s| - 1]))
  }

  /** `str.strip()` with no argument. */
  function Strip(s: string): (r: string)
    ensures |r| <= |s|
    ensures r == [] || (!IsSpace(r[0]) && !IsSpace(r[|r| - 1]))
  {
    var l := TrimLeft(s);
    var r := TrimRight(l);
    assert r != [] ==> r[0] == l[0];
    r
  }

  /** A string with at least one non-whitespace character. */
  predicate HasVisible(s: string) {
    exists k :: 0 <= k < |s| && !IsSpace(s[k])
  }

  lemma {:induction false} TrimRightKeepsVisible(s: string)
    requires |s| > 0 && !IsSpace(s[0])
    ensures TrimRight(s) != [] && TrimRight(s)[0] == s[0]
    decreases |s|
  {
    if |s| > 1 && IsSpace(s[|s| - 1]) {
      TrimRightKeepsVisible(s[..|s| - 1]);
    }
  }

  /** Stripping is exactly "drop leading and trailing whitespace", so it is idempotent. */
  lemma StripIdempotent(s: string)
    ensures Strip(Strip(s)) == Strip(s)
  {
    var r := Strip(s);
    if r != [] {
      assert SkipSpaces(r, 0) == 0;
      assert TrimLeft(r) == r;
    }
  }

  /** Leading whitespace never changes the result of `strip`. */
  lemma StripAfterLeadingSpaces(s: string, j: nat)
    requires j <= |s|
    requires forall k :: 0 <= k < j ==> IsSpace(s[k])
    ensures Strip(s[j..]) == Strip(s)
  {
    var q := SkipSpaces(s, 0);
    var t := s[j..];
    assert j <= q;
    SkipSpacesUnique(t, 0, q - j) by {
      forall k | 0 <= k < q - j ensures IsSpace(t[k]) { assert t[k] == s[j + k]; }
    }
    assert TrimLeft(t) == t[q - j..] == s[q..] == TrimLeft(s);
  }

  /** A string that has a visible character keeps one after `strip`. */
  lemma StripHasVisible(s: string)
    requires HasVisible(s)
    ensures Strip(s) != [] && HasVisible(Strip(s))
  {
    var k :| 0 <= k < |s| && !IsSpace(s[k]);
    var l := TrimLeft(s);
    assert SkipSpaces(s, 0) <= k;
    TrimRightKeepsVisible(l);
    assert !IsSpace(Strip(s)[0]);
  }

  /** `s.find(c)`: the first index of `c`, or -1. */
  function Find(s: string, c: char): (r: int)
    ensures -1 <= r < |s|
    ensures r == -1 <==> c !in s
    ensures r >= 0 ==> s[r] == c && c !in s[..r]
  {
    if |s| == 0 then -1
    else if s[0] == c then 0
    else
      var t := Find(s[1..], c);
      assert s == [s[0]] + s[1..];
      if t == -1 then -1
      else
        assert s[..t + 1] == [s[0]] + s[1..][..t];
        t + 1
  }

  /** `s.rfind(c)`: the last index of `c`, or -1. */
  function RFind(s: string, c: char): (r: int)
    ensures -1 <= r < |s|
    ensures r == -1 <==> c !in s
    ensures r >= 0 ==> s[r] == c && c !in s[r + 1..]
  {
    if |s| == 0 then -1
    else if s[|s| - 1] == c then |s| - 1
    else
      var t := RFind(s[..|s| - 1], c);
      assert s == s[..|s| - 1] + [s[|s| - 1]];
      RFindSkip(s[..|s| - 1], s[|s| - 1], c, t);
      t
  }

  /** A last character other than `c` leaves the last `c` where it was. */
  lemma RFindSkip(p: string, d: char, c: char, t: int)
    requires d != c && -1 <= t < |p|
    requires t == -1 <==> c !in p
    requires t >= 0 ==> p[t] == c && c !in p[t + 1..]
    ensures t == -1 <==> c !in p + [d]
    ensures t >= 0 ==> (p + [d])[t] == c && c !in (p + [d])[t + 1..]
  {
    if t >= 0 {
      assert (p + [d])[t + 1..] == p[t + 1..] + [d];
    }
  }

  predicate StartsWith(s: string, prefix: string) {
    |prefix| <= |s| && s[..|prefix|] == prefix
  }

  predicate EndsWith(s: string, suffix: string) {
    |suffix| <= |s| && s[|s| - |suffix|..] == suffix
  }

  /** `sep.join(parts)`. */
  function Join(parts: seq<string>, sep: string): string
    decreases |parts|
  {
    if |parts| == 0 then ""
    else if |parts| == 1 then parts[0]
    else parts[0] + sep + Join(parts[1..], sep)
  }

  /** `pat` occurs in `s` at index `k`. */
  predicate OccursAt(s: string, pat: string, k: int) {
    0 <= k && k + |pat| <= |s| && s[k..k + |pat|] == pat
  }

  /** `pat in s` for two strings: `pat` occurs somewhere in `s`. */
  function Contains(s: string, pat: string): (r: bool)
    ensures r <==> exists k :: OccursAt(s, pat, k)
    decreases |s|
  {
    if StartsWith(s, pat) then
      assert OccursAt(s, pat, 0);
      true
    else if |s| == 0 then false
    else
      var r := Contains(s[1..], pat);
      assert forall k :: OccursAt(s[1..], pat, k) <==> OccursAt(s, pat, k + 1) by {
        forall k ensures OccursAt(s[1..], pat, k) <==> OccursAt(s, pat, k + 1) {
          if 0 <= k && k + 1 + |pat| <= |s| {
            assert s[1..][k..k + |pat|] == s[k + 1..k + 1 + |pat|];
          }
        }
      }
      assert forall k :: 1 <= k ==> (OccursAt(s, pat, k) <==> OccursAt(s[1..], pat, k - 1)) by {
        forall k | 1 <= k ensures OccursAt(s, pat, k) <==> OccursAt(s[1..], pat, k - 1) {
          assert OccursAt(s[1..], pat, k - 1) <==> OccursAt(s, pat, k - 1 + 1);
        }
      }
      assert !OccursAt(s, pat, 0);
      r
  }

  /** `s.replace(pat, "")` for a non-empty `pat`: every left-to-right occurrence removed. */
  function RemoveAll(s: string, pat: string): (r: string)
    requires |pat| > 0
    ensures |r| <= |s|
    ensures (forall k :: !OccursAt(s, pat, k)) ==> r == s
    decreases |s|
  {
    if |s| == 0 then ""
    else if StartsWith(s, pat) then
      assert OccursAt(s, pat, 0);
      RemoveAll(s[|pat|..], pat)
    else
      var rest := RemoveAll(s[1..], pat);
      assert (forall k :: !OccursAt(s, pat, k)) ==> (forall k :: !OccursAt(s[1..], pat, k)) by {
        forall k | OccursAt(s[1..], pat, k) ensures OccursAt(s, pat, k + 1) {
          assert s[1..][k..k + |pat|] == s[k + 1..k + 1 + |pat|];
        }
      }
      assert s == [s[0]] + s[1..];
      [s[0]] + rest
  }
  /** `s.split(c)` for a one-character separator: the pieces between the
      occurrences of `c`, always at least one. */
  function Split(s: string, c: char): (r: seq<string>)
    ensures |r| >= 1
    ensures c !in s ==> r == [s]
    ensures c in s ==> r[0] == s[..Find(s, c)]
    decreases |s|
  {
    var i := Find(s, c);
    if i == -1 then [s] else [s[..i]] + Split(s[i + 1..], c)
  }

  /** Joining pieces that do not contain the separator and splitting the
      result again gives the pieces back. */
  lemma {:induction false} SplitJoin(parts: seq<string>, c: char)
    requires |parts| >= 1
    requires forall k :: 0 <= k < |parts| ==> c !in parts[k]
    ensures Split(Join(parts, [c]), c) == parts
    decreases |parts|
  {
    if |parts| > 1 {
      var s := Join(parts, [c]);
      assert s == parts[0] + [c] + Join(parts[1..], [c]);
      assert s[|parts[0]|] == c && s[..|parts[0]|] == parts[0];
      assert Find(s, c) == |parts[0]|;
      assert s[|parts[0]| + 1..] == Join(parts[1..], [c]);
      SplitJoin(parts[1..], c);
    }
  }

  /** A string without whitespace at either end is its own `strip`. */
  lemma StripStripped(s: string)
    requires Stripped(s)
    ensures Strip(s) == s
  {
    if s != [] {
      assert SkipSpaces(s, 0) == 0;
      assert TrimLeft(s) == s;
    }
  }
  /** `find` stops at the first occurrence: no later than any index holding `c`. */
  lemma {:induction false} FindFirst(s: string, c: char, j: nat)
    requires j < |s| && s[j] == c
    ensures 0 <= Find(s, c) <= j
    decreases |s|
  {
    if s[0] != c {
      FindFirst(s[1..], c, j - 1);
    }
  }

  /** `rfind` stops at the last occurrence: no earlier than any index holding `c`. */
  lemma {:induction false} RFindLast(s: string, c: char, j: nat)
    requires j < |s| && s[j] == c
    ensures j <= RFind(s, c)
    decreases |s|
  {
    if s[|s| - 1] != c {
      RFindLast(s[..|s| - 1], c, j);
    }
  }

  /** A slice holds only characters of the whole. */
  lemma SliceChars(s: string, a: nat, b: nat)
    requires a <= b <= |s|
    ensures forall c :: c in s[a..b] ==> c in s
  {
    forall c | c in s[a..b] ensures c in s {
      var k :| 0 <= k < b - a && s[a..b][k] == c;
      assert s[a + k] == c;
    }
  }

  /** `strip` keeps only characters of its input. */
  lemma StripChars(s: string)
    ensures forall c :: c in Strip(s) ==> c in s
  {
    var l := TrimLeft(s);
    SliceChars(s, |s| - |l|, |s|);
    SliceChars(l, 0, |TrimRight(l)|);
  }
  /** The first occurrence is where `find` stops. */
  lemma {:induction false} FindExact(s: string, c: char, j: nat)
    requires j < |s| && s[j] == c && c !in s[..j]
    ensures Find(s, c) == j
    decreases j
  {
    if j > 0 {
      assert s[..j][0] == s[0];
      assert s[1..][..j - 1] == s[..j][1..];
      FindExact(s[1..], c, j - 1);
    }
  }

  /** No carriage return in `s`. */
  predicate SansRetour(s: string) {
    forall k :: 0 <= k < |s| ==> s[k] != '\r'
  }

  lemma SansRetourConcat(a: string, b: string)
    requires SansRetour(a) && SansRetour(b)
    ensures SansRetour(a + b)
  {
    forall k | 0 <= k < |a + b| ensures (a + b)[k] != '\r' {
      if k >= |a| { assert (a + b)[k] == b[k - |a|]; }
    }
  }

  /** What `f.read()` returns for a file opened with `open(…, 'r')`: universal
      newlines turn every `"\r\n"` and every other `'\r'` into `'\n'`. */
  function LireTexte(contenu: string): (r: string)
    ensures |r| <= |contenu|
    ensures SansRetour(r)
    decreases |contenu|
  {
    if |contenu| == 0 then ""
    else if contenu[0] == '\r' then
      if |contenu| > 1 && contenu[1] == '\n' then "\n" + LireTexte(contenu[2..])
      else "\n" + LireTexte(contenu[1..])
    else
      var t := LireTexte(contenu[1..]);
      assert forall k :: 1 <= k < |t| + 1 ==> ([contenu[0]] + t)[k] == t[k - 1];
      [contenu[0]] + t
  }

  /** A text without carriage returns is read back as it was written. */
  lemma {:induction false} LireTexteSansRetour(contenu: string)
    requires SansRetour(contenu)
    ensures LireTexte(contenu) == contenu
    decreases |contenu|
  {
    if |contenu| > 0 {
      assert contenu[0] != '\r';
      LireTexteSansRetour(contenu[1..]);
      assert contenu == [contenu[0]] + contenu[1..];
    }
  }

  /** A `'\r'` in the file ends a line when it is read back: it comes back as
      `'\n'`, together with a `'\n'` right after it. */
  lemma {:induction false} RetourChariotCoupe(h: string, t: string)
    requires SansRetour(h)
    ensures LireTexte(h + ['\r'] + t) == h + ['\n'] + LireTexte(if |t| > 0 && t[0] == '\n' then t[1..] else t)
    decreases |h|
  {
    var x := h + ['\r'] + t;
    if |h| == 0 {
      assert x == ['\r'] + t;
      if |t| > 0 && t[0] == '\n' {
        assert x[2..] == t[1..];
      } else {
        assert x[1..] == t;
      }
    } else {
      assert x[0] == h[0] && x[0] != '\r';
      assert x[1..] == h[1..] + ['\r'] + t;
      RetourChariotCoupe(h[1..], t);
      assert LireTexte(x) == [h[0]] + LireTexte(x[1..]);
      assert h == [h[0]] + h[1..];
    }
  }
}
