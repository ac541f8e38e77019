/** Reading a transcript back from a text file (`_charger_transcription`).
    The pattern `\[(\d{2}:\d{2})\s*-\s*(\d{2}:\d{2})\]\s*(.+)` is modelled as
    Python's backtracking matcher runs it, except that `\d` is the ASCII digits
    only: `MatchAt` is a match anchored at the first character, `Search` is the
    leftmost match, and `ParseSegments` is `finditer`, which resumes where the
    previous match ended. */
module TranscriptReader {
  import opened Common
  import opened Text
  import opened TimeFormat
  import opened Transcriber

  /** The three groups of one match, and where the match ends. */
  datatype LineMatch = LineMatch(debut: string, fin: string, group: string, end: nat)

  /** A match found `offset` characters into the searched text. */
  datatype Found = Found(offset: nat, m: LineMatch)

  /** The first `'\n'` at or after `p` (or `|s|`): where a greedy `.` run stops. */
  function LineEnd(s: string, p: nat): (r: nat)
    requires p <= |s|
    ensures p <= r <= |s|
    ensures forall k :: p <= k < r ==> s[k] != '\n'
    ensures r < |s| ==> s[r] == '\n'
    decreases |s| - p
  {
    if p < |s| && s[p] != '\n' then LineEnd(s, p + 1) else p
  }

  lemma {:induction false} LineEndUnique(s: string, p: nat, q: nat)
    requires p <= q <= |s|
    requires forall k :: p <= k < q ==> s[k] != '\n'
    requires q < |s| ==> s[q] == '\n'
    ensures LineEnd(s, p) == q
    decreases q - p
  {
    if p < q {
      LineEndUnique(s, p + 1, q);
    }
  }

  /** The last index in `[lo, hi)` that does not hold `'\n'`, or `lo - 1`. */
  function LastNonNewline(s: string, lo: nat, hi: nat): (r: int)
    requires lo <= hi <= |s|
    ensures lo - 1 <= r < hi
    ensures r >= lo ==> s[r] != '\n'
    ensures forall k :: r < k < hi && lo <= k ==> s[k] == '\n'
    decreases hi - lo
  {
    if lo == hi then lo - 1
    else if s[hi - 1] != '\n' then hi - 1
    else LastNonNewline(s, lo, hi - 1)
  }

  /** `\d{2}:\d{2}` at index `i`. */
  predicate ClockAt(s: string, i: nat) {
    i + 5 <= |s| && IsDigit(s[i]) && IsDigit(s[i + 1]) && s[i + 2] == ':'
    && IsDigit(s[i + 3]) && IsDigit(s[i + 4])
  }

  /** The pattern matched at the first character of `s`: `\[`, the first
      clock, then the rest of the pattern from index 6. */
  function MatchAt(s: string): (r: Option<LineMatch>)
    ensures r.Some? ==> 14 <= r.value.end <= |s| && s[0] == '['
    ensures r.Some? ==> IsClock(r.value.debut) && IsClock(r.value.fin)
  {
    if |s| >= 6 && s[0] == '[' && ClockAt(s, 1) then DashAt(s, s[1..6], 6) else None
  }

  /** `\s*-` after the first clock (`d`), scanning from `i`. `-` is not
      whitespace, so the greedy `\s*` never gives anything back. */
  function DashAt(s: string, d: string, i: nat): (r: Option<LineMatch>)
    requires IsClock(d) && 6 <= i <= |s|
    ensures r.Some? ==> 14 <= r.value.end <= |s| && IsClock(r.value.debut) && IsClock(r.value.fin)
    decreases |s| - i
  {
    if i < |s| && IsSpace(s[i]) then DashAt(s, d, i + 1)
    else if i < |s| && s[i] == '-' then ClockTwoAt(s, d, i + 1)
    else None
  }

  /** `\s*(\d{2}:\d{2})\]` after the dash, scanning from `i`; a digit is not
      whitespace either. */
  function ClockTwoAt(s: string, d: string, i: nat): (r: Option<LineMatch>)
    requires IsClock(d) && 7 <= i <= |s|
    ensures r.Some? ==> 14 <= r.value.end <= |s| && IsClock(r.value.debut) && IsClock(r.value.fin)
    decreases |s| - i
  {
    if i < |s| && IsSpace(s[i]) then ClockTwoAt(s, d, i + 1)
    else if i + 6 <= |s| && ClockAt(s, i) && s[i + 5] == ']' then TextAt(s, d, s[i..i + 5], i + 6, i + 6)
    else None
  }

  /** `\s*(.+)` after the `]` at `u - 1`, the greedy `\s*` having reached `i`.
      It may run over line ends. At a character that is not whitespace,
      `(.+)` takes the rest of that line; at the end of the text the matcher
      backtracks to the last character other than `'\n'` among the spaces. */
  function TextAt(s: string, d: string, f: string, u: nat, i: nat): (r: Option<LineMatch>)
    requires IsClock(d) && IsClock(f) && 13 <= u <= i <= |s|
    ensures r.Some? ==> 14 <= r.value.end <= |s| && IsClock(r.value.debut) && IsClock(r.value.fin)
    decreases |s| - i
  {
    if i < |s| && IsSpace(s[i]) then TextAt(s, d, f, u, i + 1)
    else if i < |s| then
      var e := LineEnd(s, i);
      Some(LineMatch(d, f, s[i..e], e))
    else
      var k := LastNonNewline(s, u, i);
      if k >= u then Some(LineMatch(d, f, s[k..k + 1], k + 1)) else None
  }

  /** `re.search`: the leftmost position where the pattern matches. */
  function Search(s: string): (r: Option<Found>)
    ensures r.Some? ==> r.value.offset + r.value.m.end <= |s|
    ensures r.Some? ==> 14 <= r.value.m.end && IsClock(r.value.m.debut) && IsClock(r.value.m.fin)
    decreases |s|
  {
    if |s| == 0 then None
    else match MatchAt(s) {
      case Some(m) =>
        assert s[0..] == s;
        Some(Found(0, m))
      case None =>
        var t := Search(s[1..]);
        assert t.Some? ==> s[t.value.offset + 1..] == s[1..][t.value.offset..];
        match t {
          case None => None
          case Some(f) => Some(Found(f.offset + 1, f.m))
        }
    }
  }

  /** `re.finditer` over the whole text: every match, each search resuming
      where the previous match ended. */
  function Matches(s: string): (r: seq<LineMatch>)
    ensures forall i :: 0 <= i < |r| ==> IsClock(r[i].debut) && IsClock(r[i].fin)
    decreases |s|
  {
    match Search(s) {
      case None => []
      case Some(f) => [f.m] + Matches(s[f.offset + f.m.end..])
    }
  }

  /** `int(mm) * 60 + int(ss)` for both clocks, and `texte_segment.strip()`. */
  function ToSegment(m: LineMatch): TSegment
    requires IsClock(m.debut) && IsClock(m.fin)
  {
    TSegment(ClockValue(m.debut) as real, ClockValue(m.fin) as real, Strip(m.group), None)
  }

  /** The segments read from a text: one per match, in order. */
  function ParseSegments(s: string): (r: seq<TSegment>)
    ensures |r| == |Matches(s)|
    ensures forall i :: 0 <= i < |r| ==> r[i] == ToSegment(Matches(s)[i])
  {
    var ms := Matches(s);
    seq(|ms|, i requires 0 <= i < |ms| => ToSegment(ms[i]))
  }

  /** A match comes only out of a text holding both `[` and `]`. */
  lemma {:induction false} MatchesNeedBrackets(s: string)
    ensures Matches(s) != [] ==> '[' in s && ']' in s
  {
    var r := Search(s);
    if r.Some? {
      var t := s[r.value.offset..];
      SearchFinds(s, r.value);
      assert MatchAt(t).Some?;
      DashAtBracket(t, t[1..6], 6);
      assert t[0] == s[r.value.offset];
      assert ']' in s by {
        var k :| 0 <= k < |t| && t[k] == ']';
        assert s[r.value.offset + k] == ']';
      }
    }
  }

  /** The first `\s*-` succeeds only if a `]` follows somewhere. */
  lemma {:induction false} DashAtBracket(s: string, d: string, i: nat)
    requires IsClock(d) && 6 <= i <= |s|
    ensures DashAt(s, d, i).Some? ==> ']' in s
    decreases |s| - i
  {
    if i < |s| && IsSpace(s[i]) {
      DashAtBracket(s, d, i + 1);
    } else if i < |s| && s[i] == '-' {
      ClockTwoAtBracket(s, d, i + 1);
    }
  }

  /** The second clock is followed by the `]`. */
  lemma {:induction false} ClockTwoAtBracket(s: string, d: string, i: nat)
    requires IsClock(d) && 7 <= i <= |s|
    ensures ClockTwoAt(s, d, i).Some? ==> ']' in s
    decreases |s| - i
  {
    if i < |s| && IsSpace(s[i]) {
      ClockTwoAtBracket(s, d, i + 1);
    } else if i + 6 <= |s| && ClockAt(s, i) && s[i + 5] == ']' {
      assert s[i + 5] == ']';
    }
  }

  /** `_charger_transcription`: the file is read in text mode, the read text is
      kept, the language is `'fr'`, and every match in the read text gives one
      segment, in order (the `'[' in texte and ']' in texte` test in front of
      the search changes nothing). */
  method ChargerTranscription(contenu: string) returns (t: Transcription)
    ensures t.texte == LireTexte(contenu) && t.langue == "fr"
    ensures t.segments == ParseSegments(LireTexte(contenu))
  {
    var texte := LireTexte(contenu);
    var segments: seq<TSegment> := [];
    var ms := Matches(texte);
    if '[' in texte && ']' in texte {
      var i := 0;
      while i < |ms|
        invariant 0 <= i <= |ms|
        invariant |segments| == i
        invariant forall k :: 0 <= k < i ==> segments[k] == ToSegment(ms[k])
      {
        segments := segments + [ToSegment(ms[i])];
        i := i + 1;
      }
    } else {
      MatchesNeedBrackets(texte);
    }
    t := Transcription(texte, "fr", segments);
  }

  /** The match `Search` reports is a match of the pattern at its offset. */
  lemma {:induction false} SearchFinds(s: string, f: Found)
    requires Search(s) == Some(f)
    ensures MatchAt(s[f.offset..]) == Some(f.m)
    decreases |s|
  {
    if MatchAt(s).Some? {
      assert s[0..] == s;
    } else {
      var g := Search(s[1..]).value;
      SearchFinds(s[1..], g);
      assert s[g.offset + 1..] == s[1..][g.offset..];
    }
  }

  /** No match starts before the one `Search` reports, and none at all when
      it reports none. */
  lemma {:induction false} SearchLeftmost(s: string, q: nat)
    requires q <= |s|
    requires Search(s).None? || q < Search(s).value.offset
    ensures MatchAt(s[q..]).None?
    decreases q
  {
    if q == 0 {
      assert s[0..] == s;
    } else {
      assert MatchAt(s).None?;
      SearchLeftmost(s[1..], q - 1);
      assert s[1..][q - 1..] == s[q..];
    }
  }

  /** One step of `finditer`: the first match, then the matches after it. */
  lemma MatchesStep(s: string, f: Found)
    requires Search(s) == Some(f)
    ensures Matches(s) == [f.m] + Matches(s[f.offset + f.m.end..])
  {
    var t := s[f.offset + f.m.end..];
    assert Matches(s) == [f.m] + Matches(t);
  }

  /** A text that does not start a match reads like the text after its first character. */
  lemma SkipFirst(s: string)
    requires |s| > 0 && MatchAt(s).None?
    ensures Matches(s) == Matches(s[1..])
  {
    match Search(s[1..]) {
      case None =>
        assert Search(s).None?;
      case Some(f) =>
        var g := Found(f.offset + 1, f.m);
        assert Search(s) == Some(g);
        MatchesStep(s, g);
        MatchesStep(s[1..], f);
        assert s[g.offset + g.m.end..] == s[1..][f.offset + f.m.end..];
    }
  }

  /** The sixteen characters in front of a segment's text in a written line. */
  function Head(a: string, b: string): string {
    "[" + a + " - " + b + "] "
  }

  /** Whitespace the last `\s*` runs over changes nothing. */
  lemma {:induction false} TextAtSkips(s: string, d: string, f: string, u: nat, i: nat, q: nat)
    requires IsClock(d) && IsClock(f) && 13 <= u <= i <= q <= |s|
    requires forall k :: i <= k < q ==> IsSpace(s[k])
    ensures TextAt(s, d, f, u, i) == TextAt(s, d, f, u, q)
    decreases q - i
  {
    if i < q {
      TextAtSkips(s, d, f, u, i + 1, q);
    }
  }

  /** At a character that is not whitespace, `(.+)` takes the rest of the line. */
  lemma TextAtLine(s: string, d: string, f: string, u: nat, i: nat)
    requires IsClock(d) && IsClock(f) && 13 <= u <= i < |s| && !IsSpace(s[i])
    ensures TextAt(s, d, f, u, i) == Some(LineMatch(d, f, s[i..LineEnd(s, i)], LineEnd(s, i)))
  {
  }

  /** The characters of a written line's head. */
  lemma HeadChars(a: string, b: string, y: string)
    requires IsClock(a) && IsClock(b)
    ensures |Head(a, b) + y| == 16 + |y|
    ensures (Head(a, b) + y)[0] == '[' && ClockAt(Head(a, b) + y, 1) && (Head(a, b) + y)[1..6] == a
    ensures (Head(a, b) + y)[6] == ' ' && (Head(a, b) + y)[7] == '-' && (Head(a, b) + y)[8] == ' '
    ensures ClockAt(Head(a, b) + y, 9) && (Head(a, b) + y)[9..14] == b
    ensures (Head(a, b) + y)[14] == ']' && (Head(a, b) + y)[15] == ' '
    ensures (Head(a, b) + y)[16..] == y
  {
    var h := Head(a, b);
    assert |h| == 16;
    assert h[1..6] == a && h[9..14] == b;
    assert (h + y)[..16] == h;
  }

  /** The head of a written line takes the matcher to the segment text. */
  lemma MatchHead(a: string, b: string, y: string)
    requires IsClock(a) && IsClock(b)
    ensures |Head(a, b) + y| == 16 + |y| && (Head(a, b) + y)[16..] == y
    ensures MatchAt(Head(a, b) + y) == TextAt(Head(a, b) + y, a, b, 15, 16)
  {
    var s := Head(a, b) + y;
    HeadChars(a, b, y);
    assert MatchAt(s) == DashAt(s, a, 6);
    assert DashAt(s, a, 6) == DashAt(s, a, 7);
    assert DashAt(s, a, 7) == ClockTwoAt(s, a, 8);
    assert ClockTwoAt(s, a, 8) == ClockTwoAt(s, a, 9);
    assert ClockTwoAt(s, a, 9) == TextAt(s, a, b, 15, 15);
  }

  /** The text group starts at the first character the last `\s*` stops at
      and runs to the line end `e`. */
  lemma TextGroup(s: string, a: string, b: string, j: nat, e: nat)
    requires IsClock(a) && IsClock(b) && 16 + j < e < |s|
    requires forall k :: 16 <= k < 16 + j ==> IsSpace(s[k])
    requires !IsSpace(s[16 + j])
    requires forall k :: 16 + j <= k < e ==> s[k] != '\n'
    requires s[e] == '\n'
    ensures TextAt(s, a, b, 15, 16) == Some(LineMatch(a, b, s[16 + j..e], e))
  {
    TextAtSkips(s, a, b, 15, 16, 16 + j);
    TextAtLine(s, a, b, 15, 16 + j);
    LineEndUnique(s, 16 + j, e);
  }

  /** Facts about the text `y` after a sixteen-character head, moved to their
      indices in the whole line. */
  lemma ShiftedChars(h: string, y: string, j: nat, e: nat)
    requires |h| == 16 && j < e < |y|
    requires forall k :: 0 <= k < j ==> IsSpace(y[k])
    requires !IsSpace(y[j])
    requires forall k :: j <= k < e ==> y[k] != '\n'
    requires y[e] == '\n'
    ensures forall k :: 16 <= k < 16 + j ==> IsSpace((h + y)[k])
    ensures !IsSpace((h + y)[16 + j])
    ensures forall k :: 16 + j <= k < 16 + e ==> (h + y)[k] != '\n'
    ensures (h + y)[16 + e] == '\n'
    ensures (h + y)[16 + j..16 + e] == y[j..e]
  {
    var s := h + y;
    forall k | 16 <= k < |s| ensures s[k] == y[k - 16] {
    }
    assert s[16..] == y;
    assert s[16 + j..16 + e] == s[16..][j..e];
  }

  /** After a sixteen-character head, the text group is `y[j..e]` when the
      whitespace in `y` stops at `j` and the line ends at `e`. */
  lemma TextAfterHead(h: string, y: string, a: string, b: string, j: nat, e: nat)
    requires IsClock(a) && IsClock(b) && |h| == 16 && j < e < |y|
    requires forall k :: 0 <= k < j ==> IsSpace(y[k])
    requires !IsSpace(y[j])
    requires forall k :: j <= k < e ==> y[k] != '\n'
    requires y[e] == '\n'
    ensures TextAt(h + y, a, b, 15, 16) == Some(LineMatch(a, b, y[j..e], 16 + e))
  {
    ShiftedChars(h, y, j, e);
    TextGroup(h + y, a, b, j, 16 + e);
  }

  /** A written head followed by `y`, read at its start. */
  lemma MatchAfterHead(a: string, b: string, y: string, j: nat, e: nat)
    requires IsClock(a) && IsClock(b) && j < e < |y|
    requires forall k :: 0 <= k < j ==> IsSpace(y[k])
    requires !IsSpace(y[j])
    requires forall k :: j <= k < e ==> y[k] != '\n'
    requires y[e] == '\n'
    ensures MatchAt(Head(a, b) + y) == Some(LineMatch(a, b, y[j..e], 16 + e))
  {
    MatchHead(a, b, y);
    TextAfterHead(Head(a, b), y, a, b, j, e);
  }

  /** A match at the start that ends on a line end: `finditer` reports it, and
      goes on after that line end. */
  lemma MatchesAfterLine(s: string, m: LineMatch, z: string)
    requires MatchAt(s) == Some(m)
    requires s[m.end..] == z && |z| > 0 && z[0] == '\n'
    ensures Matches(s) == [m] + Matches(z[1..])
  {
    assert s[0..] == s;
    assert Search(s) == Some(Found(0, m));
    MatchesStep(s, Found(0, m));
    assert MatchAt(z).None?;
    SkipFirst(z);
  }

  /** A written line is its head, its text, and the rest after the line end. */
  lemma LineShape(seg: TSegment, rest: string)
    ensures TimestampLine(seg) + rest
      == Head(FormaterTemps(seg.debut), FormaterTemps(seg.fin)) + (seg.texte + ("\n" + rest))
    ensures |Head(FormaterTemps(seg.debut), FormaterTemps(seg.fin))| == |FormaterTemps(seg.debut)| + |FormaterTemps(seg.fin)| + 6
  {
    var h := Head(FormaterTemps(seg.debut), FormaterTemps(seg.fin));
    assert TimestampLine(seg) == h + seg.texte + "\n";
    LineEndShape(h, seg.texte, rest);
  }

  lemma LineEndShape(h: string, x: string, rest: string)
    ensures (h + x + "\n") + rest == h + (x + ("\n" + rest))
  {
  }

  /** Where the text of a written line stops: after the text, at the `'\n'`. */
  lemma TailAfter(h: string, x: string, z: string)
    ensures (h + (x + z))[|h| + |x|..] == z
  {
    assert h + (x + z) == (h + x) + z;
  }

  /** The characters of a one-line text with something visible on it, followed
      by a line end. */
  lemma LineTextChars(x: string, w: string)
    requires HasVisible(x) && '\n' !in x
    ensures SkipSpaces(x, 0) < |x|
    ensures forall k :: 0 <= k < SkipSpaces(x, 0) ==> IsSpace((x + ("\n" + w))[k])
    ensures !IsSpace((x + ("\n" + w))[SkipSpaces(x, 0)])
    ensures forall k :: SkipSpaces(x, 0) <= k < |x| ==> (x + ("\n" + w))[k] != '\n'
    ensures (x + ("\n" + w))[|x|] == '\n'
    ensures (x + ("\n" + w))[SkipSpaces(x, 0)..|x|] == x[SkipSpaces(x, 0)..]
  {
    var j := SkipSpaces(x, 0);
    assert j < |x| by {
      var k :| 0 <= k < |x| && !IsSpace(x[k]);
    }
    var y := x + ("\n" + w);
    forall k | 0 <= k < |x| ensures y[k] == x[k] {
    }
    assert y[j..|x|] == x[j..];
  }

  /** A segment that reads back: times under 100 minutes, and a one-line text,
      with neither `'\n'` nor `'\r'`, that has something visible on it. */
  predicate Rereadable(seg: TSegment) {
    0.0 <= seg.debut < 6000.0 && 0.0 <= seg.fin < 6000.0
    && '\n' !in seg.texte && SansRetour(seg.texte) && HasVisible(seg.texte)
  }

  /** The match a written segment's line gives. */
  function LineOf(seg: TSegment): LineMatch {
    var x := seg.texte;
    LineMatch(FormaterTemps(seg.debut), FormaterTemps(seg.fin), x[SkipSpaces(x, 0)..], 16 + |x|)
  }

  function LinesOf(segs: seq<TSegment>): (r: seq<LineMatch>)
    ensures |r| == |segs|
    ensures forall i :: 0 <= i < |segs| ==> r[i] == LineOf(segs[i])
  {
    Map(LineOf, segs)
  }

  /** What reading a written segment back gives: whole seconds, stripped text,
      no speaker. */
  function Reread(seg: TSegment): TSegment {
    TSegment(seg.debut.Floor as real, seg.fin.Floor as real, Strip(seg.texte), None)
  }

  function RereadAll(segs: seq<TSegment>): (r: seq<TSegment>)
    ensures |r| == |segs|
    ensures forall i :: 0 <= i < |segs| ==> r[i] == Reread(segs[i])
  {
    seq(|segs|, i requires 0 <= i < |segs| => Reread(segs[i]))
  }

  /** Converting a written segment's match gives the segment back, in whole
      seconds and stripped. */
  lemma LineOfRereads(seg: TSegment)
    requires Rereadable(seg)
    ensures IsClock(LineOf(seg).debut) && IsClock(LineOf(seg).fin)
    ensures ToSegment(LineOf(seg)) == Reread(seg)
  {
    FormaterTempsReadsBack(seg.debut);
    FormaterTempsReadsBack(seg.fin);
    StripAfterLeadingSpaces(seg.texte, SkipSpaces(seg.texte, 0));
  }

  /** The first line of a written file gives its segment's match, and the
      search then goes on with the next line. */
  lemma ReadFirstLine(seg: TSegment, rest: string)
    requires Rereadable(seg)
    ensures Matches(TimestampLine(seg) + rest) == [LineOf(seg)] + Matches(rest)
  {
    var a := FormaterTemps(seg.debut);
    var b := FormaterTemps(seg.fin);
    FormaterTempsClock(seg.debut);
    FormaterTempsClock(seg.fin);
    var x := seg.texte;
    var z := "\n" + rest;
    var y := x + z;
    var h := Head(a, b);
    var m := LineOf(seg);
    LineShape(seg, rest);
    assert TimestampLine(seg) + rest == h + y;
    LineTextChars(x, rest);
    MatchAfterHead(a, b, y, SkipSpaces(x, 0), |x|);
    assert MatchAt(h + y) == Some(m);
    HeadLength(a, b);
    TailAfter(h, x, z);
    assert m.end <= |h + y| && (h + y)[m.end..] == z;
    MatchesBeforeRest(h + y, m, rest);
  }

  lemma {:induction false} MatchesOfFile(segs: seq<TSegment>)
    requires forall i :: 0 <= i < |segs| ==> Rereadable(segs[i])
    ensures Matches(TimestampFile(segs)) == LinesOf(segs)
    decreases |segs|
  {
    if |segs| == 0 {
      assert Search("").None?;
    } else {
      MatchesOfFile(segs[1..]);
      MatchesOfFileStep(segs, TimestampFile(segs[1..]), LinesOf(segs[1..]));
    }
  }

  /** One more written line in front of the file gives one more match in front. */
  lemma MatchesOfFileStep(segs: seq<TSegment>, rest: string, lines: seq<LineMatch>)
    requires |segs| > 0 && Rereadable(segs[0])
    requires rest == TimestampFile(segs[1..]) && lines == LinesOf(segs[1..]) && Matches(rest) == lines
    ensures Matches(TimestampFile(segs)) == LinesOf(segs)
  {
    assert TimestampFile(segs) == TimestampLine(segs[0]) + rest;
    ReadFirstLine(segs[0], rest);
    LinesOfCons(segs);
  }

  lemma LinesOfCons(segs: seq<TSegment>)
    requires |segs| > 0
    ensures LinesOf(segs) == [LineOf(segs[0])] + LinesOf(segs[1..])
  {
    MapCons(LineOf, segs);
  }

  /** Writing a transcript to its `_timestamps.txt` form and reading it back
      gives every segment again, in order, with whole-second times and
      stripped text. */
  lemma TimestampFileRoundTrip(segs: seq<TSegment>)
    requires forall i :: 0 <= i < |segs| ==> Rereadable(segs[i])
    ensures ParseSegments(LireTexte(TimestampFile(segs))) == RereadAll(segs)
  {
    TimestampFileSansRetour(segs);
    MatchesOfFile(segs);
    forall i | 0 <= i < |segs| ensures ParseSegments(TimestampFile(segs))[i] == Reread(segs[i]) {
      LineOfRereads(segs[i]);
    }
  }

  /** A line whose first character is not whitespace and whose only `'\n'`
      is its last character. */
  predicate OneLine(l: string) {
    |l| >= 2 && !IsSpace(l[0]) && l[|l| - 1] == '\n'
    && forall k :: 0 <= k < |l| - 1 ==> l[k] != '\n'
  }

  /** The characters of a written line: it opens with `[`, not whitespace, and its only
      `'\n'` is its last character. */
  lemma WrittenLineChars(seg: TSegment)
    requires 0.0 <= seg.debut < 6000.0 && 0.0 <= seg.fin < 6000.0 && '\n' !in seg.texte
    ensures |TimestampLine(seg)| >= 17 && OneLine(TimestampLine(seg))
  {
    var a := FormaterTemps(seg.debut);
    var b := FormaterTemps(seg.fin);
    FormaterTempsClock(seg.debut);
    FormaterTempsClock(seg.fin);
    var l := TimestampLine(seg);
    LineShape(seg, "");
    assert l == Head(a, b) + (seg.texte + "\n");
    HeadChars(a, b, seg.texte + "\n");
    forall k | 0 <= k < |l| - 1 ensures l[k] != '\n' {
      if k >= 16 {
        assert l[k] == seg.texte[k - 16];
      } else if 1 <= k < 6 {
        assert l[k] == a[k - 1];
      } else if 9 <= k < 14 {
        assert l[k] == b[k - 9];
      }
    }
  }

  /** The characters after the head of a blank segment's line followed by
      another written line `l`: the whitespace runs on over the line end, and
      the text group is all of `l` but its line end. */
  lemma BlankLineChars(x: string, l: string, w: string, y: string)
    requires forall k :: 0 <= k < |x| ==> IsSpace(x[k])
    requires |l| >= 2 && !IsSpace(l[0]) && l[|l| - 1] == '\n'
    requires forall k :: 0 <= k < |l| - 1 ==> l[k] != '\n'
    requires y == x + ("\n" + (l + w))
    ensures |x| + |l| < |y|
    ensures forall k :: 0 <= k < |x| + 1 ==> IsSpace(y[k])
    ensures !IsSpace(y[|x| + 1])
    ensures forall k :: |x| + 1 <= k < |x| + |l| ==> y[k] != '\n'
    ensures y[|x| + |l|] == '\n'
    ensures y[|x| + 1..|x| + |l|] == l[..|l| - 1]
    ensures y[|x| + |l|..] == "\n" + w
  {
    forall k | 0 <= k < |l| + |w| ensures y[|x| + 1 + k] == (l + w)[k] {
    }
    assert y[|x| + 1..] == l + w;
    assert y[|x| + 1..|x| + |l|] == (l + w)[..|l| - 1];
    assert y[|x| + |l|..] == (l + w)[|l| - 1..];
    assert (l + w)[|l| - 1..] == [l[|l| - 1]] + w;
  }

  /** Dropping a prefix of the text after a head. */
  lemma DropAfter(h: string, y: string, e: nat)
    requires e <= |y|
    ensures (h + y)[|h| + e..] == y[e..]
  {
  }

  /** A segment whose text `x` is blank lets the last `\s*` run over the line
      end, so the line `l` after it, head and all, becomes that segment's text
      and is not read as a segment of its own. The segment's line is the head
      `[a - b] `, `x` and a line end, for any two clocks: every segment with
      times below 100 minutes is written so (`LineShape`, `FormaterTempsClock`),
      and every written line is such an `l` (`WrittenLineChars`). */
  lemma BlankTextTakesNextLine(a: string, b: string, x: string, l: string, rest: string)
    requires IsClock(a) && IsClock(b)
    requires forall k :: 0 <= k < |x| ==> IsSpace(x[k])
    requires OneLine(l)
    ensures Matches(Head(a, b) + (x + ("\n" + (l + rest))))
      == [LineMatch(a, b, l[..|l| - 1], 16 + |x| + |l|)] + Matches(rest)
  {
    var s := Head(a, b) + (x + ("\n" + (l + rest)));
    var m := LineMatch(a, b, l[..|l| - 1], 16 + |x| + |l|);
    var e := 16 + |x| + |l|;
    var z := "\n" + rest;
    BlankMatch(a, b, x, l, rest);
    BlankDrop(a, b, x, l, rest);
    assert e <= |s|;
    assert s[e..] == z;
    assert m.end == e;
    MatchesBeforeRest(s, m, rest);
  }

  /** `MatchesAfterLine` with the rest after the line end named. */
  lemma MatchesBeforeRest(s: string, m: LineMatch, rest: string)
    requires MatchAt(s) == Some(m)
    requires m.end <= |s| && s[m.end..] == "\n" + rest
    ensures Matches(s) == [m] + Matches(rest)
  {
    MatchesAfterLine(s, m, "\n" + rest);
    assert ("\n" + rest)[1..] == rest;
  }

  /** The match at the head of a blank segment's line takes in the next line. */
  lemma BlankMatch(a: string, b: string, x: string, l: string, rest: string)
    requires IsClock(a) && IsClock(b)
    requires forall k :: 0 <= k < |x| ==> IsSpace(x[k])
    requires OneLine(l)
    ensures MatchAt(Head(a, b) + (x + ("\n" + (l + rest))))
      == Some(LineMatch(a, b, l[..|l| - 1], 16 + |x| + |l|))
  {
    var y := x + ("\n" + (l + rest));
    BlankLineChars(x, l, rest, y);
    MatchAfterHead(a, b, y, |x| + 1, |x| + |l|);
  }

  /** What follows that match is the next line's line end and the rest. */
  lemma BlankDrop(a: string, b: string, x: string, l: string, rest: string)
    requires IsClock(a) && IsClock(b)
    requires forall k :: 0 <= k < |x| ==> IsSpace(x[k])
    requires OneLine(l)
    ensures 16 + |x| + |l| <= |Head(a, b) + (x + ("\n" + (l + rest)))|
    ensures (Head(a, b) + (x + ("\n" + (l + rest))))[16 + |x| + |l|..] == "\n" + rest
  {
    var y := x + ("\n" + (l + rest));
    BlankLineChars(x, l, rest, y);
    HeadLength(a, b);
    DropAfter(Head(a, b), y, |x| + |l|);
  }

  lemma HeadLength(a: string, b: string)
    ensures |Head(a, b)| == |a| + |b| + 6
  {
  }
}
