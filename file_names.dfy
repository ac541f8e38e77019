/** `_nettoyer_nom_fichier`: a suggestion's title made into a file name. The
    characters that are neither word characters, whitespace nor `-` are
    removed, every run of `-` and whitespace becomes one `_`, the first 50
    characters are kept and lower-cased. What a word character is and what
    lower case is are given exactly for Latin-1; for the characters beyond it
    the Unicode database decides, which is a parameter here. */
module FileNames {
  import opened Text

  /** `str.isalnum()` on Latin-1: ASCII letters and digits, the letters
      `ª µ º` and `À`–`ÿ` without `×` and `÷`, and the numerals `² ³ ¹ ¼ ½ ¾`.
      Beyond Latin-1, `alnumUnicode` answers. */
  predicate IsAlnum(c: char, alnumUnicode: char -> bool) {
    if c > '\U{FF}' then alnumUnicode(c)
    else
      || ('a' <= c <= 'z') || ('A' <= c <= 'Z') || ('0' <= c <= '9')
      || c == '\U{AA}' || c == '\U{B5}' || c == '\U{BA}'
      || c == '\U{B2}' || c == '\U{B3}' || c == '\U{B9}' || ('\U{BC}' <= c <= '\U{BE}')
      || ('\U{C0}' <= c <= '\U{FF}' && c != '\U{D7}' && c != '\U{F7}')
  }

  /** `\w`: an alphanumeric character or `_`. */
  predicate IsWordChar(c: char, alnumUnicode: char -> bool) {
    IsAlnum(c, alnumUnicode) || c == '_'
  }

  /** What `[^\w\s-]` does not match. */
  predicate Garde(c: char, alnumUnicode: char -> bool) {
    IsWordChar(c, alnumUnicode) || IsSpace(c) || c == '-'
  }

  /** What `[-\s]` matches. */
  predicate IsSeparateur(c: char) {
    IsSpace(c) || c == '-'
  }

  /** `re.sub(r'[^\w\s-]', '', s)`: the kept characters, in order. */
  function Filtrer(s: string, alnumUnicode: char -> bool): (r: string)
    ensures |r| <= |s|
    ensures forall k :: 0 <= k < |r| ==> Garde(r[k], alnumUnicode)
    ensures (forall k :: 0 <= k < |s| ==> Garde(s[k], alnumUnicode)) ==> r == s
    decreases |s|
  {
    if |s| == 0 then ""
    else if Garde(s[0], alnumUnicode) then [s[0]] + Filtrer(s[1..], alnumUnicode)
    else
      assert !(forall k :: 0 <= k < |s| ==> Garde(s[k], alnumUnicode)) by {
        assert !Garde(s[0], alnumUnicode);
      }
      Filtrer(s[1..], alnumUnicode)
  }

  /** The separators at the head of `s`. */
  function SauterSeparateurs(s: string): (r: nat)
    ensures r <= |s|
    ensures forall k :: 0 <= k < r ==> IsSeparateur(s[k])
    ensures r == |s| || !IsSeparateur(s[r])
    decreases |s|
  {
    if |s| > 0 && IsSeparateur(s[0]) then 1 + SauterSeparateurs(s[1..]) else 0
  }

  /** `re.sub(r'[-\s]+', '_', s)`: every maximal run of separators becomes one `_`. */
  function Remplacer(s: string): (r: string)
    ensures |r| <= |s|
    ensures forall k :: 0 <= k < |r| ==> !IsSeparateur(r[k])
    ensures forall k :: 0 <= k < |r| ==> r[k] == '_' || r[k] in s
    ensures (forall k :: 0 <= k < |s| ==> !IsSeparateur(s[k])) ==> r == s
    decreases |s|
  {
    if |s| == 0 then ""
    else if IsSeparateur(s[0]) then
      var n := SauterSeparateurs(s);
      var t := Remplacer(s[n..]);
      assert forall c :: c in t && c != '_' ==> c in s by {
        forall c | c in t && c != '_' ensures c in s {
          var k :| 0 <= k < |s[n..]| && s[n..][k] == c;
          assert s[n + k] == c;
        }
      }
      "_" + t
    else
      var t := Remplacer(s[1..]);
      assert forall c :: c in t ==> c == '_' || c in s by {
        forall c | c in t && c != '_' ensures c in s {
          var k :| 0 <= k < |s[1..]| && s[1..][k] == c;
          assert s[1 + k] == c;
        }
      }
      assert (forall k :: 0 <= k < |s| ==> !IsSeparateur(s[k])) ==> forall k :: 0 <= k < |s[1..]| ==> !IsSeparateur(s[1..][k]);
      [s[0]] + t
  }

  /** Filtering works character by character: it distributes over
      concatenation, and keeps one character exactly when `Garde` holds. */
  lemma {:induction false} FiltrerConcat(a: string, b: string, alnumUnicode: char -> bool)
    ensures Filtrer(a + b, alnumUnicode) == Filtrer(a, alnumUnicode) + Filtrer(b, alnumUnicode)
    decreases |a|
  {
    if |a| > 0 {
      assert (a + b)[0] == a[0];
      assert (a + b)[1..] == a[1..] + b;
      FiltrerConcat(a[1..], b, alnumUnicode);
    } else {
      assert a + b == b;
    }
  }

  lemma FiltrerUn(c: char, alnumUnicode: char -> bool)
    ensures Filtrer([c], alnumUnicode) == if Garde(c, alnumUnicode) then [c] else []
  {
    assert [c][1..] == [];
  }

  /** The separators at the head of `u + v`: those of `u`, and when `u` is
      all separators, those of `v` after them. */
  lemma {:induction false} SauterConcat(u: string, v: string)
    ensures SauterSeparateurs(u + v) ==
      if SauterSeparateurs(u) < |u| then SauterSeparateurs(u) else |u| + SauterSeparateurs(v)
    decreases |u|
  {
    if |u| == 0 {
      assert u + v == v;
    } else {
      assert (u + v)[0] == u[0];
      if IsSeparateur(u[0]) {
        assert (u + v)[1..] == u[1..] + v;
        SauterConcat(u[1..], v);
      }
    }
  }

  /** Replacing separators works run by run: it distributes over a
      concatenation that does not cut a run of separators in two. */
  lemma {:induction false} RemplacerConcat(u: string, v: string)
    requires |u| == 0 || |v| == 0 || !IsSeparateur(u[|u| - 1]) || !IsSeparateur(v[0])
    ensures Remplacer(u + v) == Remplacer(u) + Remplacer(v)
    decreases |u|, 2
  {
    var x := u + v;
    if |u| == 0 {
      assert x == v;
    } else if |v| == 0 {
      assert x == u;
    } else if !IsSeparateur(u[0]) {
      assert x[1..] == u[1..] + v;
      RemplacerConcat(u[1..], v);
      RemplacerTete(x);
      RemplacerTete(u);
    } else {
      RemplacerConcatRun(u, v);
    }
  }

  /** The case of `RemplacerConcat` where `u` opens with a separator. */
  lemma {:induction false} RemplacerConcatRun(u: string, v: string)
    requires |u| > 0 && |v| > 0 && IsSeparateur(u[0])
    requires !IsSeparateur(u[|u| - 1]) || !IsSeparateur(v[0])
    ensures Remplacer(u + v) == Remplacer(u) + Remplacer(v)
    decreases |u|, 1
  {
    SauterConcat(u, v);
    if SauterSeparateurs(u) < |u| {
      RemplacerConcatRunMot(u, v);
    } else {
      RemplacerConcatRunTout(u, v);
    }
  }

  /** `u` opens with a run of separators that a word character ends. */
  lemma {:induction false} RemplacerConcatRunMot(u: string, v: string)
    requires |u| > 0 && |v| > 0 && IsSeparateur(u[0])
    requires !IsSeparateur(u[|u| - 1]) || !IsSeparateur(v[0])
    requires SauterSeparateurs(u) < |u| && SauterSeparateurs(u + v) == SauterSeparateurs(u)
    ensures Remplacer(u + v) == Remplacer(u) + Remplacer(v)
    decreases |u|, 0
  {
    var x := u + v;
    var n := SauterSeparateurs(u);
    assert x[0] == u[0];
    RemplacerRunTete(x);
    RemplacerRunTete(u);
    var w := u[n..];
    assert x[n..] == w + v;
    assert w[|w| - 1] == u[|u| - 1];
    RemplacerConcat(w, v);
    Recombiner(Remplacer(x), Remplacer(u), Remplacer(w + v), Remplacer(w), Remplacer(v));
  }

  /** `u` is all separators, and `v` opens with a word character. */
  lemma RemplacerConcatRunTout(u: string, v: string)
    requires |u| > 0 && |v| > 0 && IsSeparateur(u[0])
    requires !IsSeparateur(u[|u| - 1]) || !IsSeparateur(v[0])
    requires SauterSeparateurs(u) == |u| && SauterSeparateurs(u + v) == |u| + SauterSeparateurs(v)
    ensures Remplacer(u + v) == Remplacer(u) + Remplacer(v)
  {
    var x := u + v;
    assert x[0] == u[0];
    assert !IsSeparateur(v[0]);
    RemplacerRunTete(x);
    RemplacerRunTete(u);
    assert x[|u|..] == v;
    assert u[|u|..] == [];
  }

  lemma Recombiner(p: string, q: string, a: string, b: string, c: string)
    requires p == "_" + a && q == "_" + b && a == b + c
    ensures p == q + c
  {
  }

  /** One step of `Remplacer` at a character that is no separator. */
  lemma RemplacerTete(s: string)
    requires |s| > 0 && !IsSeparateur(s[0])
    ensures Remplacer(s) == [s[0]] + Remplacer(s[1..])
  {
  }

  /** One step of `Remplacer` at a run of separators. */
  lemma RemplacerRunTete(s: string)
    requires |s| > 0 && IsSeparateur(s[0])
    ensures Remplacer(s) == "_" + Remplacer(s[SauterSeparateurs(s)..])
  {
  }

  /** A non-empty run of separators becomes one `_`, and a character that
      is no separator is kept. */
  lemma RemplacerRun(s: string)
    requires |s| > 0 && forall k :: 0 <= k < |s| ==> IsSeparateur(s[k])
    ensures Remplacer(s) == "_"
  {
    assert SauterSeparateurs(s) == |s| by {
      SauterTout(s);
    }
    assert s[|s|..] == [];
  }

  lemma {:induction false} SauterTout(s: string)
    requires forall k :: 0 <= k < |s| ==> IsSeparateur(s[k])
    ensures SauterSeparateurs(s) == |s|
    decreases |s|
  {
    if |s| > 0 {
      SauterTout(s[1..]);
    }
  }

  lemma RemplacerMot(c: char)
    requires !IsSeparateur(c)
    ensures Remplacer([c]) == [c]
  {
    assert [c][1..] == [];
  }

  /** `str.lower()` on one character: ASCII and Latin-1 capitals move down by
      `0x20` (`×` is no letter); other characters are kept. */
  function Minuscule(c: char): (r: char)
    ensures ('A' <= c <= 'Z') ==> r == (c as int + 32) as char
    ensures !('A' <= c <= 'Z') && !('\U{C0}' <= c <= '\U{DE}') ==> r == c
  {
    if ('A' <= c <= 'Z') || ('\U{C0}' <= c <= '\U{DE}' && c != '\U{D7}') then (c as int + 32) as char else c
  }

  /** `str.lower()`. */
  function Minuscules(s: string): (r: string)
    ensures |r| == |s|
    ensures forall k :: 0 <= k < |s| ==> r[k] == Minuscule(s[k])
  {
    seq(|s|, k requires 0 <= k < |s| => Minuscule(s[k]))
  }

  /** `_nettoyer_nom_fichier(nom)`. */
  function NettoyerNomFichier(nom: string, alnumUnicode: char -> bool): string {
    var r := Remplacer(Filtrer(nom, alnumUnicode));
    Minuscules(if |r| <= 50 then r else r[..50])
  }

  /** Lower-casing keeps a character a word character and is idempotent, and
      never turns a character into a separator. */
  lemma MinusculeMot(c: char, alnumUnicode: char -> bool)
    ensures IsWordChar(c, alnumUnicode) ==> IsWordChar(Minuscule(c), alnumUnicode)
    ensures Minuscule(Minuscule(c)) == Minuscule(c)
    ensures !IsSeparateur(c) ==> !IsSeparateur(Minuscule(c))
    ensures !('A' <= Minuscule(c) <= 'Z')
  {
  }

  /** The name is the first 50 characters (or all of them) of the filtered,
      replaced and lower-cased text; it holds only word characters, with no
      whitespace, no `-`, and every character already in lower case. */
  lemma NettoyerForme(nom: string, alnumUnicode: char -> bool)
    ensures var m := Remplacer(Filtrer(nom, alnumUnicode));
      var r := NettoyerNomFichier(nom, alnumUnicode);
      && |r| == (if |m| <= 50 then |m| else 50)
      && r == Minuscules(m)[..|r|]
      && forall k :: 0 <= k < |r| ==>
           && !IsSpace(r[k]) && r[k] != '-' && Minuscule(r[k]) == r[k]
           && IsWordChar(r[k], alnumUnicode)
  {
    var f := Filtrer(nom, alnumUnicode);
    var m := Remplacer(f);
    var c := if |m| <= 50 then m else m[..50];
    var r := NettoyerNomFichier(nom, alnumUnicode);
    forall k | 0 <= k < |r|
      ensures !IsSpace(r[k]) && r[k] != '-' && !('A' <= r[k] <= 'Z') && IsWordChar(r[k], alnumUnicode)
    {
      assert r[k] == Minuscule(c[k]);
      assert c[k] == m[k];
      assert !IsSeparateur(m[k]);
      if m[k] != '_' {
        assert m[k] in f;
        var j :| 0 <= j < |f| && f[j] == m[k];
        assert Garde(f[j], alnumUnicode);
      }
      MinusculeMot(c[k], alnumUnicode);
    }
    assert r == Minuscules(m)[..|r|];
  }

  /** A name already cleaned is left as it is. */
  lemma NettoyerIdempotent(nom: string, alnumUnicode: char -> bool)
    ensures NettoyerNomFichier(NettoyerNomFichier(nom, alnumUnicode), alnumUnicode) == NettoyerNomFichier(nom, alnumUnicode)
  {
    var r := NettoyerNomFichier(nom, alnumUnicode);
    NettoyerForme(nom, alnumUnicode);
    assert forall k :: 0 <= k < |r| ==> Garde(r[k], alnumUnicode);
    assert Filtrer(r, alnumUnicode) == r;
    assert forall k :: 0 <= k < |r| ==> !IsSeparateur(r[k]);
    assert Remplacer(r) == r;
    forall k | 0 <= k < |r| ensures Minuscule(r[k]) == r[k] {
      var m := Remplacer(Filtrer(nom, alnumUnicode));
      var c := if |m| <= 50 then m else m[..50];
      assert r[k] == Minuscule(c[k]);
      MinusculeMot(c[k], alnumUnicode);
    }
    assert Minuscules(r) == r;
  }
}
