/** The segment editor shown before the final montage: it works on its own
    copy of a suggestion's segments and adds, edits, deletes, moves and resets
    them, then checks them before accepting. The table's current row, the
    answers to the dialogs and what was typed into them are parameters of the
    operations. */
module SegmentEditor {
  import opened Common
  import opened Sorting

  /** A segment of the editor: times in seconds, source file and description
      when the segment has them. */
  datatype Segment = Segment(debut: real, fin: real, fichier: Option<string>, description: Option<string>)

  /** A time typed in an `mm:ss` field. */
  datatype Heure = Heure(minute: nat, seconde: nat)

  /** What the add and edit dialogs hold when they are confirmed. */
  datatype Saisie = Saisie(debut: Heure, fin: Heure, fichier: string, description: string)

  /** How an editing operation ended. */
  datatype Issue =
    | Fait
    | Annule            // the dialog was cancelled or the question answered "No"
    | AucuneSelection   // "Sélectionnez un segment ..."
    | DebutApresFin     // "Le début doit être avant la fin"
    | DescriptionAbsente  // `segment['description']` raises `KeyError`

  /** How the final check ended. */
  datatype Validation = Accepte | AucunSegment | Abandonne

  /** `minute() * 60 + second()`. */
  function Secondes(h: Heure): nat {
    h.minute * 60 + h.seconde
  }

  /** The segment a confirmed dialog describes. */
  function Nouveau(s: Saisie): Segment {
    Segment(Secondes(s.debut) as real, Secondes(s.fin) as real, Some(s.fichier), Some(s.description))
  }

  /** `sum(seg['fin'] - seg['debut'] for seg in segments)`. */
  function DureeTotale(segs: seq<Segment>): real
    decreases |segs|
  {
    if |segs| == 0 then 0.0 else DureeTotale(segs[..|segs| - 1]) + (segs[|segs| - 1].fin - segs[|segs| - 1].debut)
  }

  /** `sorted(segments, key=lambda s: s['debut'])`. */
  function Tries(segs: seq<Segment>): seq<Segment> {
    SortBy(segs, KeyLess((s: Segment) => s.debut))
  }

  /** Some segment ends after the next one starts. */
  predicate Chevauche(t: seq<Segment>) {
    exists i :: 0 <= i < |t| - 1 && t[i].fin > t[i + 1].debut
  }

  class Editeur {
    /** The suggestion's segments, never changed by the editor. */
    const suggestion: seq<Segment>
    /** The segments being edited. */
    var segments: seq<Segment>

    /** The editor starts from a copy of the suggestion's segments. */
    constructor (suggestion: seq<Segment>)
      ensures this.suggestion == suggestion && segments == suggestion
    {
      this.suggestion := suggestion;
      segments := suggestion;
    }

    /** `_add_segment`: a confirmed dialog whose start is before its end
        appends exactly one segment. */
    method Ajouter(accepte: bool, saisie: Saisie) returns (issue: Issue)
      modifies this
      ensures !accepte ==> issue == Annule
      ensures accepte && Secondes(saisie.debut) >= Secondes(saisie.fin) ==> issue == DebutApresFin
      ensures accepte && Secondes(saisie.debut) < Secondes(saisie.fin) ==> issue == Fait
      ensures issue == Fait ==> segments == old(segments) + [Nouveau(saisie)]
      ensures issue != Fait ==> segments == old(segments)
    {
      if !accepte {
        return Annule;
      }
      var debutSec := Secondes(saisie.debut);
      var finSec := Secondes(saisie.fin);
      if debutSec >= finSec {
        return DebutApresFin;
      }
      segments := segments + [Segment(debutSec as real, finSec as real, Some(saisie.fichier), Some(saisie.description))];
      return Fait;
    }

    /** `_edit_segment`: with a row selected, a segment that has a description
        and a confirmed dialog whose start is before its end, only that row is
        replaced. */
    method Modifier(ligne: int, accepte: bool, saisie: Saisie) returns (issue: Issue)
      requires -1 <= ligne < |segments|
      modifies this
      ensures ligne < 0 ==> issue == AucuneSelection
      ensures ligne >= 0 && old(segments)[ligne].description.None? ==> issue == DescriptionAbsente
      ensures ligne >= 0 && old(segments)[ligne].description.Some? ==>
        issue == (if !accepte then Annule else if Secondes(saisie.debut) >= Secondes(saisie.fin) then DebutApresFin else Fait)
      ensures issue == Fait ==> segments == old(segments)[ligne := Nouveau(saisie)]
      ensures issue != Fait ==> segments == old(segments)
    {
      if ligne < 0 {
        return AucuneSelection;
      }
      var segment := segments[ligne];
      if segment.description.None? {
        return DescriptionAbsente;
      }
      if !accepte {
        return Annule;
      }
      var debutSec := Secondes(saisie.debut);
      var finSec := Secondes(saisie.fin);
      if debutSec >= finSec {
        return DebutApresFin;
      }
      segments := segments[ligne := Segment(debutSec as real, finSec as real, Some(saisie.fichier), Some(saisie.description))];
      return Fait;
    }

    /** `_delete_segment`: a confirmed delete removes exactly the selected row. */
    method Supprimer(ligne: int, confirme: bool) returns (issue: Issue)
      requires -1 <= ligne < |segments|
      modifies this
      ensures ligne < 0 ==> issue == AucuneSelection
      ensures ligne >= 0 ==> issue == (if confirme then Fait else Annule)
      ensures issue == Fait ==> segments == old(segments)[..ligne] + old(segments)[ligne + 1..]
      ensures issue != Fait ==> segments == old(segments)
    {
      if ligne < 0 {
        return AucuneSelection;
      }
      if confirme {
        segments := segments[..ligne] + segments[ligne + 1..];
        return Fait;
      }
      return Annule;
    }

    /** `_move_up`: the selected row changes place with the one above it and
        the selection follows it; from the first row, or without a selection,
        nothing happens. */
    method Monter(ligne: int) returns (selection: int)
      requires -1 <= ligne < |segments|
      modifies this
      ensures ligne <= 0 ==> segments == old(segments) && selection == ligne
      ensures ligne > 0 ==>
        && selection == ligne - 1
        && |segments| == |old(segments)|
        && segments[ligne - 1] == old(segments)[ligne] && segments[ligne] == old(segments)[ligne - 1]
        && forall k :: 0 <= k < |segments| && k != ligne - 1 && k != ligne ==> segments[k] == old(segments)[k]
      ensures ligne > 0 ==> segments == Echange(old(segments), ligne - 1)
    {
      if ligne <= 0 {
        return ligne;
      }
      segments := segments[ligne := segments[ligne - 1]][ligne - 1 := segments[ligne]];
      return ligne - 1;
    }

    /** `_move_down`: the selected row changes place with the one below it and
        the selection follows it; from the last row, or without a selection,
        nothing happens. */
    method Descendre(ligne: int) returns (selection: int)
      requires -1 <= ligne < |segments|
      modifies this
      ensures ligne < 0 || ligne >= |old(segments)| - 1 ==> segments == old(segments) && selection == ligne
      ensures 0 <= ligne < |old(segments)| - 1 ==>
        && selection == ligne + 1
        && |segments| == |old(segments)|
        && segments[ligne] == old(segments)[ligne + 1] && segments[ligne + 1] == old(segments)[ligne]
        && forall k :: 0 <= k < |segments| && k != ligne && k != ligne + 1 ==> segments[k] == old(segments)[k]
      ensures 0 <= ligne < |old(segments)| - 1 ==> segments == Echange(old(segments), ligne)
    {
      if ligne < 0 || ligne >= |segments| - 1 {
        return ligne;
      }
      segments := segments[ligne := segments[ligne + 1]][ligne + 1 := segments[ligne]];
      return ligne + 1;
    }

    /** `_reset_segments`: a confirmed reset brings back a fresh copy of the
        suggestion's segments. */
    method Reinitialiser(confirme: bool)
      modifies this
      ensures confirme ==> segments == suggestion
      ensures !confirme ==> segments == old(segments)
    {
      if confirme {
        segments := suggestion;
      }
    }

    /** `_validate_and_accept`: an empty list is refused; otherwise the
        segments, in order of their start, are checked for one that ends after
        the next one starts, and only such an overlap asks whether to go on.
        The check sorts a copy: `segments` keeps its order. */
    method Valider(continuer: bool) returns (r: Validation)
      ensures |segments| == 0 ==> r == AucunSegment
      ensures |segments| > 0 && !Chevauche(Tries(segments)) ==> r == Accepte
      ensures |segments| > 0 && Chevauche(Tries(segments)) ==> r == (if continuer then Accepte else Abandonne)
    {
      if |segments| == 0 {
        return AucunSegment;
      }
      var tries := Tries(segments);
      var i := 0;
      while i < |tries| - 1
        invariant 0 <= i <= |tries|
        invariant forall k :: 0 <= k < i && k < |tries| - 1 ==> tries[k].fin <= tries[k + 1].debut
      {
        if tries[i].fin > tries[i + 1].debut {
          if !continuer {
            return Abandonne;
          }
          break;
        }
        i := i + 1;
      }
      return Accepte;
    }
  }

  /** Rows `i` and `i + 1` change places. */
  function Echange(s: seq<Segment>, i: nat): seq<Segment>
    requires i + 1 < |s|
  {
    s[..i] + [s[i + 1], s[i]] + s[i + 2..]
  }

  /** A swap changes the two rows and no other, and keeps the same segments. */
  lemma EchangeEffet(s: seq<Segment>, i: nat)
    requires i + 1 < |s|
    ensures var r := Echange(s, i);
      && |r| == |s| && r[i] == s[i + 1] && r[i + 1] == s[i]
      && (forall k :: 0 <= k < |s| && k != i && k != i + 1 ==> r[k] == s[k])
      && multiset(r) == multiset(s)
  {
    var r := Echange(s, i);
    assert s == s[..i] + [s[i], s[i + 1]] + s[i + 2..];
    forall k | 0 <= k < |s| && k != i && k != i + 1 ensures r[k] == s[k] {
      if k < i {
        assert r[k] == s[..i][k];
      } else {
        assert r[k] == s[i + 2..][k - i - 2];
      }
    }
  }

  /** The total of two lists one after the other is the sum of their totals. */
  lemma {:induction false} DureeConcat(a: seq<Segment>, b: seq<Segment>)
    ensures DureeTotale(a + b) == DureeTotale(a) + DureeTotale(b)
    decreases |b|
  {
    if |b| == 0 {
      assert a + b == a;
    } else {
      var c := b[..|b| - 1];
      assert (a + b)[..|a + b| - 1] == a + c;
      DureeConcat(a, c);
    }
  }

  /** Adding a segment adds its length to the total. */
  lemma DureeAjout(s: seq<Segment>, x: Segment)
    ensures DureeTotale(s + [x]) == DureeTotale(s) + (x.fin - x.debut)
  {
    assert (s + [x])[..|s|] == s;
  }

  /** A list is what comes before row `i`, row `i`, and what comes after. */
  lemma Decoupe(s: seq<Segment>, i: nat)
    requires i < |s|
    ensures s == s[..i] + [s[i]] + s[i + 1..]
  {
  }

  /** A list around rows `i` and `i + 1`, before and after the swap. */
  lemma DecoupeEchange(s: seq<Segment>, i: nat)
    requires i + 1 < |s|
    ensures s == (s[..i] + [s[i]]) + [s[i + 1]] + s[i + 2..]
    ensures Echange(s, i) == (s[..i] + [s[i + 1]]) + [s[i]] + s[i + 2..]
  {
  }

  /** The total of a list with one more segment in the middle. */
  lemma DureeMilieu(a: seq<Segment>, x: Segment, c: seq<Segment>)
    ensures DureeTotale(a + [x] + c) == DureeTotale(a) + (x.fin - x.debut) + DureeTotale(c)
  {
    DureeConcat(a + [x], c);
    DureeAjout(a, x);
  }

  /** Deleting a row takes its length off the total. */
  lemma DureeSuppression(s: seq<Segment>, i: nat)
    requires i < |s|
    ensures DureeTotale(s[..i] + s[i + 1..]) == DureeTotale(s) - (s[i].fin - s[i].debut)
  {
    var a, x, c := s[..i], s[i], s[i + 1..];
    Decoupe(s, i);
    DureeMilieu(a, x, c);
    DureeConcat(a, c);
  }

  /** Moving a row up or down keeps the total. */
  lemma DureeEchange(s: seq<Segment>, i: nat)
    requires i + 1 < |s|
    ensures DureeTotale(Echange(s, i)) == DureeTotale(s)
  {
    var a, x, y, c := s[..i], s[i], s[i + 1], s[i + 2..];
    DecoupeEchange(s, i);
    DureeMilieu(a + [x], y, c);
    DureeMilieu(a + [y], x, c);
    DureeAjout(a, x);
    DureeAjout(a, y);
  }

  /** Segments that each start no later than they end and pass the overlap
      check are pairwise apart in their sorted order: every one ends before any
      later one starts. Segments that touch pass the check. */
  lemma {:induction false} SansChevauchementDisjoints(t: seq<Segment>, i: nat, j: nat)
    requires forall k :: 0 <= k < |t| ==> t[k].debut <= t[k].fin
    requires !Chevauche(t)
    requires i < j < |t|
    ensures t[i].fin <= t[j].debut
    decreases j
  {
    assert !(t[j - 1].fin > t[j].debut);
    if i < j - 1 {
      SansChevauchementDisjoints(t, i, j - 1);
    }
  }

  /** The overlap check looks at a permutation of the segments, sorted by start. */
  lemma TriesPermutation(segs: seq<Segment>)
    ensures multiset(Tries(segs)) == multiset(segs)
    ensures forall i, j :: 0 <= i < j < |Tries(segs)| ==> Tries(segs)[i].debut <= Tries(segs)[j].debut
  {
    var key := (s: Segment) => s.debut;
    KeyLessStrict(key);
    SortBySorted(segs, KeyLess(key));
  }
}
