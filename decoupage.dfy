/** The découpage file of the manual workflow: its structure check, the check
    of every segment against its source file (with the end clamped to the
    file's length within a tolerance), and the conversion into extracted
    clips. Opening and decoding files is an input: a map from file name to
    what decoding that file gives; a name the map lacks is a file that does
    not exist. */
module Decoupage {
  import opened Common
  import opened Text
  import opened Audio
  import opened Sorting

  /** The `ValueError`s of the structure check (indices are 1-based, as in
      the messages), and the `TypeError`s Python raises on the way. */
  datatype DecoupageErreur =
    | SansCleSegments
    | SegmentsPasUneListe
    | AucunSegment
    | ChampManquant(index: nat, champ: string)
    | DebutApresFin(index: nat)
    | TempsNegatif(index: nat)
    | ErreurTypeDecoupage
    | ErreurType(index: nat)

  const ChampsRequis: seq<string> := ["fichier", "debut", "fin"]

  /** The `for champ in champs_requis` test from `champs[i]` on. */
  function ChampsPresents(seg: Json, index: nat, champs: seq<string>): (r: Result<(), DecoupageErreur>)
    ensures seg.JObject? ==>
      (r.Ok? <==> forall c :: c in champs ==> c in seg.fields)
    ensures seg.JObject? && r.Err? ==>
      exists k :: 0 <= k < |champs| && r.error == ChampManquant(index + 1, champs[k]) && champs[k] !in seg.fields &&
        forall j :: 0 <= j < k ==> champs[j] in seg.fields
    decreases |champs|
  {
    if |champs| == 0 then Ok(())
    else match In(champs[0], seg) {
      case None => Err(ErreurType(index + 1))
      case Some(false) => Err(ChampManquant(index + 1, champs[0]))
      case Some(true) =>
        var r := ChampsPresents(seg, index, champs[1..]);
        assert forall c :: c in champs <==> c == champs[0] || c in champs[1..];
        if r.Err? && seg.JObject? then
          var k :| 0 <= k < |champs[1..]| && r.error == ChampManquant(index + 1, champs[1..][k]) &&
            champs[1..][k] !in seg.fields && forall j :: 0 <= j < k ==> champs[1..][j] in seg.fields;
          assert r.error == ChampManquant(index + 1, champs[k + 1]);
          r
        else r
    }
  }

  /** Python's `a >= b` on two decoded JSON values: numbers (and booleans)
      by value, strings by code points; for other pairs Python raises
      `TypeError`, shown as `None`. */
  function AtLeast(a: Json, b: Json): (r: Option<bool>)
    ensures Num(a).Some? && Num(b).Some? ==> r == Some(Num(a).value >= Num(b).value)
    ensures a.JString? && b.JString? ==> r == Some(!LexLess(a.s, b.s, (x: char, y: char) => x < y))
    ensures r.Some? ==> (Num(a).Some? && Num(b).Some?) || (a.JString? && b.JString?)
  {
    match (Num(a), Num(b))
    case (Some(x), Some(y)) => Some(x >= y)
    case _ =>
      if a.JString? && b.JString? then Some(!LexLess(a.s, b.s, (x: char, y: char) => x < y))
      else None
  }

  /** A segment that passes `_valider_segment`. */
  predicate SegmentValide(seg: Json) {
    && seg.JObject?
    && "fichier" in seg.fields && "debut" in seg.fields && "fin" in seg.fields
    && Num(seg.fields["debut"]).Some? && Num(seg.fields["fin"]).Some?
    && 0.0 <= Num(seg.fields["debut"]).value < Num(seg.fields["fin"]).value
  }

  /** `_valider_segment(segment, index)`: the fields in the order `fichier`,
      `debut`, `fin`, then `debut >= fin` is refused, then a negative time.
      Times Python cannot compare raise `TypeError`; two strings compare, so
      they fail only at the test against 0. */
  function ValiderSegment(seg: Json, index: nat): (r: Result<(), DecoupageErreur>)
    ensures r.Ok? <==> SegmentValide(seg)
    ensures seg.JObject? && r.Err? && r.error.ChampManquant? ==>
      r.error.index == index + 1 && r.error.champ in ChampsRequis && r.error.champ !in seg.fields
    ensures seg.JObject? && "fichier" in seg.fields && "debut" in seg.fields && "fin" in seg.fields ==>
      var d := seg.fields["debut"];
      var f := seg.fields["fin"];
      && (AtLeast(d, f) == Some(true) ==> r == Err(DebutApresFin(index + 1)))
      && (AtLeast(d, f) == Some(false) && Num(d).Some? && (Num(d).value < 0.0 || Num(f).value < 0.0)
          ==> r == Err(TempsNegatif(index + 1)))
      && (AtLeast(d, f) == Some(false) && d.JString? ==> r == Err(ErreurType(index + 1)))
  {
    match ChampsPresents(seg, index, ChampsRequis) {
      case Err(e) =>
        assert seg.JObject? ==> "fichier" in ChampsRequis && "debut" in ChampsRequis && "fin" in ChampsRequis;
        Err(e)
      case Ok(_) =>
        assert seg.JObject? ==> "debut" in ChampsRequis && "fin" in ChampsRequis && "fichier" in ChampsRequis;
        if !seg.JObject? then Err(ErreurType(index + 1))
        else
          var d := seg.fields["debut"];
          var f := seg.fields["fin"];
          match AtLeast(d, f) {
            case None => Err(ErreurType(index + 1))
            case Some(true) => Err(DebutApresFin(index + 1))
            case Some(false) =>
              match (Num(d), Num(f)) {
                case (Some(x), Some(y)) =>
                  if x < 0.0 || y < 0.0 then Err(TempsNegatif(index + 1)) else Ok(())
                case _ => Err(ErreurType(index + 1))
              }
          }
    }
  }

  /** The segments from `segs[i]` on, in order; the first failure is raised. */
  function ValiderSegments(segs: seq<Json>, i: nat): (r: Result<(), DecoupageErreur>)
    requires i <= |segs|
    ensures r.Ok? <==> forall k :: i <= k < |segs| ==> SegmentValide(segs[k])
    decreases |segs| - i
  {
    if i == |segs| then Ok(())
    else match ValiderSegment(segs[i], i) {
      case Err(e) => Err(e)
      case Ok(_) => ValiderSegments(segs, i + 1)
    }
  }

  /** The error raised is that of the first invalid segment. */
  lemma {:induction false} ValiderSegmentsPremier(segs: seq<Json>, i: nat)
    requires i <= |segs|
    ensures ValiderSegments(segs, i).Err? ==>
      exists k :: i <= k < |segs| && ValiderSegment(segs[k], k) == ValiderSegments(segs, i) &&
        forall j :: i <= j < k ==> SegmentValide(segs[j])
    decreases |segs| - i
  {
    if i < |segs| && ValiderSegment(segs[i], i).Ok? {
      ValiderSegmentsPremier(segs, i + 1);
    }
  }

  /** A découpage that passes `_valider_structure`. */
  predicate DecoupageValide(d: Json) {
    && d.JObject? && "segments" in d.fields
    && d.fields["segments"].JArray? && |d.fields["segments"].items| > 0
    && forall k :: 0 <= k < |d.fields["segments"].items| ==> SegmentValide(d.fields["segments"].items[k])
  }

  /** `_valider_structure(decoupage)`: a `segments` key, holding a list, not
      empty, and every segment valid. */
  function ValiderStructure(d: Json): (r: Result<(), DecoupageErreur>)
    ensures r.Ok? <==> DecoupageValide(d)
    ensures d.JObject? && "segments" !in d.fields ==> r == Err(SansCleSegments)
    ensures d.JObject? && "segments" in d.fields && !d.fields["segments"].JArray? ==> r == Err(SegmentsPasUneListe)
    ensures d.JObject? && "segments" in d.fields && d.fields["segments"] == JArray([]) ==> r == Err(AucunSegment)
  {
    match In("segments", d) {
      case None => Err(ErreurTypeDecoupage)
      case Some(false) => Err(SansCleSegments)
      case Some(true) =>
        match Get(d, "segments") {
          case None => Err(ErreurTypeDecoupage)
          case Some(JArray(items)) =>
            if |items| == 0 then Err(AucunSegment) else ValiderSegments(items, 0)
          case Some(_) => Err(SegmentsPasUneListe)
        }
    }
  }

  /** One segment of the example. */
  function ExempleSegment(fichier: string, debut: real, fin: real, description: string): Json {
    JObject(map["fichier" := JString(fichier), "debut" := JNumber(debut),
                "fin" := JNumber(fin), "description" := JString(description)])
  }

  lemma ExempleSegmentValide(fichier: string, debut: real, fin: real, description: string)
    requires 0.0 <= debut < fin
    ensures SegmentValide(ExempleSegment(fichier, debut, fin, description))
  {
  }

  const ExempleSegments: seq<Json> := [
    ExempleSegment("enregistrement_01.wav", 166.0, 268.0, "Introduction et contexte"),
    ExempleSegment("enregistrement_01.wav", 281.0, 393.0, "Interview principale"),
    ExempleSegment("enregistrement_03.wav", 45.0, 120.0, "Conclusion")]

  /** The data `creer_exemple` writes, with or without its `_commentaires` block. */
  function Exemple(avecCommentaires: bool): Json {
    var parametres := JObject(map["duree_fondu" := JNumber(500.0), "silence_entre_segments" := JNumber(1000.0)]);
    var base := map["segments" := JArray(ExempleSegments), "parametres" := parametres];
    if avecCommentaires then
      JObject(base["_commentaires" := JObject(map[
        "fichier" := JString("Nom du fichier audio source (relatif au dossier d'entrée)"),
        "debut" := JString("Temps de début en secondes (peut avoir des décimales)"),
        "fin" := JString("Temps de fin en secondes"),
        "description" := JString("Description optionnelle du segment"),
        "parametres" := JString("Paramètres optionnels (remplacent la config par défaut)")])])
    else JObject(base)
  }

  /** The example découpage passes the structure check it is written for. */
  lemma ExempleValide(avecCommentaires: bool)
    ensures ValiderStructure(Exemple(avecCommentaires)).Ok?
  {
    ExempleSegmentValide("enregistrement_01.wav", 166.0, 268.0, "Introduction et contexte");
    ExempleSegmentValide("enregistrement_01.wav", 281.0, 393.0, "Interview principale");
    ExempleSegmentValide("enregistrement_03.wav", 45.0, 120.0, "Conclusion");
    var d := Exemple(avecCommentaires);
    assert d.fields["segments"] == JArray(ExempleSegments);
    forall k | 0 <= k < |ExempleSegments| ensures SegmentValide(ExempleSegments[k]) {
      assert k == 0 || k == 1 || k == 2;
    }
  }

  /** A segment after the structure check, with a file name that is a string. */
  datatype SegmentSpec = SegmentSpec(fichier: string, debut: real, fin: real, description: Option<Json>)

  /** The later steps' view of a valid segment. */
  function SpecOf(seg: Json): (r: Option<SegmentSpec>)
    requires SegmentValide(seg)
    ensures r.Some? <==> seg.fields["fichier"].JString?
    ensures r.Some? ==>
      r.value.debut == Num(seg.fields["debut"]).value && r.value.fin == Num(seg.fields["fin"]).value && 0.0 <= r.value.debut < r.value.fin
  {
    match seg.fields["fichier"] {
      case JString(f) =>
        Some(SegmentSpec(f, Num(seg.fields["debut"]).value, Num(seg.fields["fin"]).value,
          if "description" in seg.fields then Some(seg.fields["description"]) else None))
      case _ => None
    }
  }

  /** The warnings of `valider_avec_fichiers`. */
  datatype Avertissement =
    | FichierNonTrouve(fichier: string)
    | Illisible(fichier: string)
    | Depassement(fichier: string, fin: real, duree: real, depassement: real)

  /** The `validation` block of the configuration; absent keys take the defaults. */
  datatype ValidationConfig = ValidationConfig(verifierTimestamps: Option<bool>, tolerance: Option<real>)

  function Tolerance(cfg: ValidationConfig): real {
    cfg.tolerance.GetOr(0.5)
  }

  /** `len(audio) / 1000`: a file's length in seconds. */
  function Duree(a: AudioSegment): real {
    |a| as real / 1000.0
  }

  /** The check of one segment against what opening its file gives: the
      warning, if any, and the segment afterwards. */
  function Verifier(seg: SegmentSpec, src: Option<SourceFile>, tolerance: real): (r: (Option<Avertissement>, SegmentSpec))
    ensures r.1.fichier == seg.fichier && r.1.debut == seg.debut && r.1.description == seg.description
    ensures src.Some? && src.value.Readable? && seg.fin > Duree(src.value.audio) ==>
      (seg.fin - Duree(src.value.audio) <= tolerance ==> r == (None, seg.(fin := Duree(src.value.audio)))) &&
      (seg.fin - Duree(src.value.audio) > tolerance ==> r.1 == seg && r.0.Some?)
    ensures src.Some? && src.value.Readable? && seg.fin <= Duree(src.value.audio) ==> r == (None, seg)
    ensures (src.None? || src.value.Unreadable?) ==> r.1 == seg && r.0.Some?
  {
    match src {
      case None => (Some(FichierNonTrouve(seg.fichier)), seg)
      case Some(Unreadable) => (Some(Illisible(seg.fichier)), seg)
      case Some(Readable(a)) =>
        var duree := Duree(a);
        if seg.fin > duree then
          var depassement := seg.fin - duree;
          if depassement > tolerance then (Some(Depassement(seg.fichier, seg.fin, duree, depassement)), seg)
          else (None, seg.(fin := duree))
        else (None, seg)
    }
  }

  function Lookup(sources: map<string, SourceFile>, f: string): Option<SourceFile> {
    if f in sources then Some(sources[f]) else None
  }

  /** The first `i` segments after the check, in order. */
  function Corriges(segs: seq<SegmentSpec>, sources: map<string, SourceFile>, tolerance: real, i: nat): (r: seq<SegmentSpec>)
    requires i <= |segs|
    decreases i
    ensures |r| == i
  {
    if i == 0 then []
    else Corriges(segs, sources, tolerance, i - 1) + [Verifier(segs[i - 1], Lookup(sources, segs[i - 1].fichier), tolerance).1]
  }

  /** Segment `k` after the check is what the check gives for it. */
  lemma {:induction false} CorrigesAt(segs: seq<SegmentSpec>, sources: map<string, SourceFile>, tolerance: real, i: nat, k: nat)
    requires k < i <= |segs|
    decreases i
    ensures Corriges(segs, sources, tolerance, i)[k] == Verifier(segs[k], Lookup(sources, segs[k].fichier), tolerance).1
  {
    if k < i - 1 {
      CorrigesAt(segs, sources, tolerance, i - 1, k);
    }
  }

  /** The warnings for the first `i` segments, in order. */
  function Avertissements(segs: seq<SegmentSpec>, sources: map<string, SourceFile>, tolerance: real, i: nat): seq<Avertissement>
    requires i <= |segs|
    decreases i
  {
    if i == 0 then []
    else
      var w := Verifier(segs[i - 1], Lookup(sources, segs[i - 1].fichier), tolerance).0;
      Avertissements(segs, sources, tolerance, i - 1) + (if w.Some? then [w.value] else [])
  }

  /** A file that decodes. */
  predicate Lisible(sources: map<string, SourceFile>, f: string) {
    f in sources && sources[f].Readable?
  }

  /** The files named by the first `i` segments. */
  function Noms(segs: seq<SegmentSpec>, i: nat): set<string>
    requires i <= |segs|
  {
    set k | 0 <= k < i :: segs[k].fichier
  }

  lemma NomsStep(segs: seq<SegmentSpec>, i: nat)
    requires i < |segs|
    ensures Noms(segs, i + 1) == Noms(segs, i) + {segs[i].fichier}
  {
  }

  /** The cache of file lengths after the first `i` segments: every file
      met that decodes, with its length. */
  function Durees(segs: seq<SegmentSpec>, sources: map<string, SourceFile>, i: nat): (d: map<string, real>)
    requires i <= |segs|
    decreases i
    ensures forall f :: f in d ==> Lisible(sources, f) && d[f] == Duree(sources[f].audio)
  {
    if i == 0 then map[]
    else
      var d := Durees(segs, sources, i - 1);
      var nom := segs[i - 1].fichier;
      if Lisible(sources, nom) then d[nom := Duree(sources[nom].audio)] else d
  }

  /** The files decoded for the first `i` segments, in order: a file is
      decoded when it exists and its length is not cached yet. */
  function Decodes(segs: seq<SegmentSpec>, sources: map<string, SourceFile>, i: nat): seq<string>
    requires i <= |segs|
    decreases i
  {
    if i == 0 then []
    else
      var nom := segs[i - 1].fichier;
      Decodes(segs, sources, i - 1) + (if nom in sources && nom !in Durees(segs, sources, i - 1) then [nom] else [])
  }

  /** The cache holds exactly the files met that decode. */
  lemma {:induction false} DureesKeys(segs: seq<SegmentSpec>, sources: map<string, SourceFile>, i: nat, f: string)
    requires i <= |segs|
    decreases i
    ensures f in Durees(segs, sources, i) <==> Lisible(sources, f) && f in Noms(segs, i)
  {
    if i > 0 {
      DureesKeys(segs, sources, i - 1, f);
      NomsStep(segs, i - 1);
    }
  }

  /** Every file decoded exists, and a file that decodes is decoded at most once. */
  predicate DecodesUneFois(decodes: seq<string>, sources: map<string, SourceFile>) {
    && (forall a :: 0 <= a < |decodes| ==> decodes[a] in sources)
    && (forall a, b :: 0 <= a < b < |decodes| && decodes[a] == decodes[b] ==> !Lisible(sources, decodes[a]))
  }

  /** The decode log keeps the cache's promise, and a file that decodes is
      in it exactly when it is in the cache. */
  lemma {:induction false} DecodesCache(segs: seq<SegmentSpec>, sources: map<string, SourceFile>, i: nat)
    requires i <= |segs|
    decreases i
    ensures DecodesUneFois(Decodes(segs, sources, i), sources)
    ensures forall f :: Lisible(sources, f) ==> (f in Decodes(segs, sources, i) <==> f in Durees(segs, sources, i))
  {
    if i > 0 {
      var nom := segs[i - 1].fichier;
      DecodesCache(segs, sources, i - 1);
      var before := Decodes(segs, sources, i - 1);
      var s := Decodes(segs, sources, i);
      if nom in sources && nom !in Durees(segs, sources, i - 1) {
        assert s == before + [nom];
        forall a, b | 0 <= a < b < |s| && s[a] == s[b] ensures !Lisible(sources, s[a]) {
          if b == |before| {
            assert s[a] in before;
          } else {
            assert s[a] == before[a] && s[b] == before[b];
          }
        }
      } else {
        assert s == before;
      }
    }
  }

  /** A file that decodes is decoded exactly when some segment names it. */
  lemma DecodesNoms(segs: seq<SegmentSpec>, sources: map<string, SourceFile>, f: string)
    requires Lisible(sources, f)
    ensures f in Decodes(segs, sources, |segs|) <==> f in Noms(segs, |segs|)
  {
    DecodesCache(segs, sources, |segs|);
    DureesKeys(segs, sources, |segs|, f);
  }

  /** What the loop of `valider_avec_fichiers` carries from one segment to
      the next: the warnings so far, the cache of file lengths, and the log
      of the files decoded. */
  datatype Etat = Etat(avertissements: seq<Avertissement>, durees: map<string, real>, decodes: seq<string>)

  /** One pass of that loop on `seg`: a missing file is reported; a file
      whose length is not cached is decoded, and cached when it decodes; then
      `fin` is compared with the length. Gives the new state and the segment
      afterwards. */
  function Pas(e: Etat, seg: SegmentSpec, sources: map<string, SourceFile>, tolerance: real): (Etat, SegmentSpec) {
    var nom := seg.fichier;
    if nom !in sources then (Etat(e.avertissements + [FichierNonTrouve(nom)], e.durees, e.decodes), seg)
    else if nom !in e.durees && sources[nom].Unreadable? then
      (Etat(e.avertissements + [Illisible(nom)], e.durees, e.decodes + [nom]), seg)
    else
      var lue := if nom in e.durees then e else Etat(e.avertissements, e.durees[nom := Duree(sources[nom].audio)], e.decodes + [nom]);
      Comparer(lue, seg, lue.durees[nom], tolerance)
  }

  /** The end of a pass: `fin` against the file's length `duree`. Over by
      more than the tolerance is reported; over by less is clamped. */
  function Comparer(e: Etat, seg: SegmentSpec, duree: real, tolerance: real): (Etat, SegmentSpec) {
    if seg.fin > duree then
      var depassement := seg.fin - duree;
      if depassement > tolerance then
        (e.(avertissements := e.avertissements + [Depassement(seg.fichier, seg.fin, duree, depassement)]), seg)
      else (e, seg.(fin := duree))
    else (e, seg)
  }

  /** The state and the segments after the loop has run over the first `i` segments. */
  function Apres(segs: seq<SegmentSpec>, sources: map<string, SourceFile>, tolerance: real, i: nat): (r: (Etat, seq<SegmentSpec>))
    requires i <= |segs|
    decreases i
    ensures |r.1| == i
  {
    if i == 0 then (Etat([], map[], []), [])
    else
      var before := Apres(segs, sources, tolerance, i - 1);
      var next := Pas(before.0, segs[i - 1], sources, tolerance);
      (next.0, before.1 + [next.1])
  }

  /** A cached length is never stale, so the pass gives what checking the
      segment on its own gives, and the cache and log grow as described. */
  lemma PasSansCache(e: Etat, seg: SegmentSpec, sources: map<string, SourceFile>, tolerance: real)
    requires forall f :: f in e.durees ==> Lisible(sources, f) && e.durees[f] == Duree(sources[f].audio)
    ensures var r := Pas(e, seg, sources, tolerance);
      var v := Verifier(seg, Lookup(sources, seg.fichier), tolerance);
      && r.1 == v.1
      && r.0.avertissements == e.avertissements + (if v.0.Some? then [v.0.value] else [])
      && r.0.durees == (if Lisible(sources, seg.fichier) then e.durees[seg.fichier := Duree(sources[seg.fichier].audio)] else e.durees)
      && r.0.decodes == e.decodes + (if seg.fichier in sources && seg.fichier !in e.durees then [seg.fichier] else [])
  {
    var nom := seg.fichier;
    if nom in e.durees {
      assert e.durees == e.durees[nom := Duree(sources[nom].audio)];
    }
  }

  /** The loop with its cache gives the same warnings and segments as
      checking each segment on its own, and its cache and decode log are
      those the cache-free definitions describe. */
  lemma {:induction false} ApresSansCache(segs: seq<SegmentSpec>, sources: map<string, SourceFile>, tolerance: real, i: nat)
    requires i <= |segs|
    decreases i
    ensures Apres(segs, sources, tolerance, i).0 == Etat(Avertissements(segs, sources, tolerance, i), Durees(segs, sources, i), Decodes(segs, sources, i))
    ensures Apres(segs, sources, tolerance, i).1 == Corriges(segs, sources, tolerance, i)
  {
    if i > 0 {
      ApresSansCache(segs, sources, tolerance, i - 1);
      PasSansCache(Apres(segs, sources, tolerance, i - 1).0, segs[i - 1], sources, tolerance);
    }
  }

  /** One more pass changes the list of segments at one place. */
  lemma ApresStep(segs: seq<SegmentSpec>, sources: map<string, SourceFile>, tolerance: real, i: nat)
    requires i < |segs|
    ensures Apres(segs, sources, tolerance, i + 1).1 + segs[i + 1..] ==
      (Apres(segs, sources, tolerance, i).1 + segs[i..])[i := Pas(Apres(segs, sources, tolerance, i).0, segs[i], sources, tolerance).1]
  {
    var left := Apres(segs, sources, tolerance, i + 1).1 + segs[i + 1..];
    var right := (Apres(segs, sources, tolerance, i).1 + segs[i..])[i := Pas(Apres(segs, sources, tolerance, i).0, segs[i], sources, tolerance).1];
    forall k | 0 <= k < |left| ensures left[k] == right[k] {
      if k < i {
        assert left[k] == Apres(segs, sources, tolerance, i).1[k];
      }
    }
  }

  /** One pass of the loop in place: segment `i` is checked and replaced. */
  method Etape(segs: array<SegmentSpec>, sources: map<string, SourceFile>, tolerance: real, e: Etat, i: nat, ghost orig: seq<SegmentSpec>)
    returns (e2: Etat)
    modifies segs
    requires i < segs.Length == |orig|
    requires segs[..] == Apres(orig, sources, tolerance, i).1 + orig[i..]
    requires e == Apres(orig, sources, tolerance, i).0
    ensures segs[..] == Apres(orig, sources, tolerance, i + 1).1 + orig[i + 1..]
    ensures e2 == Apres(orig, sources, tolerance, i + 1).0
  {
    var pas := Pas(e, segs[i], sources, tolerance);
    ApresStep(orig, sources, tolerance, i);
    segs[i] := pas.1;
    e2 := pas.0;
  }

  /** The loop of `valider_avec_fichiers`, over the segments in place: each
      pass may set the segment's `fin`. */
  method VerifierTous(segs: array<SegmentSpec>, sources: map<string, SourceFile>, tolerance: real)
    returns (avertissements: seq<Avertissement>, decodes: seq<string>)
    modifies segs
    ensures var r := Apres(old(segs[..]), sources, tolerance, segs.Length);
      avertissements == r.0.avertissements && decodes == r.0.decodes && segs[..] == r.1
  {
    ghost var orig := segs[..];
    var e := Etat([], map[], []);
    var i := 0;
    while i < segs.Length
      invariant 0 <= i <= segs.Length
      invariant segs[..] == Apres(orig, sources, tolerance, i).1 + orig[i..]
      invariant e == Apres(orig, sources, tolerance, i).0
    {
      e := Etape(segs, sources, tolerance, e, i, orig);
      i := i + 1;
    }
    assert orig[segs.Length..] == [];
    avertissements, decodes := e.avertissements, e.decodes;
  }

  /** `valider_avec_fichiers`. With `verifier_timestamps` off nothing is
      checked. Otherwise the warnings are those of checking each segment on
      its own, in order, and every segment is replaced by its checked value
      (`fin` clamped to the file's length when it is over by no more than the
      tolerance). Every file decoded exists; a file that decodes is decoded
      exactly when a segment names it, and only once. */
  method ValiderAvecFichiers(segs: array<SegmentSpec>, sources: map<string, SourceFile>, cfg: ValidationConfig)
    returns (avertissements: seq<Avertissement>, decodes: seq<string>)
    modifies segs
    ensures !cfg.verifierTimestamps.GetOr(true) ==> avertissements == [] && decodes == [] && segs[..] == old(segs[..])
    ensures cfg.verifierTimestamps.GetOr(true) ==>
      && avertissements == Avertissements(old(segs[..]), sources, Tolerance(cfg), segs.Length)
      && (forall k :: 0 <= k < segs.Length ==>
            segs[k] == Verifier(old(segs[k]), Lookup(sources, old(segs[k]).fichier), Tolerance(cfg)).1)
      && DecodesUneFois(decodes, sources)
      && forall f :: Lisible(sources, f) ==> (f in decodes <==> f in Noms(old(segs[..]), segs.Length))
  {
    if !cfg.verifierTimestamps.GetOr(true) {
      return [], [];
    }
    ghost var orig := segs[..];
    avertissements, decodes := VerifierTous(segs, sources, Tolerance(cfg));
    ApresSansCache(orig, sources, Tolerance(cfg), |orig|);
    DecodesCache(orig, sources, |orig|);
    forall f | Lisible(sources, f) ensures f in decodes <==> f in Noms(orig, |orig|) {
      DecodesNoms(orig, sources, f);
    }
    forall k | 0 <= k < segs.Length
      ensures segs[k] == Verifier(orig[k], Lookup(sources, orig[k].fichier), Tolerance(cfg)).1
    {
      assert segs[k] == segs[..][k];
      CorrigesAt(orig, sources, Tolerance(cfg), |orig|, k);
    }
  }

  /** A segment ready for the montage: its extracted audio and its fields. */
  datatype Prepared = Prepared(audio: AudioSegment, debut: real, fin: real, fichier: Option<string>, description: Option<Json>)

  /** The record `convertir_en_segments` builds for segment number `i` (1-based). */
  function Preparer(seg: SegmentSpec, source: AudioSegment, i: nat): Prepared {
    Prepared(Slice(source, Ms(seg.debut), Ms(seg.fin)), seg.debut, seg.fin, Some(seg.fichier),
      Some(seg.description.GetOr(JString("Segment " + NatToString(i)))))
  }

  /** The clamp does not look at `debut`. A segment that starts after the end
      of its file, and ends within the tolerance of it, is clamped without a
      warning to end before it starts; `convertir_en_segments` then cuts an
      empty clip from it. */
  lemma ClampAvantDebut(seg: SegmentSpec, a: AudioSegment, tolerance: real, i: nat)
    requires Duree(a) < seg.debut < seg.fin && seg.fin - Duree(a) <= tolerance
    ensures var r := Verifier(seg, Some(Readable(a)), tolerance);
      && r == (None, seg.(fin := Duree(a)))
      && r.1.fin < r.1.debut
      && Preparer(r.1, a, i).audio == []
  {
    var n := |a|;
    var lo := Ms(seg.debut);
    var hi := Ms(Duree(a));
    assert Duree(a) * 1000.0 == n as real;
    assert hi == n;
    assert seg.debut * 1000.0 > n as real;
    assert lo >= n;
    assert Bound(n, lo) == n && Bound(n, hi) == n;
  }

  /** The case in numbers: a segment from 100.2 s to 100.4 s of a 100 s file,
      with the default tolerance, is clamped to end at 100 s. */
  lemma ClampAvantDebutExemple(a: AudioSegment)
    requires |a| == 100000
    ensures var r := Verifier(SegmentSpec("a.wav", 100.2, 100.4, None), Some(Readable(a)), 0.5);
      r.0.None? && r.1.debut == 100.2 && r.1.fin == 100.0 && Preparer(r.1, a, 1).audio == []
  {
    ClampAvantDebut(SegmentSpec("a.wav", 100.2, 100.4, None), a, 0.5, 1);
  }

  /** The error of `AudioSegment.from_file` on a file that is missing or does not decode. */
  datatype ConversionErreur = ChargementImpossible(fichier: string)

  /** The records for the first `i` segments, all of whose files load, in order. */
  function PreparerTous(segs: seq<SegmentSpec>, sources: map<string, SourceFile>, i: nat): (r: seq<Prepared>)
    requires i <= |segs|
    decreases i
    requires forall k :: 0 <= k < i ==> Lisible(sources, segs[k].fichier)
    ensures |r| == i
  {
    if i == 0 then []
    else
      assert Lisible(sources, segs[i - 1].fichier);
      PreparerTous(segs, sources, i - 1) + [Preparer(segs[i - 1], sources[segs[i - 1].fichier].audio, i)]
  }

  /** Record `k` is segment `k`'s, numbered from 1. */
  lemma {:induction false} PreparerTousAt(segs: seq<SegmentSpec>, sources: map<string, SourceFile>, i: nat, k: nat)
    requires k < i <= |segs|
    decreases i
    requires forall k :: 0 <= k < i ==> Lisible(sources, segs[k].fichier)
    ensures PreparerTous(segs, sources, i)[k] == Preparer(segs[k], sources[segs[k].fichier].audio, k + 1)
  {
    if k < i - 1 {
      PreparerTousAt(segs, sources, i - 1, k);
    }
  }

  /** The cache of decoded files: only files that decode, with their audio. */
  predicate CacheAudio(cache: map<string, AudioSegment>, sources: map<string, SourceFile>) {
    forall f :: f in cache ==> Lisible(sources, f) && cache[f] == sources[f].audio
  }

  /** `cache_audio[nom]`, decoding the file when it is not cached yet. */
  method Charger(nom: string, sources: map<string, SourceFile>, cache: map<string, AudioSegment>)
    returns (ok: bool, cache2: map<string, AudioSegment>, charge: seq<string>)
    requires CacheAudio(cache, sources)
    ensures ok <==> Lisible(sources, nom)
    ensures ok ==>
      CacheAudio(cache2, sources) && cache2.Keys == cache.Keys + {nom} && charge == (if nom in cache then [] else [nom])
  {
    cache2 := cache;
    charge := [];
    ok := true;
    if nom !in cache {
      if !Lisible(sources, nom) {
        ok := false;
        return;
      }
      cache2 := cache[nom := sources[nom].audio];
      charge := [nom];
    }
  }

  /** `convertir_en_segments`: one record per segment, in order, with the
      audio sliced at `int(debut*1000)` and `int(fin*1000)`. Each file is
      loaded once (`chargements` lists the loads); the first file that does
      not load raises. */
  method ConvertirEnSegments(segs: seq<SegmentSpec>, sources: map<string, SourceFile>)
    returns (r: Result<seq<Prepared>, ConversionErreur>, chargements: seq<string>)
    ensures r.Ok? <==> forall k :: 0 <= k < |segs| ==> Lisible(sources, segs[k].fichier)
    ensures r.Ok? ==> r.value == PreparerTous(segs, sources, |segs|)
    ensures r.Err? ==>
      exists k :: 0 <= k < |segs| && r.error == ChargementImpossible(segs[k].fichier) &&
        !Lisible(sources, segs[k].fichier) && forall j :: 0 <= j < k ==> Lisible(sources, segs[j].fichier)
    ensures Distinct(chargements)
    ensures r.Ok? ==> forall f :: f in chargements <==> f in Noms(segs, |segs|)
  {
    var prepares: seq<Prepared> := [];
    var cache: map<string, AudioSegment> := map[];
    chargements := [];
    var i := 0;
    while i < |segs|
      invariant 0 <= i <= |segs|
      invariant forall k :: 0 <= k < i ==> Lisible(sources, segs[k].fichier)
      invariant prepares == PreparerTous(segs, sources, i)
      invariant CacheAudio(cache, sources)
      invariant cache.Keys == Noms(segs, i)
      invariant forall f :: f in chargements <==> f in cache
      invariant Distinct(chargements)
    {
      var ok, cache2, charge := Charger(segs[i].fichier, sources, cache);
      if !ok {
        r := Err(ChargementImpossible(segs[i].fichier));
        return;
      }
      NomsStep(segs, i);
      prepares := prepares + [Preparer(segs[i], cache2[segs[i].fichier], i + 1)];
      if charge != [] {
        DistinctAppend(chargements, segs[i].fichier);
      }
      chargements := chargements + charge;
      cache := cache2;
      i := i + 1;
    }
    r := Ok(prepares);
  }
}
