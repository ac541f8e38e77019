/** The suggestion dialog's data handling: importing a cutting plan from a
    decoded JSON document, copying the chosen suggestion before it is edited,
    and the estimated duration shown for a suggestion. Reading the file,
    `json.load` and the dialogs around these steps are left to the caller:
    the decoded document and the file's name are parameters. */
module SuggestionDialog {
  import opened Common
  import opened Text
  import opened Sorting

  /** What `_importer_json` reports: the `ValueError` messages it raises
      itself, and every other exception, which the last `except` shows as
      "Impossible de charger le fichier". */
  datatype ErreurImport =
    | FormatNonReconnu
    | ChampsRequis(numero: nat)
    | DebutApresFin(numero: nat)
    | TempsNegatifs(numero: nat)
    | AucunSegmentValide
    | Inattendue

  /** A normalised segment: the four values `segment_norm` holds, as the
      document gave them. */
  datatype SegNorm = SegNorm(debut: Json, fin: Json, fichier: Json, description: Json)

  /** The suggestion an import builds. */
  datatype Suggestion = Suggestion(titre: Json, commentaire: string, dureeEstimee: real, segments: seq<SegNorm>)

  const FichierParDefaut: string := "mix_complet.wav"

  /** `f"Segment {i + 1}"`. */
  function DescriptionParDefaut(i: nat): Json {
    JString("Segment " + NatToString(i + 1))
  }

  /** What `for seg in segments` visits: the items of a list, the characters
      of a string, the keys of an object (in the order `cles` gives, Python's
      insertion order); anything else is not iterable. */
  function Elements(j: Json, cles: map<string, Json> -> seq<string>): (r: Option<seq<Json>>)
    ensures j.JArray? ==> r == Some(j.items)
    ensures j.JNumber? || j.JBool? || j.JNull? ==> r.None?
  {
    match j
    case JArray(items) => Some(items)
    case JString(s) => Some(seq(|s|, k requires 0 <= k < |s| => JString([s[k]])))
    case JObject(m) => var ks := cles(m); Some(seq(|ks|, k requires 0 <= k < |ks| => JString(ks[k])))
    case _ => None
  }

  /** The format detection: an object's `segments` value, a bare list, and
      otherwise "Format JSON non reconnu". `'segments' in data` on a number
      raises, and so does `data['segments']` on anything but an object. */
  function Detecter(data: Json, cles: map<string, Json> -> seq<string>): (r: Result<seq<Json>, ErreurImport>)
    ensures data.JObject? && "segments" in data.fields ==>
      r == (match Elements(data.fields["segments"], cles) case Some(e) => Ok(e) case None => Err(Inattendue))
    ensures data.JObject? && "segments" !in data.fields ==> r == Err(FormatNonReconnu)
    ensures data.JArray? && JString("segments") !in data.items ==> r == Ok(data.items)
    ensures data.JNumber? || data.JBool? || data.JNull? ==> r == Err(Inattendue)
  {
    match In("segments", data)
    case None => Err(Inattendue)
    case Some(present) =>
      if present then
        match Get(data, "segments")
        case None => Err(Inattendue)
        case Some(v) =>
          match Elements(v, cles)
          case None => Err(Inattendue)
          case Some(e) => Ok(e)
      else if data.JArray? then Ok(data.items)
      else Err(FormatNonReconnu)
  }

  /** `'a' in seg and 'b' in seg`, where `in` raises on a number. */
  function Deux(a: string, b: string, seg: Json): Option<bool> {
    match In(a, seg)
    case None => None
    case Some(x) => if x then In(b, seg) else Some(false)
  }

  /** The `[INTRO]` and `[OUTRO]` markers, which the import drops. */
  predicate EstMarqueur(description: Json) {
    description == JString("[INTRO]") || description == JString("[OUTRO]")
  }

  /** The metadata pair `debut_source`/`fin_source`, which wins over the
      standard pair `debut`/`fin`. */
  predicate PaireSource(m: map<string, Json>) {
    "debut_source" in m && "fin_source" in m
  }

  predicate PaireStandard(m: map<string, Json>) {
    "debut" in m && "fin" in m
  }

  /** `segment_norm` for an object with one of the pairs, the `i`-th from 0:
      the times of the pair that wins, its file key with `mix_complet.wav` as
      default, and the description with `Segment {i+1}` as default. */
  function Lu(m: map<string, Json>, i: nat): SegNorm
    requires PaireSource(m) || PaireStandard(m)
  {
    var d := if "description" in m then m["description"] else DescriptionParDefaut(i);
    if PaireSource(m) then SegNorm(m["debut_source"], m["fin_source"], if "fichier_source" in m then m["fichier_source"] else JString(FichierParDefaut), d)
    else SegNorm(m["debut"], m["fin"], if "fichier" in m then m["fichier"] else JString(FichierParDefaut), d)
  }

  /** One segment of the loop of `_importer_json`, the `i`-th from 0: its
      normalised form, `None` when it is a marker and dropped, or the error it
      raises. */
  function NormaliserSegment(seg: Json, i: nat): (r: Result<Option<SegNorm>, ErreurImport>)
    ensures seg.JObject? && "debut_source" in seg.fields && "fin_source" in seg.fields && r.Ok? && r.value.Some? ==>
      && r.value.value.debut == seg.fields["debut_source"] && r.value.value.fin == seg.fields["fin_source"]
      && r.value.value.fichier == (if "fichier_source" in seg.fields then seg.fields["fichier_source"] else JString(FichierParDefaut))
    ensures seg.JObject? && !("debut_source" in seg.fields && "fin_source" in seg.fields) && "debut" in seg.fields && "fin" in seg.fields && r.Ok? && r.value.Some? ==>
      && r.value.value.debut == seg.fields["debut"] && r.value.value.fin == seg.fields["fin"]
      && r.value.value.fichier == (if "fichier" in seg.fields then seg.fields["fichier"] else JString(FichierParDefaut))
    ensures seg.JObject? && r.Ok? && r.value.Some? ==>
      r.value.value.description == (if "description" in seg.fields then seg.fields["description"] else DescriptionParDefaut(i))
    ensures seg.JObject? && !("debut_source" in seg.fields && "fin_source" in seg.fields) && !("debut" in seg.fields && "fin" in seg.fields) ==>
      r == Err(ChampsRequis(i + 1))
    ensures r.Ok? && r.value.Some? ==>
      && !EstMarqueur(r.value.value.description)
      && Num(r.value.value.debut).Some? && Num(r.value.value.fin).Some?
      && 0.0 <= Num(r.value.value.debut).value < Num(r.value.value.fin).value
    ensures r.Ok? && r.value.None? ==>
      seg.JObject? && (PaireSource(seg.fields) || PaireStandard(seg.fields)) && EstMarqueur(Lu(seg.fields, i).description)
    ensures seg.JObject? && (PaireSource(seg.fields) || PaireStandard(seg.fields)) ==>
      var n := Lu(seg.fields, i);
      && (EstMarqueur(n.description) ==> r == Ok(None))
      && (!EstMarqueur(n.description) && Num(n.debut).Some? && Num(n.fin).Some? ==>
            r == (if Num(n.debut).value >= Num(n.fin).value then Err(DebutApresFin(i + 1))
                  else if Num(n.debut).value < 0.0 || Num(n.fin).value < 0.0 then Err(TempsNegatifs(i + 1))
                  else Ok(Some(n))))
  {
    match Deux("debut_source", "fin_source", seg)
    case None => Err(Inattendue)
    case Some(source) =>
      match (if source then Some(true) else Deux("debut", "fin", seg))
      case None => Err(Inattendue)
      case Some(standard) =>
        if !standard then Err(ChampsRequis(i + 1))
        else if !seg.JObject? then Err(Inattendue)
        else
          var norm := Lu(seg.fields, i);
          if EstMarqueur(norm.description) then Ok(None)
          else
            match (Num(norm.debut), Num(norm.fin))
            case (Some(debut), Some(fin)) =>
              if debut >= fin then Err(DebutApresFin(i + 1))
              else if debut < 0.0 || fin < 0.0 then Err(TempsNegatifs(i + 1))
              else Ok(Some(norm))
            case _ =>
              // Two strings compare, and a later `< 0` raises; other pairs raise at once.
              if norm.debut.JString? && norm.fin.JString? && !StrLess()(norm.debut.s, norm.fin.s) then Err(DebutApresFin(i + 1))
              else Err(Inattendue)
  }

  /** The loop over the first `i` elements: the kept segments in order, or the
      first error. */
  function Normalises(elems: seq<Json>, i: nat): Result<seq<SegNorm>, ErreurImport>
    requires i <= |elems|
    decreases i
  {
    if i == 0 then Ok([])
    else
      match Normalises(elems, i - 1)
      case Err(e) => Err(e)
      case Ok(acc) =>
        match NormaliserSegment(elems[i - 1], i - 1)
        case Err(e) => Err(e)
        case Ok(None) => Ok(acc)
        case Ok(Some(s)) => Ok(acc + [s])
  }

  /** A segment the checks let through: an object with one of the pairs
      that is a marker, or whose times are numbers with `0 <= debut < fin`. */
  predicate Acceptable(seg: Json, i: nat) {
    && seg.JObject? && (PaireSource(seg.fields) || PaireStandard(seg.fields))
    && var n := Lu(seg.fields, i);
       || EstMarqueur(n.description)
       || (Num(n.debut).Some? && Num(n.fin).Some? && 0.0 <= Num(n.debut).value < Num(n.fin).value)
  }

  /** The segments of the first `i` elements that are not markers, each in
      its normalised form. */
  function Gardes(elems: seq<Json>, i: nat): seq<SegNorm>
    requires i <= |elems| && forall k :: 0 <= k < i ==> Acceptable(elems[k], k)
    decreases i
  {
    if i == 0 then []
    else
      assert Acceptable(elems[i - 1], i - 1);
      var n := Lu(elems[i - 1].fields, i - 1);
      Gardes(elems, i - 1) + (if EstMarqueur(n.description) then [] else [n])
  }

  /** When every segment passes the checks, the loop keeps exactly the
      segments that are not markers, in order, and fails on none. */
  lemma {:induction false} NormalisesAcceptes(elems: seq<Json>, i: nat)
    requires i <= |elems| && forall k :: 0 <= k < i ==> Acceptable(elems[k], k)
    ensures Normalises(elems, i) == Ok(Gardes(elems, i))
    decreases i
  {
    if i > 0 {
      NormalisesAcceptes(elems, i - 1);
      assert Acceptable(elems[i - 1], i - 1);
      var n := Lu(elems[i - 1].fields, i - 1);
      if EstMarqueur(n.description) {
        assert NormaliserSegment(elems[i - 1], i - 1) == Ok(None);
        assert Gardes(elems, i) == Gardes(elems, i - 1) + [];
        assert Gardes(elems, i - 1) + [] == Gardes(elems, i - 1);
      } else {
        assert NormaliserSegment(elems[i - 1], i - 1) == Ok(Some(n));
        assert Gardes(elems, i) == Gardes(elems, i - 1) + [n];
      }
    }
  }

  /** A document whose segments all pass the checks, not all of them
      markers, is imported with those segments. */
  lemma ImportAccepte(data: Json, nomFichier: string, cles: map<string, Json> -> seq<string>)
    requires Detecter(data, cles).Ok?
    requires forall k :: 0 <= k < |Detecter(data, cles).value| ==> Acceptable(Detecter(data, cles).value[k], k)
    requires |Gardes(Detecter(data, cles).value, |Detecter(data, cles).value|)| > 0
    requires Titre(data).Some?
    ensures var elems := Detecter(data, cles).value;
      Importer(data, nomFichier, cles) == Ok(Construire(Titre(data).value, nomFichier, Gardes(elems, |elems|)))
  {
    var elems := Detecter(data, cles).value;
    NormalisesAcceptes(elems, |elems|);
  }

  /** The value of a time the import accepted. */
  function Temps(j: Json): real {
    Num(j).GetOr(0.0)
  }

  /** `sum(s['fin'] - s['debut'] for s in segments)`. */
  function DureeTotale(segs: seq<SegNorm>): real
    decreases |segs|
  {
    if |segs| == 0 then 0.0 else DureeTotale(segs[..|segs| - 1]) + (Temps(segs[|segs| - 1].fin) - Temps(segs[|segs| - 1].debut))
  }

  /** `round(x, 1)` on an exact value: the nearest tenth, a tie going to the
      even tenth. */
  function Arrondi1(x: real): (r: real)
    ensures -0.05 <= r - x <= 0.05
    ensures (10.0 * r).Floor as real == 10.0 * r
  {
    var y := 10.0 * x;
    var f := y.Floor;
    var reste := y - f as real;
    var k := if reste < 0.5 then f else if reste > 0.5 then f + 1 else if f % 2 == 0 then f else f + 1;
    assert (k as real) / 10.0 - x == ((k as real) - y) / 10.0;
    k as real / 10.0
  }

  /** The title `_importer_json` gives, as written:
      `data.get('podcast', 'Découpage importé').replace('.mp3', '')`. A bare
      list has no `get`, and a title that is not a string no `replace`. */
  function TitreTelQuel(data: Json): (r: Option<Json>)
    ensures data.JArray? ==> r.None?
  {
    match GetOr(data, "podcast", JString("Découpage importé"))
    case None => None
    case Some(t) => if t.JString? then Some(JString(RemoveAll(t.s, ".mp3"))) else None
  }

  /** The title as intended: a bare list, which the format detection accepts,
      gets the default title; an object is read as before. */
  function Titre(data: Json): (r: Option<Json>)
    ensures data.JArray? ==> r == Some(JString("Découpage importé"))
    ensures !data.JArray? ==> r == TitreTelQuel(data)
  {
    if data.JArray? then Some(JString("Découpage importé")) else TitreTelQuel(data)
  }

  /** The suggestion built from the kept segments. */
  function Construire(titre: Json, nomFichier: string, segs: seq<SegNorm>): Suggestion {
    Suggestion(titre, "Importé depuis " + nomFichier, Arrondi1(DureeTotale(segs) / 60.0), segs)
  }

  /** The import up to the suggestion handed to the editor, with the title
      function `titre`. */
  function ImportAvec(data: Json, nomFichier: string, cles: map<string, Json> -> seq<string>, titre: Json -> Option<Json>): Result<Suggestion, ErreurImport> {
    match Detecter(data, cles)
    case Err(e) => Err(e)
    case Ok(elems) =>
      match Normalises(elems, |elems|)
      case Err(e) => Err(e)
      case Ok(segs) =>
        if |segs| == 0 then Err(AucunSegmentValide)
        else
          match titre(data)
          case None => Err(Inattendue)
          case Some(t) => Ok(Construire(t, nomFichier, segs))
  }

  /** `_importer_json` as written. */
  function ImporterTelQuel(data: Json, nomFichier: string, cles: map<string, Json> -> seq<string>): Result<Suggestion, ErreurImport> {
    ImportAvec(data, nomFichier, cles, TitreTelQuel)
  }

  /** `_importer_json` with the title of a bare list corrected. */
  function Importer(data: Json, nomFichier: string, cles: map<string, Json> -> seq<string>): Result<Suggestion, ErreurImport> {
    ImportAvec(data, nomFichier, cles, Titre)
  }

  /** The import's loop, one segment at a time. */
  method ImporterJson(data: Json, nomFichier: string, cles: map<string, Json> -> seq<string>) returns (r: Result<Suggestion, ErreurImport>)
    ensures r == Importer(data, nomFichier, cles)
  {
    var detecte := Detecter(data, cles);
    if detecte.Err? {
      return Err(detecte.error);
    }
    var elems := detecte.value;
    var normalises: seq<SegNorm> := [];
    var i := 0;
    while i < |elems|
      invariant i <= |elems|
      invariant Normalises(elems, i) == Ok(normalises)
    {
      var n := NormaliserSegment(elems[i], i);
      if n.Err? {
        NormalisesErreur(elems, i + 1);
        return Err(n.error);
      }
      if n.value.Some? {
        normalises := normalises + [n.value.value];
      }
      i := i + 1;
    }
    if |normalises| == 0 {
      return Err(AucunSegmentValide);
    }
    var titre := Titre(data);
    if titre.None? {
      return Err(Inattendue);
    }
    r := Ok(Construire(titre.value, nomFichier, normalises));
  }

  /** An error in the loop is the error of the whole loop. */
  lemma {:induction false} NormalisesErreur(elems: seq<Json>, i: nat)
    requires 0 < i <= |elems| && Normalises(elems, i - 1).Ok? && NormaliserSegment(elems[i - 1], i - 1).Err?
    ensures Normalises(elems, i) == Err(NormaliserSegment(elems[i - 1], i - 1).error)
    ensures forall j :: i <= j <= |elems| ==> Normalises(elems, j) == Normalises(elems, i)
  {
    forall j | i <= j <= |elems| ensures Normalises(elems, j) == Normalises(elems, i) {
      NormalisesGarde(elems, i, j);
    }
  }

  /** Once the loop has failed it stays failed with the same error. */
  lemma {:induction false} NormalisesGarde(elems: seq<Json>, i: nat, j: nat)
    requires i <= j <= |elems| && Normalises(elems, i).Err?
    ensures Normalises(elems, j) == Normalises(elems, i)
    decreases j
  {
    if j > i {
      NormalisesGarde(elems, i, j - 1);
    }
  }

  /** Every kept segment passed the checks: numeric times, `0 <= debut < fin`,
      and no marker description. */
  lemma {:induction false} NormalisesValides(elems: seq<Json>, i: nat)
    requires i <= |elems| && Normalises(elems, i).Ok?
    ensures forall k :: 0 <= k < |Normalises(elems, i).value| ==>
      var s := Normalises(elems, i).value[k];
      && !EstMarqueur(s.description) && Num(s.debut).Some? && Num(s.fin).Some?
      && 0.0 <= Num(s.debut).value < Num(s.fin).value
    decreases i
  {
    if i > 0 {
      NormalisesValides(elems, i - 1);
    }
  }

  /** A failing loop failed on some element, every element before it having
      been kept or dropped. */
  lemma {:induction false} NormalisesPremiereErreur(elems: seq<Json>, i: nat)
    requires i <= |elems| && Normalises(elems, i).Err?
    ensures exists k :: 0 <= k < i && Normalises(elems, k).Ok? && NormaliserSegment(elems[k], k) == Err(Normalises(elems, i).error)
    decreases i
  {
    if Normalises(elems, i - 1).Err? {
      NormalisesPremiereErreur(elems, i - 1);
      var k :| 0 <= k < i - 1 && Normalises(elems, k).Ok? && NormaliserSegment(elems[k], k) == Err(Normalises(elems, i - 1).error);
    } else {
      assert Normalises(elems, i - 1).Ok? && NormaliserSegment(elems[i - 1], i - 1) == Err(Normalises(elems, i).error);
    }
  }

  /** The suggestion the import builds: kept segments that all passed the
      checks, at least one of them, a comment naming the file and the
      duration in minutes rounded to a tenth. */
  lemma ImportResultat(data: Json, nomFichier: string, cles: map<string, Json> -> seq<string>)
    requires Importer(data, nomFichier, cles).Ok?
    ensures var s := Importer(data, nomFichier, cles).value;
      && |s.segments| >= 1
      && s.commentaire == "Importé depuis " + nomFichier
      && s.dureeEstimee == Arrondi1(DureeTotale(s.segments) / 60.0)
      && forall k :: 0 <= k < |s.segments| ==>
           && !EstMarqueur(s.segments[k].description)
           && Num(s.segments[k].debut).Some? && Num(s.segments[k].fin).Some?
           && 0.0 <= Num(s.segments[k].debut).value < Num(s.segments[k].fin).value
  {
    ImportAvecForme(data, nomFichier, cles, Titre);
    var elems := Detecter(data, cles).value;
    NormalisesValides(elems, |elems|);
  }

  /** A successful import went through each step. */
  lemma ImportAvecForme(data: Json, nomFichier: string, cles: map<string, Json> -> seq<string>, titre: Json -> Option<Json>)
    requires ImportAvec(data, nomFichier, cles, titre).Ok?
    ensures Detecter(data, cles).Ok?
    ensures var elems := Detecter(data, cles).value;
      && Normalises(elems, |elems|).Ok? && |Normalises(elems, |elems|).value| > 0 && titre(data).Some?
      && ImportAvec(data, nomFichier, cles, titre).value == Construire(titre(data).value, nomFichier, Normalises(elems, |elems|).value)
  {
  }

  /** The kept segments have positive lengths, so their total is positive. */
  lemma {:induction false} DureePositive(segs: seq<SegNorm>)
    requires forall k :: 0 <= k < |segs| ==> Num(segs[k].debut).Some? && Num(segs[k].fin).Some? && Num(segs[k].debut).value < Num(segs[k].fin).value
    ensures |segs| > 0 ==> DureeTotale(segs) > 0.0
    ensures DureeTotale(segs) >= 0.0
    decreases |segs|
  {
    if |segs| > 0 {
      DureePositive(segs[..|segs| - 1]);
    }
  }

  /** As written, a bare list of segments passes the format detection and
      every check and then fails on `data.get`. */
  lemma ListeNueTelQuel(items: seq<Json>, nomFichier: string, cles: map<string, Json> -> seq<string>)
    requires JString("segments") !in items
    requires Normalises(items, |items|).Ok? && |Normalises(items, |items|).value| > 0
    ensures ImporterTelQuel(JArray(items), nomFichier, cles) == Err(Inattendue)
  {
  }

  /** The corrected import accepts such a list under the default title. */
  lemma ListeNueImportee(items: seq<Json>, nomFichier: string, cles: map<string, Json> -> seq<string>)
    requires JString("segments") !in items
    requires Normalises(items, |items|).Ok? && |Normalises(items, |items|).value| > 0
    ensures Importer(JArray(items), nomFichier, cles) == Ok(Construire(JString("Découpage importé"), nomFichier, Normalises(items, |items|).value))
  {
  }

  /** A one-segment list, `[{"debut": 0, "fin": 10}]`, shows it. */
  lemma ListeNueExemple(cles: map<string, Json> -> seq<string>)
    ensures var data := JArray([JObject(map["debut" := JNumber(0.0), "fin" := JNumber(10.0)])]);
      && ImporterTelQuel(data, "plan.json", cles) == Err(Inattendue)
      && Importer(data, "plan.json", cles).Ok?
  {
    var seg := JObject(map["debut" := JNumber(0.0), "fin" := JNumber(10.0)]);
    var items := [seg];
    assert JString("segments") != seg;
    assert NormaliserSegment(seg, 0).Ok? && NormaliserSegment(seg, 0).value.Some?;
    assert Normalises(items, 1).Ok? && |Normalises(items, 1).value| == 1;
    ListeNueTelQuel(items, "plan.json", cles);
    ListeNueImportee(items, "plan.json", cles);
  }

  // The copy made by `_valider_selection`.

  /** Whether `_valider_selection` can copy a segment: an object, or a list
      that holds the string `fichier`, so that no item is assigned in it. */
  predicate Copiable(seg: Json) {
    seg.JObject? || (seg.JArray? && JString("fichier") in seg.items)
  }

  /** `seg.copy()` with `fichier` set to the default when it is absent. An
      object and a list have `copy`; of the two only an object takes the
      assignment, and `'fichier' not in` a list asks whether the string is
      one of its items. */
  function CopieSegment(seg: Json): (r: Option<Json>)
    ensures r.Some? <==> Copiable(seg)
    ensures seg.JObject? && "fichier" in seg.fields ==> r == Some(seg)
    ensures seg.JObject? && "fichier" !in seg.fields ==>
      r == Some(JObject(seg.fields["fichier" := JString(FichierParDefaut)]))
    ensures seg.JArray? && r.Some? ==> r == Some(seg)
  {
    match seg
    case JObject(m) => Some(JObject(if "fichier" !in m then m["fichier" := JString(FichierParDefaut)] else m))
    case JArray(items) => if JString("fichier") in items then Some(seg) else None
    case _ => None
  }

  /** The copies of the first `i` segments, or `None` when one cannot be copied. */
  function Copies(segs: seq<Json>, i: nat): Option<seq<Json>>
    requires i <= |segs|
    decreases i
  {
    if i == 0 then Some([])
    else
      match Copies(segs, i - 1)
      case None => None
      case Some(acc) =>
        match CopieSegment(segs[i - 1])
        case None => None
        case Some(c) => Some(acc + [c])
  }

  /** `copie` is `seg` copied: for an object, every key and value of `seg`,
      and a `fichier`, the segment's own when it had one; for a list that
      names `fichier`, the list itself. */
  predicate Fidele(seg: Json, copie: Json) {
    if seg.JArray? then copie == seg && JString("fichier") in seg.items
    else
      && seg.JObject? && copie.JObject?
      && copie.fields.Keys == seg.fields.Keys + {"fichier"}
      && (forall key :: key in seg.fields && key != "fichier" ==> copie.fields[key] == seg.fields[key])
      && copie.fields["fichier"] == (if "fichier" in seg.fields then seg.fields["fichier"] else JString(FichierParDefaut))
  }

  lemma CopieSegmentFidele(seg: Json)
    requires CopieSegment(seg).Some?
    ensures Fidele(seg, CopieSegment(seg).value)
  {
  }

  /** The copies, when there are any, are one per segment, in order, and each
      is its segment copied. */
  lemma {:induction false} CopiesFidele(segs: seq<Json>, i: nat)
    requires i <= |segs| && Copies(segs, i).Some?
    ensures |Copies(segs, i).value| == i
    ensures forall k :: 0 <= k < i ==> Fidele(segs[k], Copies(segs, i).value[k])
    decreases i
  {
    if i > 0 {
      CopiesFidele(segs, i - 1);
      CopieSegmentFidele(segs[i - 1]);
    }
  }

  /** The copy succeeds exactly when every segment can be copied. */
  lemma {:induction false} CopiesTotales(segs: seq<Json>, i: nat)
    requires i <= |segs|
    ensures Copies(segs, i).Some? <==> forall k :: 0 <= k < i ==> Copiable(segs[k])
    decreases i
  {
    if i > 0 {
      CopiesTotales(segs, i - 1);
    }
  }

  /** The copy of the chosen suggestion: its title, comment and estimate, and
      the copied segments. */
  function CopieSuggestion(suggestion: Json, copies: seq<Json>): Json
    requires Complete(suggestion)
  {
    JObject(map[
      "titre" := suggestion.fields["titre"],
      "commentaire" := suggestion.fields["commentaire"],
      "duree_estimee" := suggestion.fields["duree_estimee"],
      "segments" := JArray(copies)])
  }

  /** Whether the chosen suggestion has the keys `_valider_selection` reads. */
  predicate Complete(suggestion: Json) {
    && suggestion.JObject?
    && "titre" in suggestion.fields && "commentaire" in suggestion.fields
    && "duree_estimee" in suggestion.fields && "segments" in suggestion.fields
  }

  /** `_valider_selection` up to the editor: with a suggestion chosen, its
      copy with every segment given a `fichier`. The chosen suggestion is a
      value: the copy cannot change it. A missing key, segments that cannot
      be iterated or a segment that cannot be copied raise, shown as `None`. */
  method ValiderSelection(suggestions: seq<Json>, choisi: int, cles: map<string, Json> -> seq<string>) returns (r: Option<Json>)
    requires choisi < |suggestions|
    ensures choisi < 0 ==> r.None?
    ensures choisi >= 0 && !Complete(suggestions[choisi]) ==> r.None?
    ensures choisi >= 0 && Complete(suggestions[choisi]) ==>
      match Elements(suggestions[choisi].fields["segments"], cles)
      case None => r.None?
      case Some(segs) =>
        && (r.Some? <==> Copies(segs, |segs|).Some?)
        && (r.Some? ==> r.value == CopieSuggestion(suggestions[choisi], Copies(segs, |segs|).value))
        && (r.Some? ==> |r.value.fields["segments"].items| == |segs|)
        && (r.Some? ==> forall k :: 0 <= k < |segs| ==> Fidele(segs[k], r.value.fields["segments"].items[k]))
  {
    if choisi < 0 {
      return None;
    }
    var suggestion := suggestions[choisi];
    if !Complete(suggestion) {
      return None;
    }
    var elements := Elements(suggestion.fields["segments"], cles);
    if elements.None? {
      return None;
    }
    var segs := elements.value;
    var copies: seq<Json> := [];
    var i := 0;
    while i < |segs|
      invariant i <= |segs|
      invariant Copies(segs, i) == Some(copies)
    {
      var c := CopieSegment(segs[i]);
      if c.None? {
        CopiesEchec(segs, i + 1);
        return None;
      }
      copies := copies + [c.value];
      i := i + 1;
    }
    CopiesFidele(segs, |segs|);
    r := Some(CopieSuggestion(suggestion, copies));
  }

  /** A segment that cannot be copied makes the whole copy fail. */
  lemma {:induction false} CopiesEchec(segs: seq<Json>, i: nat)
    requires 0 < i <= |segs| && CopieSegment(segs[i - 1]).None?
    ensures Copies(segs, |segs|).None?
  {
    CopiesTotales(segs, |segs|);
  }
}
