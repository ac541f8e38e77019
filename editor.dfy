/** `PodcastEditor._monter_depuis_segments`, the montage of the manual
    workflow: fades applied to the prepared clips in place, a timeline record
    per clip, the clips joined by silences, and the metadata written beside
    the export. The clock that names the file is an input; writing files is
    not modelled, its contents are returned. */
module Editor {
  import opened Common
  import opened Text
  import opened Audio
  import opened AudioProcessor
  import opened Decoupage

  /** Whether `decoupage.get('parametres', {})` and the `.get` on its
      result can run: both need an object, or Python raises `AttributeError`. */
  predicate ParametresLisibles(decoupage: Json) {
    decoupage.JObject? && ("parametres" in decoupage.fields ==> decoupage.fields["parametres"].JObject?)
  }

  /** `decoupage.get('parametres', {}).get(cle, defaut)`, the value as the
      document holds it: the découpage's own value overrides the
      configuration's. */
  function Brut(decoupage: Json, cle: string, defaut: real): (r: Option<Json>)
    ensures r.Some? <==> ParametresLisibles(decoupage)
    ensures decoupage.JObject? && "parametres" !in decoupage.fields ==> r == Some(JNumber(defaut))
    ensures ParametresLisibles(decoupage) && "parametres" in decoupage.fields ==>
      var p := decoupage.fields["parametres"].fields;
      r == Some(if cle in p then p[cle] else JNumber(defaut))
  {
    match GetOr(decoupage, "parametres", JObject(map[]))
    case None => None
    case Some(p) => GetOr(p, cle, JNumber(defaut))
  }

  /** That value as it reaches the audio library: a number (or a boolean)
      is passed on; anything else is `None`, for the library raises on it. */
  function Parametre(decoupage: Json, cle: string, defaut: real): (r: Option<real>)
    ensures !decoupage.JObject? ==> r.None?
    ensures decoupage.JObject? && "parametres" !in decoupage.fields ==> r == Some(defaut)
    ensures decoupage.JObject? && "parametres" in decoupage.fields ==>
      var p := decoupage.fields["parametres"];
      && (!p.JObject? ==> r.None?)
      && (p.JObject? && cle !in p.fields ==> r == Some(defaut))
      && (p.JObject? && cle in p.fields ==> r == Num(p.fields[cle]))
  {
    match Brut(decoupage, cle, defaut)
    case None => None
    case Some(v) => Num(v)
  }

  /** One entry of `metadonnees_segments`. */
  datatype Enregistrement = Enregistrement(
    index: nat,
    description: Json,
    debutSource: real,
    finSource: real,
    debutOutput: real,
    finOutput: real,
    duree: real,
    fichierSource: string)

  /** What `_generer_metadonnees_json` writes (the creation date and the
      rounding to two decimals aside). */
  datatype Metadonnees = Metadonnees(
    podcast: string,
    dureeTotaleSecondes: real,
    dureeTotaleMinutes: real,
    nombreSegments: nat,
    segments: seq<Enregistrement>,
    configuration: AudioConfig)

  /** What the montage writes: the audio with its export parameters and file
      name, and the metadata. */
  datatype Sortie = Sortie(audio: AudioSegment, params: ParamsExport, nomFichier: string, metadonnees: Metadonnees)

  /** `AttributeError` on the découpage, a parameter the audio library
      refuses, and `IndexError` at `segments[0]`. */
  datatype ErreurMontage = DecoupageIllisible | ParametreInvalide(cle: string) | AucunSegmentPrepare

  /** `audio.fade_in(d).fade_out(d)`. */
  function Fondu(a: AudioSegment, fondu: real, fx: Effects): AudioSegment {
    fx.fadeOut(fx.fadeIn(a, fondu), fondu)
  }

  /** The record of clip `i` (1-based) placed at `position`. */
  function Enregistrer(seg: Prepared, i: nat, position: real): (e: Enregistrement)
    ensures e.index == i && e.debutOutput == position && e.duree == Duree(seg.audio)
    ensures e.finOutput == e.debutOutput + e.duree
    ensures e.debutSource == seg.debut && e.finSource == seg.fin
  {
    Enregistrement(i, seg.description.GetOr(JString("Segment " + NatToString(i))), seg.debut, seg.fin,
      position, position + Duree(seg.audio), Duree(seg.audio), seg.fichier.GetOr("unknown"))
  }

  /** Records laid end to end: the first starts at 0, each ends its duration
      after it starts, and the next starts a silence later. */
  predicate Chronologie(recs: seq<Enregistrement>, silenceSec: real) {
    && (|recs| > 0 ==> recs[0].debutOutput == 0.0)
    && (forall k :: 0 <= k < |recs| ==> recs[k].finOutput == recs[k].debutOutput + recs[k].duree)
    && (forall k :: 0 <= k < |recs| - 1 ==> recs[k + 1].debutOutput == recs[k].finOutput + silenceSec)
  }

  /** The clips of the prepared segments. */
  function Clips(ps: seq<Prepared>): (r: seq<AudioSegment>)
    ensures |r| == |ps|
    ensures forall k :: 0 <= k < |ps| ==> r[k] == ps[k].audio
  {
    seq(|ps|, k requires 0 <= k < |ps| => ps[k].audio)
  }

  /** A clip after its fades. */
  function Fait(p: Prepared, fondu: real, fx: Effects): Prepared {
    p.(audio := Fondu(p.audio, fondu, fx))
  }

  /** The records of the first `i` faded clips and the cursor after them, as
      the loop builds them. */
  function Releves(ps: seq<Prepared>, fondu: real, silenceSec: real, fx: Effects, i: nat): (r: (seq<Enregistrement>, real))
    requires i <= |ps|
    ensures |r.0| == i
    decreases i
  {
    if i == 0 then ([], 0.0)
    else
      var avant := Releves(ps, fondu, silenceSec, fx, i - 1);
      var seg := Fait(ps[i - 1], fondu, fx);
      (avant.0 + [Enregistrer(seg, i, avant.1)], avant.1 + (Duree(seg.audio) + silenceSec))
  }

  /** The records describe the faded clips: 1-based indices, their fields and
      durations, laid end to end with a silence in between; the cursor is one
      silence after the last record. */
  lemma {:induction false} RelevesChronologie(ps: seq<Prepared>, fondu: real, silenceSec: real, fx: Effects, i: nat)
    requires i <= |ps|
    ensures var r := Releves(ps, fondu, silenceSec, fx, i);
      && Chronologie(r.0, silenceSec)
      && (forall k :: 0 <= k < i ==> r.0[k] == Enregistrer(Fait(ps[k], fondu, fx), k + 1, r.0[k].debutOutput))
      && r.1 == (if i == 0 then 0.0 else r.0[i - 1].finOutput + silenceSec)
    decreases i
  {
    if i > 0 {
      RelevesChronologie(ps, fondu, silenceSec, fx, i - 1);
      var avant := Releves(ps, fondu, silenceSec, fx, i - 1).0;
      var r := Releves(ps, fondu, silenceSec, fx, i).0;
      assert r[..i - 1] == avant;
      forall k | 0 <= k < i - 1 ensures r[k] == avant[k] {
      }
    }
  }

  /** The records describe the clips `ps`: one each, laid end to end, with
      the clip's 1-based index, duration, source times, description
      (`Segment i` by default) and file (`unknown` by default). */
  ghost predicate Decrit(recs: seq<Enregistrement>, ps: seq<Prepared>, silenceSec: real) {
    && |recs| == |ps|
    && Chronologie(recs, silenceSec)
    && forall k :: 0 <= k < |recs| ==>
         && recs[k].index == k + 1
         && recs[k].duree == Duree(ps[k].audio)
         && recs[k].debutSource == ps[k].debut && recs[k].finSource == ps[k].fin
         && recs[k].description == ps[k].description.GetOr(JString("Segment " + NatToString(k + 1)))
         && recs[k].fichierSource == ps[k].fichier.GetOr("unknown")
  }

  /** The records the loop builds describe the faded clips. */
  lemma RelevesDecrit(ps: seq<Prepared>, faits: seq<Prepared>, fondu: real, silenceSec: real, fx: Effects)
    requires |faits| == |ps|
    requires forall k :: 0 <= k < |ps| ==> faits[k] == Fait(ps[k], fondu, fx)
    ensures Decrit(Releves(ps, fondu, silenceSec, fx, |ps|).0, faits, silenceSec)
  {
    RelevesChronologie(ps, fondu, silenceSec, fx, |ps|);
  }

  /** The first loop of `_monter_depuis_segments`: each clip is faded in
      place and recorded at the cursor, which then moves past the clip and one
      silence. */
  method AppliquerFondus(segs: array<Prepared>, fondu: real, silenceSec: real, fx: Effects) returns (recs: seq<Enregistrement>)
    modifies segs
    ensures forall k :: 0 <= k < segs.Length ==> segs[k] == Fait(old(segs[k]), fondu, fx)
    ensures Decrit(recs, segs[..], silenceSec)
  {
    ghost var orig := segs[..];
    recs := [];
    var position := 0.0;
    var i := 0;
    while i < segs.Length
      invariant 0 <= i <= segs.Length
      invariant forall k :: 0 <= k < i ==> segs[k] == Fait(orig[k], fondu, fx)
      invariant forall k :: i <= k < segs.Length ==> segs[k] == orig[k]
      invariant (recs, position) == Releves(orig, fondu, silenceSec, fx, i)
    {
      segs[i] := segs[i].(audio := Fondu(segs[i].audio, fondu, fx));
      var duree := Duree(segs[i].audio);
      recs := recs + [Enregistrer(segs[i], i + 1, position)];
      position := position + (duree + silenceSec);
      i := i + 1;
    }
    RelevesDecrit(orig, segs[..], fondu, silenceSec, fx);
  }

  /** What the montage gives for fade length `fondu` and silence `silence`
      (in ms), from the clips `avant` that become `apres`: every clip faded;
      no clip at all fails at `segments[0]`; otherwise the records describe
      the faded clips, the audio is the faded clips joined by the silence and
      normalised when the configuration says so, the file is
      `podcast_final_<time>.<format>` exported with the format's parameters,
      and the metadata name that file, give the audio's length and the number
      of clips, and report the configuration. */
  ghost predicate Monte(r: Result<Sortie, ErreurMontage>, avant: seq<Prepared>, apres: seq<Prepared>,
                        fondu: real, silence: real, cfg: AudioConfig, fx: Effects, horodatage: string) {
    && |apres| == |avant|
    && (forall k :: 0 <= k < |avant| ==> apres[k] == Fait(avant[k], fondu, fx))
    && (r.Err? <==> |avant| == 0)
    && (r.Err? ==> r.error == AucunSegmentPrepare)
    && (r.Ok? ==>
          var joint := Assemble(Clips(apres), Silent(silence));
          && Decrit(r.value.metadonnees.segments, apres, silence / 1000.0)
          && r.value.audio == (if cfg.normaliser then fx.normalize(joint) else joint)
          && r.value.params == ParamsPour(cfg.formatExport, cfg.debit)
          && r.value.nomFichier == "podcast_final_" + horodatage + "." + cfg.formatExport
          && r.value.metadonnees.podcast == r.value.nomFichier
          && r.value.metadonnees.dureeTotaleSecondes == Duree(r.value.audio)
          && r.value.metadonnees.dureeTotaleMinutes == Duree(r.value.audio) / 60.0
          && r.value.metadonnees.nombreSegments == |apres|
          && r.value.metadonnees.configuration == cfg)
  }

  /** `_monter_depuis_segments` once the fade length and the silence are known. */
  method Monter(segs: array<Prepared>, fondu: real, silenceDuree: real, cfg: AudioConfig, fx: Effects, horodatage: string)
    returns (r: Result<Sortie, ErreurMontage>)
    modifies segs
    ensures Monte(r, old(segs[..]), segs[..], fondu, silenceDuree, cfg, fx, horodatage)
  {
    ghost var orig := segs[..];
    var recs := AppliquerFondus(segs, fondu, silenceDuree / 1000.0, fx);
    if segs.Length == 0 {
      return Err(AucunSegmentPrepare);
    }
    var silence := Silent(silenceDuree);
    var final := Assembler(Clips(segs[..]), silence);
    if cfg.normaliser {
      final := fx.normalize(final);
    }
    var nom := "podcast_final_" + horodatage + "." + cfg.formatExport;
    var meta := Metadonnees(nom, Duree(final), Duree(final) / 60.0, |recs|, recs, cfg);
    r := Ok(Sortie(final, ParamsPour(cfg.formatExport, cfg.debit), nom, meta));
  }

  /** `_monter_depuis_segments`. The fade length and the silence come from the
      découpage's `parametres` when it has them, else from the configuration.
      A découpage whose parameters cannot be read stops it at once. Otherwise
      the values are used where Python first needs them: with no clip the
      loop does not run, `AudioSegment.silent` takes the silence and
      `segments[0]` raises; with clips, the first fade takes the fade length
      before anything changes, and the silence is divided by 1000 only after
      the first clip has been faded in place. */
  method MonterDepuisSegments(segs: array<Prepared>, decoupage: Json, cfg: AudioConfig, fx: Effects, horodatage: string)
    returns (r: Result<Sortie, ErreurMontage>)
    modifies segs
    ensures !ParametresLisibles(decoupage) ==> r == Err(DecoupageIllisible) && segs[..] == old(segs[..])
    ensures ParametresLisibles(decoupage) && segs.Length == 0 ==>
      r == (if Parametre(decoupage, "silence_entre_segments", cfg.silenceEntreSegments).None?
            then Err(ParametreInvalide("silence_entre_segments")) else Err(AucunSegmentPrepare))
    ensures ParametresLisibles(decoupage) && segs.Length > 0 && Parametre(decoupage, "duree_fondu", cfg.dureeFondu).None? ==>
      r == Err(ParametreInvalide("duree_fondu")) && segs[..] == old(segs[..])
    ensures segs.Length > 0 && Parametre(decoupage, "duree_fondu", cfg.dureeFondu).Some? &&
            Parametre(decoupage, "silence_entre_segments", cfg.silenceEntreSegments).None? ==>
      && r == Err(ParametreInvalide("silence_entre_segments"))
      && segs[0] == Fait(old(segs[0]), Parametre(decoupage, "duree_fondu", cfg.dureeFondu).value, fx)
      && segs[1..] == old(segs[1..])
    ensures Parametre(decoupage, "duree_fondu", cfg.dureeFondu).Some? &&
            Parametre(decoupage, "silence_entre_segments", cfg.silenceEntreSegments).Some? ==>
      Monte(r, old(segs[..]), segs[..], Parametre(decoupage, "duree_fondu", cfg.dureeFondu).value,
            Parametre(decoupage, "silence_entre_segments", cfg.silenceEntreSegments).value, cfg, fx, horodatage)
  {
    var fondu := Brut(decoupage, "duree_fondu", cfg.dureeFondu);
    var silenceDuree := Brut(decoupage, "silence_entre_segments", cfg.silenceEntreSegments);
    if fondu.None? || silenceDuree.None? {
      return Err(DecoupageIllisible);
    }
    if segs.Length == 0 {
      if Num(silenceDuree.value).None? {
        return Err(ParametreInvalide("silence_entre_segments"));
      }
      return Err(AucunSegmentPrepare);
    }
    if Num(fondu.value).None? {
      return Err(ParametreInvalide("duree_fondu"));
    }
    if Num(silenceDuree.value).None? {
      segs[0] := Fait(segs[0], Num(fondu.value).value, fx);
      return Err(ParametreInvalide("silence_entre_segments"));
    }
    r := Monter(segs, Num(fondu.value).value, Num(silenceDuree.value).value, cfg, fx, horodatage);
  }

  /** The records never overlap and run in order: with a non-negative
      silence and durations, every clip ends before any later one starts. */
  lemma {:induction false} ChronologieOrdonnee(recs: seq<Enregistrement>, silenceSec: real, i: nat, j: nat)
    requires Chronologie(recs, silenceSec) && silenceSec >= 0.0
    requires forall k :: 0 <= k < |recs| ==> recs[k].duree >= 0.0
    requires i < j < |recs|
    ensures recs[i].debutOutput <= recs[i].finOutput <= recs[j].debutOutput <= recs[j].finOutput
    decreases j - i
  {
    if j > i + 1 {
      ChronologieOrdonnee(recs, silenceSec, i, j - 1);
    }
  }

  /** The records tell where each clip is in the joined audio: with a silence
      of a whole number of milliseconds, clip `k` starts at its offset and ends
      its length later, in milliseconds. */
  lemma {:induction false} ChronologieCalee(recs: seq<Enregistrement>, clips: seq<AudioSegment>, silence: nat, k: nat)
    requires |recs| == |clips| && k < |recs|
    requires Chronologie(recs, silence as real / 1000.0)
    requires forall j :: 0 <= j < |recs| ==> recs[j].duree == Duree(clips[j])
    ensures recs[k].debutOutput * 1000.0 == Offset(clips, silence, k) as real
    ensures recs[k].finOutput * 1000.0 == (Offset(clips, silence, k) + |clips[k]|) as real
    decreases k
  {
    if k == 0 {
      assert clips[..0] == [];
    } else {
      ChronologieCalee(recs, clips, silence, k - 1);
      OffsetStep(clips, silence, k - 1);
    }
  }

  /** The silence of the montage has as many milliseconds as asked for when
      that is a whole number. */
  lemma SilenceEntiere(silence: nat)
    ensures |Silent(silence as real)| == silence
  {
  }
}
