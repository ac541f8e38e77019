/** `AudioProcessor`: the ordering of the recordings, their concatenation, and
    the montage of extracts separated by silences. Decoding is an input (a map
    from path to what decoding gives; a path the map lacks does not exist), the
    creation dates are an input, and the effects and the export belong to the
    audio library: the export is described by the parameters it is given. */
module AudioProcessor {
  import opened Common
  import opened Audio
  import opened Sorting

  /** The `audio` section of the configuration, as the montage reads it. */
  datatype AudioConfig = AudioConfig(
    dureeFondu: real,
    silenceEntreSegments: real,
    normaliser: bool,
    formatExport: string,
    debit: string)

  /** The errors raised on the way: an unknown sort method (`ValueError`), an
      empty list indexed at 0 (`IndexError`), a file that cannot be opened. */
  datatype Erreur =
    | MethodeTriInconnue(methode: string)
    | AucunFichier
    | AucunSegment
    | ChargementImpossible(fichier: Path)

  /** What `export(**params_export)` is given besides the path. */
  datatype ParamsExport = ParamsExport(format: string, bitrate: Option<string>, parameters: Option<seq<string>>)

  /** `params_export`: the format, and for mp3 only the bitrate and `-q:a 2`. */
  function ParamsPour(format: string, debit: string): (p: ParamsExport)
    ensures p.format == format
    ensures p.bitrate.Some? <==> format == "mp3"
    ensures p.parameters.Some? <==> format == "mp3"
    ensures format == "mp3" ==> p.bitrate == Some(debit) && p.parameters == Some(["-q:a", "2"])
  {
    if format == "mp3" then ParamsExport(format, Some(debit), Some(["-q:a", "2"]))
    else ParamsExport(format, None, None)
  }

  /** `_trier_fichiers`: by name (the paths' parts compared as strings) or by
      creation date, descending exactly when `ordre` is `"desc"`; any other
      method is refused. The result is the input rearranged. */
  function TrierFichiers(fichiers: seq<Path>, methode: string, ordre: string, ctime: Path -> real): (r: Result<seq<Path>, Erreur>)
    ensures methode != "nom" && methode != "date" ==> r == Err(MethodeTriInconnue(methode))
    ensures methode == "nom" || methode == "date" ==> r.Ok? && multiset(r.value) == multiset(fichiers)
    ensures methode == "nom" && ordre != "desc" ==>
      forall i, j :: 0 <= i < j < |r.value| ==> !PathLess()(r.value[j], r.value[i])
    ensures methode == "nom" && ordre == "desc" ==>
      forall i, j :: 0 <= i < j < |r.value| ==> !PathLess()(r.value[i], r.value[j])
    ensures methode == "date" && ordre != "desc" ==>
      forall i, j :: 0 <= i < j < |r.value| ==> ctime(r.value[i]) <= ctime(r.value[j])
    ensures methode == "date" && ordre == "desc" ==>
      forall i, j :: 0 <= i < j < |r.value| ==> ctime(r.value[i]) >= ctime(r.value[j])
  {
    if methode == "nom" then
      PathLessStrict();
      var lt := if ordre == "desc" then Flip(PathLess()) else PathLess();
      FlipStrict(PathLess());
      SortBySorted(fichiers, lt);
      var s := SortBy(fichiers, lt);
      if ordre == "desc" then FlipSorted(s, PathLess()); Ok(s) else Ok(s)
    else if methode == "date" then
      var lt := if ordre == "desc" then Flip(KeyLess(ctime)) else KeyLess(ctime);
      KeyLessStrict(ctime);
      FlipStrict(KeyLess(ctime));
      SortBySorted(fichiers, lt);
      var s := SortBy(fichiers, lt);
      if ordre == "desc" then FlipSorted(s, KeyLess(ctime)); Ok(s) else Ok(s)
    else Err(MethodeTriInconnue(methode))
  }

  /** A path that opens and decodes. */
  predicate Lisible(sources: map<Path, SourceFile>, p: Path) {
    p in sources && sources[p].Readable?
  }

  /** The audio of the first `i` paths, all of which decode. */
  function Audios(fichiers: seq<Path>, sources: map<Path, SourceFile>, i: nat): (r: seq<AudioSegment>)
    requires i <= |fichiers|
    requires forall k :: 0 <= k < i ==> Lisible(sources, fichiers[k])
    ensures |r| == i
    decreases i
  {
    if i == 0 then []
    else
      assert Lisible(sources, fichiers[i - 1]);
      Audios(fichiers, sources, i - 1) + [sources[fichiers[i - 1]].audio]
  }

  /** The loop of `concatener_fichiers` over the sorted paths: the first is
      loaded, and each next one is loaded and appended with `+=`; the first
      path that does not open stops it. */
  method Combiner(tries: seq<Path>, sources: map<Path, SourceFile>) returns (r: Result<AudioSegment, Erreur>)
    requires |tries| > 0
    ensures r.Ok? <==> forall k :: 0 <= k < |tries| ==> Lisible(sources, tries[k])
    ensures r.Ok? ==> r.value == Assemble(Audios(tries, sources, |tries|), [])
    ensures r.Err? ==>
      exists k :: 0 <= k < |tries| && r == Err(ChargementImpossible(tries[k])) && !Lisible(sources, tries[k]) &&
        forall j :: 0 <= j < k ==> Lisible(sources, tries[j])
  {
    if !Lisible(sources, tries[0]) {
      return Err(ChargementImpossible(tries[0]));
    }
    var combine := sources[tries[0]].audio;
    assert Audios(tries, sources, 1) == [combine];
    var i := 1;
    while i < |tries|
      invariant 1 <= i <= |tries|
      invariant forall k :: 0 <= k < i ==> Lisible(sources, tries[k])
      invariant combine == Assemble(Audios(tries, sources, i), [])
    {
      if !Lisible(sources, tries[i]) {
        return Err(ChargementImpossible(tries[i]));
      }
      var audio := sources[tries[i]].audio;
      ghost var avant := Audios(tries, sources, i);
      assert Audios(tries, sources, i + 1)[..i] == avant;
      combine := combine + audio;
      i := i + 1;
    }
    r := Ok(combine);
  }

  /** `concatener_fichiers`: the files in the sorted order, each appended to
      the first. An unknown sort method is refused, an empty list fails at
      `fichiers_tries[0]`, and otherwise it succeeds exactly when every file
      opens. The wav export of the result is not modelled. */
  method ConcatenerFichiers(fichiers: seq<Path>, sources: map<Path, SourceFile>, methode: string, ordre: string, ctime: Path -> real)
    returns (r: Result<AudioSegment, Erreur>)
    ensures TrierFichiers(fichiers, methode, ordre, ctime).Err? ==> r == Err(MethodeTriInconnue(methode))
    ensures TrierFichiers(fichiers, methode, ordre, ctime).Ok? ==>
      var tries := TrierFichiers(fichiers, methode, ordre, ctime).value;
      && (|fichiers| == 0 ==> r == Err(AucunFichier))
      && (r.Ok? <==> |fichiers| > 0 && forall f :: f in fichiers ==> Lisible(sources, f))
      && (r.Ok? ==>
            && (forall k :: 0 <= k < |tries| ==> Lisible(sources, tries[k]))
            && r.value == Assemble(Audios(tries, sources, |tries|), []))
      && (r.Err? && |fichiers| > 0 ==>
            exists k :: 0 <= k < |tries| && r == Err(ChargementImpossible(tries[k])) && !Lisible(sources, tries[k]) &&
              forall j :: 0 <= j < k ==> Lisible(sources, tries[j]))
  {
    var t := TrierFichiers(fichiers, methode, ordre, ctime);
    if t.Err? {
      return Err(t.error);
    }
    var tries := t.value;
    if |tries| == 0 {
      return Err(AucunFichier);
    }
    r := Combiner(tries, sources);
    forall f ensures f in fichiers <==> f in tries {
      assert f in fichiers <==> f in multiset(fichiers);
      assert f in tries <==> f in multiset(tries);
    }
    if r.Ok? {
      forall f | f in fichiers ensures Lisible(sources, f) {
        var k :| 0 <= k < |tries| && tries[k] == f;
      }
    }
  }

  /** `concatener_fichiers` gives as many milliseconds as the files hold together. */
  lemma ConcatenerLongueur(fichiers: seq<Path>, sources: map<Path, SourceFile>)
    requires |fichiers| >= 1
    requires forall k :: 0 <= k < |fichiers| ==> Lisible(sources, fichiers[k])
    ensures |Assemble(Audios(fichiers, sources, |fichiers|), [])| == TotalLength(Audios(fichiers, sources, |fichiers|))
  {
    ConcatLength(Audios(fichiers, sources, |fichiers|));
  }

  /** A segment of `creer_montage`: `debut` and `fin` in seconds. */
  datatype Intervalle = Intervalle(debut: real, fin: real)

  /** One extract: `audio[int(debut*1000):int(fin*1000)]`, then a fade-in and
      a fade-out of `duree_fondu`. */
  function Extrait(audio: AudioSegment, seg: Intervalle, fondu: real, fx: Effects): AudioSegment {
    fx.fadeOut(fx.fadeIn(Slice(audio, Ms(seg.debut), Ms(seg.fin)), fondu), fondu)
  }

  /** An extract is as long as its slice; within the audio it runs from
      `int(debut*1000)` to `int(fin*1000)`. */
  lemma ExtraitLongueur(audio: AudioSegment, seg: Intervalle, fondu: real, fx: Effects)
    requires LengthPreserving(fx)
    ensures |Extrait(audio, seg, fondu, fx)| == |Slice(audio, Ms(seg.debut), Ms(seg.fin))|
    ensures 0 <= Ms(seg.debut) <= Ms(seg.fin) <= |audio| ==> |Extrait(audio, seg, fondu, fx)| == Ms(seg.fin) - Ms(seg.debut)
  {
  }

  /** The extracts of the first `i` segments, in order. */
  function Extraits(audio: AudioSegment, segments: seq<Intervalle>, fondu: real, fx: Effects, i: nat): (r: seq<AudioSegment>)
    requires i <= |segments|
    ensures |r| == i
    decreases i
  {
    if i == 0 then [] else Extraits(audio, segments, fondu, fx, i - 1) + [Extrait(audio, segments[i - 1], fondu, fx)]
  }

  /** Extract `k` is the extract of segment `k`. */
  lemma {:induction false} ExtraitsAt(audio: AudioSegment, segments: seq<Intervalle>, fondu: real, fx: Effects, i: nat, k: nat)
    requires k < i <= |segments|
    ensures Extraits(audio, segments, fondu, fx, i)[k] == Extrait(audio, segments[k], fondu, fx)
    decreases i
  {
    if k < i - 1 {
      ExtraitsAt(audio, segments, fondu, fx, i - 1, k);
    }
  }

  /** The loop of `creer_montage` that fills `extraits`. */
  method Extraire(audio: AudioSegment, segments: seq<Intervalle>, fondu: real, fx: Effects) returns (extraits: seq<AudioSegment>)
    ensures extraits == Extraits(audio, segments, fondu, fx, |segments|)
  {
    extraits := [];
    var i := 0;
    while i < |segments|
      invariant 0 <= i <= |segments|
      invariant extraits == Extraits(audio, segments, fondu, fx, i)
    {
      var segment := Slice(audio, Ms(segments[i].debut), Ms(segments[i].fin));
      segment := fx.fadeOut(fx.fadeIn(segment, fondu), fondu);
      extraits := extraits + [segment];
      i := i + 1;
    }
  }

  /** What `creer_montage` writes: the audio, and how it is exported. */
  datatype Montage = Montage(audio: AudioSegment, params: ParamsExport)

  /** `clips[0] + silence + clips[1] + ...`, the loop that builds `final`. */
  method Assembler(clips: seq<AudioSegment>, silence: AudioSegment) returns (final: AudioSegment)
    requires |clips| >= 1
    ensures final == Assemble(clips, silence)
  {
    final := clips[0];
    assert clips[..1] == [clips[0]];
    var i := 1;
    while i < |clips|
      invariant 1 <= i <= |clips|
      invariant final == Assemble(clips[..i], silence)
    {
      AssembleStep(clips, silence, i);
      final := final + silence + clips[i];
      i := i + 1;
    }
    assert clips[..i] == clips;
  }

  /** `creer_montage` on audio already loaded: every segment extracted in
      order, the extracts joined by a silence of `silence_entre_segments` ms,
      normalised when `normaliser` is set, and exported with the parameters
      of `format_export`. No segment at all fails at `extraits[0]`. */
  method CreerMontage(audio: AudioSegment, segments: seq<Intervalle>, cfg: AudioConfig, fx: Effects)
    returns (r: Result<Montage, Erreur>)
    ensures r.Err? <==> |segments| == 0
    ensures r.Err? ==> r.error == AucunSegment
    ensures r.Ok? ==>
      var joint := Assemble(Extraits(audio, segments, cfg.dureeFondu, fx, |segments|), Silent(cfg.silenceEntreSegments));
      && r.value.audio == (if cfg.normaliser then fx.normalize(joint) else joint)
      && r.value.params == ParamsPour(cfg.formatExport, cfg.debit)
  {
    var extraits := Extraire(audio, segments, cfg.dureeFondu, fx);
    if |extraits| == 0 {
      return Err(AucunSegment);
    }
    var silence := Silent(cfg.silenceEntreSegments);
    var final := Assembler(extraits, silence);
    if cfg.normaliser {
      final := fx.normalize(final);
    }
    r := Ok(Montage(final, ParamsPour(cfg.formatExport, cfg.debit)));
  }

  /** The montage lasts as long as its extracts plus `n - 1` silences;
      normalising does not change that. */
  lemma MontageLongueur(audio: AudioSegment, segments: seq<Intervalle>, cfg: AudioConfig, fx: Effects)
    requires LengthPreserving(fx) && |segments| >= 1
    ensures var clips := Extraits(audio, segments, cfg.dureeFondu, fx, |segments|);
      var joint := Assemble(clips, Silent(cfg.silenceEntreSegments));
      && |joint| == TotalLength(clips) + (|segments| - 1) * |Silent(cfg.silenceEntreSegments)|
      && |fx.normalize(joint)| == |joint|
  {
    AssembleLength(Extraits(audio, segments, cfg.dureeFondu, fx, |segments|), Silent(cfg.silenceEntreSegments));
  }

  /** Extract `k` sits unchanged in the joined audio at its offset, and a
      silence separates it from extract `k + 1`. */
  lemma MontagePlaceExtrait(audio: AudioSegment, segments: seq<Intervalle>, cfg: AudioConfig, fx: Effects, k: nat)
    requires k < |segments|
    ensures var clips := Extraits(audio, segments, cfg.dureeFondu, fx, |segments|);
      var silence := Silent(cfg.silenceEntreSegments);
      var o := Offset(clips, |silence|, k);
      var joint := Assemble(clips, silence);
      && o + |clips[k]| <= |joint|
      && joint[o..o + |clips[k]|] == Extrait(audio, segments[k], cfg.dureeFondu, fx)
      && (k + 1 < |segments| ==> o + |clips[k]| + |silence| <= |joint| && joint[o + |clips[k]|..o + |clips[k]| + |silence|] == silence)
  {
    var clips := Extraits(audio, segments, cfg.dureeFondu, fx, |segments|);
    var silence := Silent(cfg.silenceEntreSegments);
    AssemblePlacesClip(clips, silence, k);
    ExtraitsAt(audio, segments, cfg.dureeFondu, fx, |segments|, k);
    if k + 1 < |segments| {
      AssemblePlacesSilence(clips, silence, k);
    }
  }
}
