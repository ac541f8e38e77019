/** The parts of the suggestion analyser that do not talk to the language
    model: the settings that override the configuration, the total-duration
    statistic of the prompt, the transcript as the prompt shows it, and the
    reading of the model's reply. The reply's JSON decoder `json.loads` is a
    parameter (`None` when it raises). */
module AIAnalyzer {
  import opened Common
  import opened Text
  import opened TimeFormat
  import opened Transcriber

  /** The settings of the analysis: target duration in minutes, tone and
      number of suggestions. */
  datatype Reglages = Reglages(dureeCible: int, ton: string, nombreSuggestions: int)

  /** Python's `x or default` for an optional number: `None` and `0` are false. */
  function OuNombre(x: Option<int>, defaut: int): (r: int)
    ensures x.Some? && x.value != 0 ==> r == x.value
    ensures x.None? || x.value == 0 ==> r == defaut
  {
    if x.Some? && x.value != 0 then x.value else defaut
  }

  /** Python's `x or default` for an optional string: `None` and `""` are false. */
  function OuTexte(x: Option<string>, defaut: string): (r: string)
    ensures x.Some? && x.value != "" ==> r == x.value
    ensures x.None? || x.value == "" ==> r == defaut
  {
    if x.Some? && x.value != "" then x.value else defaut
  }

  /** The settings `analyser_transcription` works with: each argument that is
      given and true replaces the configured value. */
  function Resoudre(config: Reglages, duree: Option<int>, ton: Option<string>, nombre: Option<int>): Reglages {
    Reglages(OuNombre(duree, config.dureeCible), OuTexte(ton, config.ton), OuNombre(nombre, config.nombreSuggestions))
  }

  /** With no argument the configuration is used as it is, and passing the
      resolved settings back in resolves to the same settings. */
  lemma ResoudreStable(config: Reglages, duree: Option<int>, ton: Option<string>, nombre: Option<int>)
    ensures Resoudre(config, None, None, None) == config
    ensures var r := Resoudre(config, duree, ton, nombre);
      Resoudre(config, Some(r.dureeCible), Some(r.ton), Some(r.nombreSuggestions)) == r
  {
  }

  /** An argument that is given and true always wins over the configuration. */
  lemma ResoudreArgumentGagne(config: Reglages, duree: int, ton: string, nombre: int)
    requires duree != 0 && ton != "" && nombre != 0
    ensures Resoudre(config, Some(duree), Some(ton), Some(nombre)) == Reglages(duree, ton, nombre)
  {
  }

  /** The total duration the prompt reports: the `fin` of the last transcript
      segment, or 0 without segments. */
  function DureeTotale(segs: seq<TSegment>): (r: real)
    ensures |segs| == 0 ==> r == 0.0
    ensures |segs| > 0 ==> r == segs[|segs| - 1].fin
  {
    if |segs| == 0 then 0.0 else segs[|segs| - 1].fin
  }

  /** Each segment ends no later than the next one. */
  predicate FinsCroissantes(segs: seq<TSegment>) {
    forall k :: 0 <= k < |segs| - 1 ==> segs[k].fin <= segs[k + 1].fin
  }

  /** In a transcript whose segments end in order, the reported total is the
      latest end of all. */
  lemma {:induction false} DureeTotaleMajore(segs: seq<TSegment>, k: nat)
    requires FinsCroissantes(segs)
    requires k < |segs|
    ensures segs[k].fin <= DureeTotale(segs)
    decreases |segs| - k
  {
    if k < |segs| - 1 {
      DureeTotaleMajore(segs, k + 1);
    }
  }

  /** `any('speaker' in seg for seg in segments)`. */
  predicate AUnSpeaker(segs: seq<TSegment>) {
    exists k :: 0 <= k < |segs| && segs[k].speaker.Some?
  }

  /** `[debut - fin] ` in front of every line. */
  function EnTete(seg: TSegment): string {
    "[" + FormaterTemps(seg.debut) + " - " + FormaterTemps(seg.fin) + "] "
  }

  /** One line of the prompt's transcript. */
  function Ligne(seg: TSegment, hasSpeakers: bool): string {
    if hasSpeakers && seg.speaker.Some? then EnTete(seg) + "[" + seg.speaker.value + "] " + seg.texte
    else EnTete(seg) + seg.texte
  }

  /** The lines of the prompt's transcript, one per segment, in order. */
  function Lignes(segs: seq<TSegment>): (r: seq<string>)
    ensures |r| == |segs|
  {
    seq(|segs|, k requires 0 <= k < |segs| => Ligne(segs[k], AUnSpeaker(segs)))
  }

  /** One pass of the loop: the line of one segment, tagged when the
      transcript has speakers and this segment has one. */
  method FormerLigne(seg: TSegment, hasSpeakers: bool) returns (ligne: string)
    ensures ligne == Ligne(seg, hasSpeakers)
  {
    if hasSpeakers && seg.speaker.Some? {
      ligne := EnTete(seg) + "[" + seg.speaker.value + "] " + seg.texte;
    } else {
      ligne := EnTete(seg) + seg.texte;
    }
  }

  /** `_formater_transcription_pour_prompt`: the lines built one segment at a
      time and joined with newlines. */
  method FormaterTranscriptionPourPrompt(segs: seq<TSegment>) returns (r: string)
    ensures r == Join(Lignes(segs), "\n")
  {
    var hasSpeakers := exists k | 0 <= k < |segs| :: segs[k].speaker.Some?;
    ghost var tous := Lignes(segs);
    var lignes: seq<string> := [];
    var i := 0;
    while i < |segs|
      invariant i <= |segs|
      invariant lignes == tous[..i]
    {
      var ligne := FormerLigne(segs[i], hasSpeakers);
      assert ligne == tous[i];
      lignes := lignes + [ligne];
      i := i + 1;
    }
    assert lignes == tous;
    r := Join(lignes, "\n");
  }

  /** The head of a line holds the segment's two clocks, which read back as
      the whole seconds of `debut` and `fin` below 100 minutes. */
  lemma EnTeteHorloges(seg: TSegment)
    requires 0.0 <= seg.debut < 6000.0 && 0.0 <= seg.fin < 6000.0
    ensures var e := EnTete(seg);
      && |e| == 16 && e[0] == '[' && e[6..9] == " - " && e[14..16] == "] "
      && IsClock(e[1..6]) && ClockValue(e[1..6]) == seg.debut.Floor
      && IsClock(e[9..14]) && ClockValue(e[9..14]) == seg.fin.Floor
  {
    FormaterTempsReadsBack(seg.debut);
    FormaterTempsReadsBack(seg.fin);
    var e := EnTete(seg);
    assert e[1..6] == FormaterTemps(seg.debut);
    assert e[9..14] == FormaterTemps(seg.fin);
  }

  /** Every line is its head, then a `[speaker] ` tag exactly for the segments
      that have a speaker, then the text: the whole-transcript `has_speakers`
      test never hides a tag. */
  lemma LigneForme(segs: seq<TSegment>, k: nat)
    requires k < |segs|
    ensures segs[k].speaker.Some? ==> Lignes(segs)[k] == EnTete(segs[k]) + "[" + segs[k].speaker.value + "] " + segs[k].texte
    ensures segs[k].speaker.None? ==> Lignes(segs)[k] == EnTete(segs[k]) + segs[k].texte
  {
    if segs[k].speaker.Some? {
      assert AUnSpeaker(segs);
    }
  }

  /** The head of a line holds no newline. */
  lemma EnTeteSansRetour(seg: TSegment)
    ensures '\n' !in EnTete(seg)
  {
    PadSansRetour(Minutes(seg.debut));
    PadSansRetour(Minutes(seg.fin));
    PadSansRetour(Seconds(seg.debut));
    PadSansRetour(Seconds(seg.fin));
  }

  /** When no text and no speaker holds a newline, splitting the prompt's
      transcript at newlines gives one line per segment, in order. */
  lemma UneLigneParSegment(segs: seq<TSegment>)
    requires |segs| >= 1
    requires forall k :: 0 <= k < |segs| ==> '\n' !in segs[k].texte
    requires forall k :: 0 <= k < |segs| && segs[k].speaker.Some? ==> '\n' !in segs[k].speaker.value
    ensures Split(Join(Lignes(segs), "\n"), '\n') == Lignes(segs)
  {
    var ls := Lignes(segs);
    forall k | 0 <= k < |ls| ensures '\n' !in ls[k] {
      EnTeteSansRetour(segs[k]);
      LigneForme(segs, k);
    }
    SplitJoin(ls, '\n');
  }

  /** A two-digit field holds digits and possibly a minus sign. */
  lemma PadSansRetour(n: int)
    ensures '\n' !in Pad02(n)
  {
    var d := NatToString(if n < 0 then -n else n);
    assert AllDigits(d);
    forall k | 0 <= k < |d| ensures d[k] != '\n' {
      assert IsDigit(d[k]);
    }
  }

  // Reading the reply.

  /** Why no suggestions come out of a reply: no JSON span (`ValueError`), a
      span `json.loads` refuses (`JSONDecodeError`), or a decoded value that
      is neither a list nor an object, which has no `.get` (`AttributeError`). */
  datatype ErreurReponse = AucunJson | JsonInvalide | SansGet

  /** `texte.split('\n')[0]`. */
  function PremiereLigne(t: string): (r: string)
    ensures '\n' !in r
    ensures |r| <= |t| && r == t[..|r|]
    ensures |r| < |t| ==> t[|r|] == '\n'
    ensures r == Split(t, '\n')[0]
  {
    var i := Find(t, '\n');
    if i == -1 then t else t[..i]
  }

  /** The reply without surrounding whitespace and, when it opens a code
      fence, without its first line and then without a closing fence. */
  function RetirerBalises(reponse: string): (r: string)
    ensures r == [] || (!IsSpace(r[0]) && !IsSpace(r[|r| - 1]))
    ensures !StartsWith(Strip(reponse), "```") ==> r == Strip(reponse)
  {
    var texte := Strip(reponse);
    if StartsWith(texte, "```") then
      var texte2 := Strip(texte[|PremiereLigne(texte)|..]);
      if EndsWith(texte2, "```") then Strip(texte2[..|texte2| - 3]) else texte2
    else texte
  }

  /** Where `texte[idx_debut:idx_fin]` is cut. */
  datatype Bornes = Bornes(debut: nat, fin: nat)

  /** `[` is taken for the span only when it comes before an existing `{`. */
  predicate EstTableau(t: string) {
    '{' in t && '[' in t[..Find(t, '{')]
  }

  /** The JSON span, or `None` where the source raises "Aucun JSON trouvé":
      from the first `{` to the last `}`, or from the first `[` to the last
      `]` when a `[` opens before the first `{`. */
  function Chercher(t: string): (r: Option<Bornes>)
    ensures r.None? <==> '{' !in t || (EstTableau(t) && ']' !in t) || (!EstTableau(t) && '}' !in t)
    ensures r.Some? && !EstTableau(t) ==>
      && r.value.debut < |t| && t[r.value.debut] == '{' && '{' !in t[..r.value.debut]
      && 0 < r.value.fin <= |t| && t[r.value.fin - 1] == '}' && '}' !in t[r.value.fin..]
    ensures r.Some? && EstTableau(t) ==>
      && r.value.debut < |t| && t[r.value.debut] == '[' && '[' !in t[..r.value.debut]
      && 0 < r.value.fin <= |t| && t[r.value.fin - 1] == ']' && ']' !in t[r.value.fin..]
  {
    var idxDebut := Find(t, '{');
    var idxFin := RFind(t, '}') + 1;
    var idxTableau := Find(t, '[');
    var tableau := idxTableau != -1 && idxTableau < idxDebut;
    assert tableau <==> EstTableau(t) by {
      if idxDebut >= 0 && '[' in t[..idxDebut] {
        var j :| 0 <= j < idxDebut && t[..idxDebut][j] == '[';
        FindFirst(t, '[', j);
      }
      if tableau {
        assert t[..idxDebut][idxTableau] == '[';
      }
    }
    var debut := if tableau then idxTableau else idxDebut;
    var fin := if tableau then RFind(t, ']') + 1 else idxFin;
    if debut == -1 || fin == 0 then None else Some(Bornes(debut, fin))
  }

  /** Python's `t[a:b]` for `0 <= a` and `b <= len(t)`: empty when `b <= a`. */
  function Tranche(t: string, b: Bornes): (r: string)
    requires b.fin <= |t|
    ensures b.debut < b.fin ==> r == t[b.debut..b.fin]
    ensures b.fin <= b.debut ==> r == ""
  {
    if b.debut < b.fin then t[b.debut..b.fin] else ""
  }

  /** The text handed to `json.loads`, when a span was found. */
  function TexteJson(reponse: string): (r: Option<string>)
    ensures r.None? <==> Chercher(RetirerBalises(reponse)).None?
  {
    var t := RetirerBalises(reponse);
    match Chercher(t)
    case None => None
    case Some(b) => Some(Tranche(t, b))
  }

  /** `_parser_reponse`: the suggestions the reply holds. A decoded list is
      returned unchanged; a decoded object gives its `suggestions` value, or
      an empty list without one. */
  function ParserReponse(reponse: string, loads: string -> Option<Json>): (r: Result<Json, ErreurReponse>)
    ensures r == Err(AucunJson) <==> TexteJson(reponse).None?
    ensures r == Err(JsonInvalide) <==> TexteJson(reponse).Some? && loads(TexteJson(reponse).value).None?
    ensures TexteJson(reponse).Some? && loads(TexteJson(reponse).value).Some? ==>
      var d := loads(TexteJson(reponse).value).value;
      && (d.JArray? ==> r == Ok(d))
      && (d.JObject? && "suggestions" in d.fields ==> r == Ok(d.fields["suggestions"]))
      && (d.JObject? && "suggestions" !in d.fields ==> r == Ok(JArray([])))
      && (!d.JArray? && !d.JObject? ==> r == Err(SansGet))
  {
    match TexteJson(reponse)
    case None => Err(AucunJson)
    case Some(texteJson) =>
      match loads(texteJson)
      case None => Err(JsonInvalide)
      case Some(donnees) =>
        if donnees.JArray? then Ok(donnees)
        else if donnees.JObject? then Ok(if "suggestions" in donnees.fields then donnees.fields["suggestions"] else JArray([]))
        else Err(SansGet)
  }

  /** A reply that holds no `{` is refused, even one that holds a `[`: a bare
      list of numbers or an empty list is "no JSON". */
  lemma SansAccoladeRefuse(reponse: string, loads: string -> Option<Json>)
    requires '{' !in reponse
    ensures ParserReponse(reponse, loads) == Err(AucunJson)
  {
    RetirerBalisesChars(reponse);
  }

  /** Cleaning only cuts the reply: it keeps characters of the reply alone. */
  lemma RetirerBalisesChars(reponse: string)
    ensures forall c :: c in RetirerBalises(reponse) ==> c in reponse
  {
    var s := Strip(reponse);
    StripChars(reponse);
    if StartsWith(s, "```") {
      var n := |PremiereLigne(s)|;
      SliceChars(s, n, |s|);
      var s2 := Strip(s[n..]);
      StripChars(s[n..]);
      if EndsWith(s2, "```") {
        SliceChars(s2, 0, |s2| - 3);
        StripChars(s2[..|s2| - 3]);
      }
    }
  }

  /** An object reply, already without whitespace at its ends, is handed to
      `json.loads` whole. */
  lemma ObjetEntier(reponse: string)
    requires |reponse| >= 2 && reponse[0] == '{' && reponse[|reponse| - 1] == '}'
    ensures TexteJson(reponse) == Some(reponse)
  {
    StripStripped(reponse);
    assert !StartsWith(reponse, "```");
    assert RetirerBalises(reponse) == reponse;
    assert !EstTableau(reponse) by { assert Find(reponse, '{') == 0; }
    var b := Chercher(reponse).value;
    assert b.debut == 0 by { assert Find(reponse, '{') == 0; }
    assert b.fin == |reponse| by { RFindLast(reponse, '}', |reponse| - 1); }
    assert reponse[0..|reponse|] == reponse;
  }

  /** A list reply that holds an object is handed to `json.loads` whole. */
  lemma TableauEntier(reponse: string)
    requires |reponse| >= 2 && reponse[0] == '[' && reponse[|reponse| - 1] == ']'
    requires '{' in reponse
    ensures TexteJson(reponse) == Some(reponse)
  {
    StripStripped(reponse);
    assert !StartsWith(reponse, "```");
    assert RetirerBalises(reponse) == reponse;
    var f := Find(reponse, '{');
    assert f > 0;
    assert EstTableau(reponse) by { assert reponse[..f][0] == '['; }
    var b := Chercher(reponse).value;
    assert b.debut == 0 by { FindFirst(reponse, '[', 0); }
    assert b.fin == |reponse| by { RFindLast(reponse, ']', |reponse| - 1); }
    assert reponse[0..|reponse|] == reponse;
  }

  /** A stripped reply that opens a fence: its fence line is `"```" + lang`,
      and after it comes `reste`. */
  lemma LigneDeBalise(lang: string, reste: string)
    requires '\n' !in lang
    requires |reste| > 0 && reste[0] == '\n' && reste[|reste| - 1] == '`'
    ensures var t := "```" + lang + reste;
      && Stripped(t) && StartsWith(t, "```")
      && |PremiereLigne(t)| == |lang| + 3 && t[|lang| + 3..] == reste
  {
    var t := "```" + lang + reste;
    var n := |"```" + lang|;
    assert t[n] == '\n';
    assert t[..n] == "```" + lang;
    FindExact(t, '\n', n);
    assert t[..3] == "```";
  }

  /** What follows the fence line strips to the body and the closing fence. */
  lemma ApresBalise(corps: string, queue: string)
    requires corps != [] && Stripped(corps)
    requires |queue| > 0 && !IsSpace(queue[|queue| - 1])
    ensures Strip("\n" + corps + queue) == corps + queue
  {
    var reste := "\n" + corps + queue;
    assert reste[0] == '\n' && reste[1..] == corps + queue;
    StripAfterLeadingSpaces(reste, 1);
    var s := corps + queue;
    assert s[0] == corps[0] && s[|s| - 1] == queue[|queue| - 1];
    StripStripped(s);
  }

  /** A newline after a stripped body is stripped away. */
  lemma RetourFinal(corps: string)
    requires Stripped(corps)
    ensures Strip(corps + "\n") == corps
  {
    var coupe := corps + "\n";
    if corps == [] {
      assert SkipSpaces(coupe, 0) == 1;
    } else {
      assert SkipSpaces(coupe, 0) == 0;
      assert TrimLeft(coupe) == coupe;
      assert coupe[..|coupe| - 1] == corps;
      assert TrimRight(coupe) == TrimRight(corps);
    }
  }

  /** The cleaning of a stripped reply that opens a fence. */
  lemma RetirerBalisesOuvert(t: string, n: nat, t2: string)
    requires Stripped(t) && StartsWith(t, "```")
    requires n == |PremiereLigne(t)| && t2 == Strip(t[n..])
    ensures RetirerBalises(t) == if EndsWith(t2, "```") then Strip(t2[..|t2| - 3]) else t2
  {
    StripStripped(t);
  }

  /** An empty fenced body: only the closing fence is left, and then nothing. */
  lemma FermetureVide(corps: string, t2: string)
    requires corps == []
    requires t2 == Strip("\n" + corps + "\n```")
    ensures EndsWith(t2, "```") && Strip(t2[..|t2| - 3]) == corps
  {
    var reste := "\n" + corps + "\n```";
    var fence := "```";
    assert reste == "\n\n" + fence;
    assert IsSpace(reste[0]) && IsSpace(reste[1]);
    StripAfterLeadingSpaces(reste, 2);
    assert reste[2..] == fence;
    assert Stripped(fence);
    StripStripped(fence);
    assert t2 == fence;
    assert |t2| - 3 == 0;
    assert t2[..0] == [];
    assert Strip([]) == [];
  }

  /** A non-empty body: the closing fence goes, then the newline before it. */
  lemma FermetureNonVide(corps: string, t2: string)
    requires corps != [] && Stripped(corps)
    requires t2 == Strip("\n" + corps + "\n```")
    ensures EndsWith(t2, "```") && Strip(t2[..|t2| - 3]) == corps
  {
    ApresBalise(corps, "\n```");
    assert t2[..|t2| - 3] == corps + "\n";
    RetourFinal(corps);
  }

  /** The closing fence is cut and what is left stripped. */
  lemma FermetureRetiree(corps: string, t2: string)
    requires Stripped(corps)
    requires t2 == Strip("\n" + corps + "\n```")
    ensures EndsWith(t2, "```") && Strip(t2[..|t2| - 3]) == corps
  {
    if corps == [] {
      FermetureVide(corps, t2);
    } else {
      FermetureNonVide(corps, t2);
    }
  }

  /** A reply in a code fence, `lang` on the fence line and `corps` without
      whitespace at its ends, is read as `corps` alone. */
  lemma BaliseRetiree(lang: string, corps: string)
    requires '\n' !in lang
    requires Stripped(corps)
    ensures RetirerBalises("```" + lang + "\n" + corps + "\n```") == corps
  {
    var reste := "\n" + corps + "\n```";
    assert "```" + lang + "\n" + corps + "\n```" == "```" + lang + reste;
    LigneDeBalise(lang, reste);
    var t2 := Strip(reste);
    RetirerBalisesOuvert("```" + lang + reste, |lang| + 3, t2);
    FermetureRetiree(corps, t2);
  }
}
