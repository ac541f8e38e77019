/** The transcript produced from the speech model's result, and the
    `[MM:SS - MM:SS] text` file written next to it. The model itself, its
    loading and the writes to disk are outside the model: the speech model's
    result is an input, and the writer returns the file contents. */
module Transcriber {
  import opened Common
  import opened Text
  import opened TimeFormat

  /** One segment of the speech model's result (`start`, `end`, `text`). */
  datatype ModelSegment = ModelSegment(start: real, end: real, text: string)

  /** The speech model's result (`text`, `language`, `segments`). */
  datatype ModelResult = ModelResult(text: string, language: string, segments: seq<ModelSegment>)

  /** A transcript segment: `debut`, `fin`, `texte`, and the optional `speaker` key. */
  datatype TSegment = TSegment(debut: real, fin: real, texte: string, speaker: Option<string>)

  /** A transcription: `texte`, `langue`, `segments`. */
  datatype Transcription = Transcription(texte: string, langue: string, segments: seq<TSegment>)

  /** How `transcrire` turns one model segment into a transcript segment. */
  function FromModel(m: ModelSegment): TSegment {
    TSegment(m.start, m.end, Strip(m.text), None)
  }

  /** `transcrire` after the model call: the text and language are copied and
      every model segment becomes one transcript segment, in the same order. */
  method Transcrire(r: ModelResult) returns (t: Transcription)
    ensures t.texte == r.text && t.langue == r.language
    ensures |t.segments| == |r.segments|
    ensures forall i :: 0 <= i < |r.segments| ==>
      t.segments[i].debut == r.segments[i].start && t.segments[i].fin == r.segments[i].end &&
      t.segments[i].texte == Strip(r.segments[i].text) && t.segments[i].speaker.None?
  {
    var segments: seq<TSegment> := [];
    var i := 0;
    while i < |r.segments|
      invariant 0 <= i <= |r.segments|
      invariant |segments| == i
      invariant forall k :: 0 <= k < i ==> segments[k] == FromModel(r.segments[k])
    {
      segments := segments + [FromModel(r.segments[i])];
      i := i + 1;
    }
    t := Transcription(r.text, r.language, segments);
  }

  /** The line written for one segment. */
  function TimestampLine(s: TSegment): string {
    "[" + FormaterTemps(s.debut) + " - " + FormaterTemps(s.fin) + "] " + s.texte + "\n"
  }

  /** The whole `_timestamps.txt` file: one line per segment, in order. */
  function TimestampFile(segs: seq<TSegment>): string
    decreases |segs|
  {
    if |segs| == 0 then "" else TimestampLine(segs[0]) + TimestampFile(segs[1..])
  }

  lemma {:induction false} TimestampFileAppend(segs: seq<TSegment>, s: TSegment)
    ensures TimestampFile(segs + [s]) == TimestampFile(segs) + TimestampLine(s)
    decreases |segs|
  {
    if |segs| == 0 {
      assert segs + [s] == [s];
      assert TimestampFile([s]) == TimestampLine(s) + TimestampFile([]);
    } else {
      assert (segs + [s])[1..] == segs[1..] + [s];
      TimestampFileAppend(segs[1..], s);
    }
  }

  /** The file for a prefix one segment longer gains that segment's line. */
  lemma TimestampFilePrefix(segs: seq<TSegment>, i: nat)
    requires i < |segs|
    ensures TimestampFile(segs[..i + 1]) == TimestampFile(segs[..i]) + TimestampLine(segs[i])
  {
    assert segs[..i + 1] == segs[..i] + [segs[i]];
    TimestampFileAppend(segs[..i], segs[i]);
  }

  /** `_sauvegarder_transcription`: the plain-text file holds the transcription's
      text, and the timestamp file holds one `[MM:SS - MM:SS] text` line per
      segment, in order. Both are returned instead of written. */
  method SauvegarderTranscription(t: Transcription) returns (texteFile: string, timestampsFile: string)
    ensures texteFile == t.texte
    ensures timestampsFile == TimestampFile(t.segments)
  {
    texteFile := t.texte;
    timestampsFile := "";
    var segs := t.segments;
    var i := 0;
    while i < |segs|
      invariant 0 <= i <= |segs|
      invariant timestampsFile == TimestampFile(segs[..i])
    {
      TimestampFilePrefix(segs, i);
      timestampsFile := timestampsFile + TimestampLine(segs[i]);
      i := i + 1;
    }
    assert segs[..i] == segs;
  }

  /** A file written from texts without `'\r'` has none: the text-mode read
      gives it back unchanged. */
  lemma {:induction false} TimestampFileSansRetour(segs: seq<TSegment>)
    requires forall i :: 0 <= i < |segs| ==> SansRetour(segs[i].texte)
    ensures SansRetour(TimestampFile(segs))
    ensures LireTexte(TimestampFile(segs)) == TimestampFile(segs)
    decreases |segs|
  {
    if |segs| > 0 {
      TimestampFileSansRetour(segs[1..]);
      LineSansRetour(segs[0]);
      SansRetourConcat(TimestampLine(segs[0]), TimestampFile(segs[1..]));
    }
    LireTexteSansRetour(TimestampFile(segs));
  }

  /** The line written for a text without `'\r'` has none. */
  lemma LineSansRetour(seg: TSegment)
    requires SansRetour(seg.texte)
    ensures SansRetour(TimestampLine(seg))
  {
    var a := FormaterTemps(seg.debut);
    var b := FormaterTemps(seg.fin);
    FormaterTempsClockChars(seg.debut);
    FormaterTempsClockChars(seg.fin);
    SansRetourConcat("[", a);
    SansRetourConcat("[" + a, " - ");
    SansRetourConcat("[" + a + " - ", b);
    SansRetourConcat("[" + a + " - " + b, "] ");
    SansRetourConcat("[" + a + " - " + b + "] ", seg.texte);
    SansRetourConcat("[" + a + " - " + b + "] " + seg.texte, "\n");
  }
}
