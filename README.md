# Podcasteur segment montage, in Dafny

Podcasteur cuts a podcast out of raw recordings. Its core is the segment
montage:

- **Transcripts.** Speech is transcribed into timed segments, written as
  `[MM:SS - MM:SS] text` lines, and read back from that form.
- **AI suggestions.** The transcript is formatted for an AI prompt. The reply
  is parsed into suggested cuttings.
- **Découpages.** A découpage is a cutting plan. Its segments are validated
  against the source files, with a tolerance for an end that overruns the
  file. They are then extracted and assembled into one timeline, with fades
  and silences between the clips.
- **Editing and import.** In the GUI, a suggestion's segments can be edited,
  or a cutting plan imported from a JSON file.

This project models that core and proves what it promises.

## Modules

The modules follow the program's files:

- `Common`, `Text` and `Sorting` hold the pieces of Python these files use:
  - the decoded JSON value;
  - `in`, `[]` and `.get`;
  - `strip`, `find`, `rfind`, `split`, `join` and `replace`;
  - `sorted` as a stable insertion sort, with string, path and key orders.
- `TimeFormat` is the `_formater_temps` clock. The same static method is
  copied into five files; they are identical, so it is defined once.
- `Transcriber` covers `transcrire` and `_sauvegarder_transcription`.
- `TranscriptReader` covers the regular-expression reader
  `PodcastEditor._charger_transcription`, and proves that writing a
  transcript and reading it back round-trips.
- `FileNames` covers `_nettoyer_nom_fichier`.
- `Decoupage` covers structure validation, `valider_avec_fichiers` with its
  tolerance clamp and duration cache, `convertir_en_segments` with its audio
  cache, and `creer_exemple`.
- `Audio` models audio as one value per millisecond, with slicing, silence
  and assembly.
- `AudioProcessor` covers `_trier_fichiers`, `concatener_fichiers` and
  `creer_montage`.
- `Editor` covers `_monter_depuis_segments`, that is the timeline records,
  the assembly and the export parameters, together with its parameter
  overrides.
- `AIAnalyzer` covers the settings defaults, the duration statistic, the
  prompt transcript and `_parser_reponse`.
- `SegmentEditor` is the segment editor dialog: a class whose methods change
  its list of segments in place.
- `SuggestionDialog` covers `_importer_json` and the copy made by
  `_valider_selection`.

## Inputs the model takes as parameters

The outside world enters as parameters:

- **Speech model.** Its result is an input.
- **`json.loads`.** A function from text to an optional value.
- **Files.** The files a découpage names are a map from name to
  "missing", "unreadable" or the file's audio.
- **Audio library.** Fades and `normalize` are functions that keep the
  length.
- **Clock and creation dates.** The export's time stamp is a string
  argument. Files' creation dates form a function `ctime`.
- **Python's dictionary order.** Iterating a JSON object visits its keys in
  the order a `cles` function gives.
- **Unicode's alphanumeric table.** It is used above U+00FF.
- **GUI input.** The Qt selection and the answers to dialogs (the current
  row, "confirmed", the values typed in) are arguments of the editor's
  methods.

Python exceptions become `Result` or `Option` values. The model keeps the
exception's kind, not its message.

Where the code and the documentation disagree, the model follows the code:

- **Bare-list import.** `_importer_json` is documented to accept a bare list
  of segments, but the code fails on one. See Findings.
- **Fence and brackets.** `_parser_reponse` removes a closing fence only when
  the reply opens with one. It takes `[` as the start of the span only when a
  `[` comes before an existing `{`. A reply with a `[` but no `{` is therefore
  "no JSON" (`AIAnalyzer.SansAccoladeRefuse`).
- **Regular expression.** The `_charger_transcription` pattern is modelled
  with its greedy `\s*`, and with `\d` as the ASCII digits. A segment whose
  text is blank swallows the next written line
  (`TranscriptReader.BlankTextTakesNextLine`). The file is read in text
  mode, so a `'\r'` in a text comes back as a line end (`Text.LireTexte`).
  The round trip therefore holds for one-line texts without `'\r'` that have
  something visible on them.
- **Clamp before the start.** The tolerance clamp compares only `fin` with
  the file's length. A segment that starts after the end of its file but
  ends within the tolerance of it is clamped to end before it starts, with
  no warning, and `convertir_en_segments` then cuts an empty clip
  (`Decoupage.ClampAvantDebut`). The model keeps this behaviour.
- **Metadata.** The metadata written after a montage report the
  configuration's fade and silence. They do not report the découpage's
  overrides that were used (src/editor.py:404-410).

## Model

| member | source | states |
|---|---|---|
| TimeFormat.Seconds | src/transcriber.py:113 | the seconds field of the clock lies in 0..59 |
| TimeFormat.MinutesSecondsFloor | src/transcriber.py:109-114 | minutes * 60 + seconds is the floor of the input, for every real, negative ones included |
| TimeFormat.FormaterTempsReadsBack | src/editor.py:463-468 | below 6000 s the text is a `DD:DD` clock, and reading it as `MM*60+SS` gives the floor of the input |
| TimeFormat.FormaterTempsWidensAt100Minutes | src/ai_analyzer.py:214-219 | from 6000 s on the zero-padded minutes take three or more digits, so the text is longer than a clock |
| Transcriber.Transcrire | src/transcriber.py:62-74 | text and language copied; one segment per model segment, in order, with `debut = start`, `fin = end`, the text stripped and no speaker |
| Transcriber.SauvegarderTranscription | src/transcriber.py:90-103 | the text file holds the transcription's text; the timestamp file is one `[MM:SS - MM:SS] text` line per segment, in order |
| Transcriber.TimestampFileAppend | src/transcriber.py:100-103 | one more segment appends exactly its own line to the timestamp file |
| TranscriptReader.Matches | src/editor.py:439-441 | every match of `finditer` holds two `DD:DD` clocks |
| TranscriptReader.Search | src/editor.py:439-441 | the match found lies inside the text and holds two clocks |
| TranscriptReader.SearchFinds | src/editor.py:439-441 | the match `re.search` reports is a match of the pattern at its offset |
| TranscriptReader.SearchLeftmost | src/editor.py:439-441 | no match starts before the reported one, and none at all when there is none |
| TranscriptReader.MatchesNeedBrackets | src/editor.py:436 | a text with any match contains both `[` and `]`, so the guard in front of the search changes nothing |
| TranscriptReader.ChargerTranscription | src/editor.py:418-461 | the file is read in text mode; the read text is kept, the language is `fr`, and the segments are those the matches in the read text give |
| Text.LireTexte | src/editor.py:428-429 | the text-mode read leaves no `'\r'`, and is no longer than the file |
| Text.LireTexteSansRetour | src/editor.py:428-429 | a file without `'\r'` is read back exactly as written |
| Text.RetourChariotCoupe | src/editor.py:428-429 | a `'\r'` (with a `'\n'` right after it, if any) is read as one `'\n'`, so a text holding `'\r'` does not come back as written |
| Transcriber.TimestampFileSansRetour | src/transcriber.py:99-103 | a timestamp file written from texts without `'\r'` has none, so the text-mode read gives it back unchanged |
| TranscriptReader.TimestampFileRoundTrip | src/transcriber.py:100-103 | writing a timestamp file, reading it in text mode and parsing it (times below 100 minutes, one-line texts without `'\r'` and with something visible) gives every segment, in order, with whole-second times and stripped text |
| TranscriptReader.MatchesOfFile | src/editor.py:439-441 | a written file's matches are exactly one per written line, in order |
| TranscriptReader.LineOfRereads | src/editor.py:444-455 | converting a written line's match gives the segment back in whole seconds, with stripped text |
| TranscriptReader.BlankTextTakesNextLine | src/editor.py:438-441 | after a head `[a - b] ` of two clocks and a blank text, a following line that opens with a visible character becomes that match's text, line end excluded, and is not read as a segment; matching goes on after it |
| TranscriptReader.WrittenLineChars | src/transcriber.py:100-103 | a written line (times below 100 minutes, no line end in the text) opens with `[`, has at least 17 characters and its only line end is its last character, so it is such a following line |
| FileNames.Filtrer | src/editor.py:474 | only word characters, whitespace and `-` are kept; a name made only of those is unchanged |
| FileNames.FiltrerConcat | src/editor.py:474 | filtering distributes over concatenation, so the kept characters stay in their order |
| FileNames.FiltrerUn | src/editor.py:474 | one character is kept exactly when it is a word character, whitespace or `-`, and dropped otherwise |
| FileNames.Remplacer | src/editor.py:475 | no separator is left, every character is `_` or one of the input's, and an input without separators is unchanged |
| FileNames.RemplacerConcat | src/editor.py:475 | replacing distributes over a concatenation that does not split a run of separators |
| FileNames.RemplacerRun | src/editor.py:475 | a non-empty run of whitespace and `-` becomes exactly one `_` |
| FileNames.RemplacerMot | src/editor.py:475 | a character that is not a separator is kept as it is |
| FileNames.NettoyerForme | src/editor.py:471-476 | the cleaned name is the first 50 characters (or all of them) of the filtered, replaced and lower-cased name; every character is a word character already in lower case, with no whitespace and no `-` |
| FileNames.NettoyerIdempotent | src/editor.py:471-476 | cleaning a cleaned name gives it back |
| Decoupage.ChampsPresents | src/decoupage.py:65-71 | the field check passes iff every required field is present; a failure names a missing field, with the 1-based index |
| Decoupage.AtLeast | src/decoupage.py:74 | `>=` compares numbers (booleans as 0 and 1) by value and strings by code points; any other pair is a type error |
| Decoupage.ValiderSegment | src/decoupage.py:63-84 | passes iff the segment is valid; a missing field is reported, then `debut >= fin`, then a negative time, with the 1-based index; times that are not two numbers or two strings are a type error |
| Decoupage.ValiderSegments | src/decoupage.py:60-61 | passes iff every segment from the given one on is valid |
| Decoupage.ValiderSegmentsPremier | src/decoupage.py:60-61 | the error raised is that of the first invalid segment |
| Decoupage.ValiderStructure | src/decoupage.py:48-61 | passes iff the découpage is valid; no `segments` key, not a list and an empty list each give their own error |
| Decoupage.ExempleValide | src/decoupage.py:205-247 | the example découpage, with or without comments, passes the structure check |
| Decoupage.SpecOf | src/decoupage.py:113 | a valid segment's later view exists iff its file name is a string, and keeps its times with `0 <= debut < fin` |
| Decoupage.Verifier | src/decoupage.py:116-147 | missing or unreadable file: a warning, segment unchanged; `fin` over by more than the tolerance: a warning, unchanged; over by no more: `fin` clamped to the length, no warning; not over: nothing |
| Decoupage.ClampAvantDebut | src/decoupage.py:137-147 | a segment starting after its file's end and ending within the tolerance of it is clamped without a warning to end before it starts, and its prepared clip is empty |
| Decoupage.ClampAvantDebutExemple | src/decoupage.py:137-147 | 100.2 s to 100.4 s in a 100 s file with tolerance 0.5: no warning, `fin` becomes 100.0, the clip is empty |
| Decoupage.DureesKeys | src/decoupage.py:124-127 | the length cache holds exactly the files met so far that decode |
| Decoupage.DecodesCache | src/decoupage.py:124-128 | every file decoded exists, and a file that decodes is decoded at most once |
| Decoupage.DecodesNoms | src/decoupage.py:112-128 | a file that decodes is decoded exactly when some segment names it |
| Decoupage.PasSansCache | src/decoupage.py:112-147 | one pass with the cache gives what checking the segment on its own gives |
| Decoupage.ApresSansCache | src/decoupage.py:112-147 | the whole loop with its cache gives the same warnings and segments as checking each segment on its own |
| Decoupage.ValiderAvecFichiers | src/decoupage.py:86-154 | with `verifier_timestamps` off nothing is checked or changed; otherwise the warnings in order, every segment replaced in place by its checked value (tolerance 0.5 by default), and each decoding file decoded once |
| Decoupage.PreparerTousAt | src/decoupage.py:176-198 | record k is segment k's slice at `int(debut*1000)` and `int(fin*1000)`, with description `Segment k+1` by default |
| Decoupage.Charger | src/decoupage.py:181-185 | the file is loaded only when it is not cached, and the cache gains just that file |
| Decoupage.ConvertirEnSegments | src/decoupage.py:156-202 | one record per segment, in order; fails exactly when some file does not load; each file is loaded once, and every file named is loaded |
| Audio.Trunc | src/audio_processor.py:115-116 | `int()` truncates toward zero |
| Audio.Silent | src/audio_processor.py:130 | a silence of `int(d)` zero samples |
| Audio.Slice | src/audio_processor.py:118 | `audio[lo:hi]`: the subsequence for bounds inside the audio, and empty when the bounds cross |
| Audio.AssembleLength | src/audio_processor.py:132-134 | the assembly lasts the clips' lengths plus `n-1` silences |
| Audio.AssemblePlacesClip | src/audio_processor.py:132-134 | clip k is found unchanged at its offset |
| Audio.AssemblePlacesSilence | src/audio_processor.py:132-134 | the silence sits between clip k and clip k+1 |
| AudioProcessor.ParamsPour | src/audio_processor.py:147-150 | the format always; the bitrate and `-q:a 2` exactly for mp3 |
| AudioProcessor.TrierFichiers | src/audio_processor.py:67-85 | a permutation of the input, sorted by name or by date, descending exactly when `ordre == "desc"`; any other method is refused |
| AudioProcessor.Combiner | src/audio_processor.py:50-58 | succeeds iff every file opens, giving the files' audio concatenated in order; otherwise fails on a file that does not open |
| AudioProcessor.ConcatenerFichiers | src/audio_processor.py:26-65 | an unknown sort method is refused, an empty list fails, and otherwise the sorted files are concatenated exactly when all open |
| AudioProcessor.ConcatenerLongueur | src/audio_processor.py:55-58 | the concatenation lasts as long as the files together |
| AudioProcessor.ExtraitLongueur | src/audio_processor.py:115-122 | an extract is as long as its slice from `int(debut*1000)` to `int(fin*1000)`, whatever the fades do |
| AudioProcessor.Extraire | src/audio_processor.py:113-124 | one extract per segment, in order, each sliced and then faded in and out |
| AudioProcessor.Assembler | src/audio_processor.py:132-134 | the loop gives the first extract, then a silence and an extract for each later one |
| AudioProcessor.CreerMontage | src/audio_processor.py:87-160 | no segment fails at `extraits[0]`; otherwise the joined extracts, normalised exactly when configured, with the format's export parameters |
| AudioProcessor.MontageLongueur | src/audio_processor.py:129-134 | the montage lasts as long as its extracts plus `n-1` silences, whatever the fades and normalisation do |
| AudioProcessor.MontagePlaceExtrait | src/audio_processor.py:132-134 | extract k sits unchanged in the joined audio at its offset |
| Editor.Brut | src/editor.py:300-308 | a découpage that is not an object, or whose `parametres` is not one, cannot be read; otherwise the `parametres` entry or the configuration's value |
| Editor.Parametre | src/editor.py:300-308 | the découpage's `parametres` value overrides the configuration's; a découpage or `parametres` that is not an object fails |
| Editor.Enregistrer | src/editor.py:321-330 | a record holds the 1-based index, its start at the cursor, `fin_output = debut_output + duree`, and the source times |
| Editor.RelevesChronologie | src/editor.py:314-333 | records start at 0, end their duration later, the next starts one silence after, and the cursor is one silence past the last |
| Editor.RelevesDecrit | src/editor.py:316-330 | the records describe the faded clips, with `Segment i` and `unknown` as defaults |
| Editor.AppliquerFondus | src/editor.py:316-335 | every clip faded in place, and its record taken at the cursor |
| Editor.Monter | src/editor.py:338-383 | no clip fails at `segments[0]`; otherwise the faded clips joined by the silence, normalised when configured, exported as `podcast_final_<time>.<format>`, and the metadata with the total length in seconds and in minutes |
| Editor.MonterDepuisSegments | src/editor.py:275-385 | an unreadable découpage fails before any clip changes; with no clip, a non-numeric silence fails at `silent` and otherwise `segments[0]` fails; with clips, a non-numeric fade fails before any clip changes, and a non-numeric silence fails after the first clip has been faded in place; otherwise the montage with the fade and silence from `parametres` or the configuration |
| Editor.ChronologieOrdonnee | src/editor.py:326-333 | with a non-negative silence the records run in order and never overlap |
| Editor.ChronologieCalee | src/editor.py:326-344 | a record's times in ms are where its clip lies in the assembled audio |
| Editor.SilenceEntiere | src/editor.py:338 | a whole number of ms of silence is exactly that many samples |
| AIAnalyzer.ResoudreStable | src/ai_analyzer.py:45-47 | no argument keeps the configuration, and resolving the resolved settings again changes nothing |
| AIAnalyzer.ResoudreArgumentGagne | src/ai_analyzer.py:45-47 | arguments that are given and true all override the configuration |
| AIAnalyzer.DureeTotaleMajore | src/ai_analyzer.py:93 | when segments end in order, the statistic is the latest end of all |
| AIAnalyzer.FormaterTranscriptionPourPrompt | src/ai_analyzer.py:150-168 | the lines, one per segment in order, joined with newlines |
| AIAnalyzer.LigneForme | src/ai_analyzer.py:155-166 | a line carries the `[speaker]` tag iff its segment has a speaker |
| AIAnalyzer.EnTeteHorloges | src/ai_analyzer.py:158-166 | a line opens with `[debut - fin] `, 16 characters whose clocks read back as the whole seconds below 100 minutes |
| AIAnalyzer.UneLigneParSegment | src/ai_analyzer.py:157-168 | when no text or speaker holds a newline, splitting the prompt transcript at newlines gives back one line per segment |
| AIAnalyzer.PremiereLigne | src/ai_analyzer.py:179 | the first line: a newline-free prefix ending at the first newline, equal to `split('\n')[0]` |
| AIAnalyzer.RetirerBalises | src/ai_analyzer.py:174-184 | the result has no whitespace at either end; without an opening fence it is the stripped reply |
| AIAnalyzer.BaliseRetiree | src/ai_analyzer.py:174-184 | a reply fenced as "```lang", newline, body, newline, "```" gives back the stripped body |
| AIAnalyzer.RetirerBalisesChars | src/ai_analyzer.py:174-184 | cleaning only cuts: every character left is one of the reply's |
| AIAnalyzer.Chercher | src/ai_analyzer.py:187-197 | no span iff there is no `{`, or the needed closing bracket is missing; otherwise first `{` to last `}`, or first `[` to last `]` when a `[` comes before the first `{` |
| AIAnalyzer.TexteJson | src/ai_analyzer.py:186-199 | there is a text for `json.loads` iff a span was found |
| AIAnalyzer.ParserReponse | src/ai_analyzer.py:170-212 | "no JSON" iff no span; a decode error iff `loads` refuses; a list is returned unchanged, an object gives `suggestions` or `[]` |
| AIAnalyzer.SansAccoladeRefuse | src/ai_analyzer.py:187-197 | a reply without `{` is "no JSON", even when it holds a `[` |
| AIAnalyzer.ObjetEntier | src/ai_analyzer.py:187-199 | an object reply is handed to `json.loads` whole |
| AIAnalyzer.TableauEntier | src/ai_analyzer.py:190-199 | a list reply holding an object is handed to `json.loads` whole |
| SegmentEditor.Editeur.constructor | src/gui/dialogs/segment_editor_dialog.py:19-22 | the editor starts from a copy of the suggestion's segments |
| SegmentEditor.Editeur.Ajouter | src/gui/dialogs/segment_editor_dialog.py:195-261 | a confirmed entry with `debut < fin` (as `minute*60+second`) appends exactly one segment at the end; anything else leaves the list unchanged |
| SegmentEditor.Editeur.Modifier | src/gui/dialogs/segment_editor_dialog.py:263-339 | no selection, no description (a `KeyError`), a cancel or `debut >= fin` leave the list unchanged; otherwise only row r is replaced |
| SegmentEditor.Editeur.Supprimer | src/gui/dialogs/segment_editor_dialog.py:341-357 | a confirmed delete removes exactly row r; otherwise the list is unchanged |
| SegmentEditor.Editeur.Monter | src/gui/dialogs/segment_editor_dialog.py:359-370 | a no-op at row <= 0; otherwise rows r-1 and r swap, nothing else changes, and row r-1 is selected |
| SegmentEditor.Editeur.Descendre | src/gui/dialogs/segment_editor_dialog.py:372-383 | a no-op when r < 0 or r is the last row; otherwise rows r and r+1 swap, nothing else changes, and row r+1 is selected |
| SegmentEditor.Editeur.Reinitialiser | src/gui/dialogs/segment_editor_dialog.py:385-395 | a confirmed reset brings back the suggestion's segments |
| SegmentEditor.Editeur.Valider | src/gui/dialogs/segment_editor_dialog.py:397-417 | an empty list is refused; accepted without overlap after sorting by `debut`; with an overlap, accepted only if the user continues |
| SegmentEditor.EchangeEffet | src/gui/dialogs/segment_editor_dialog.py:366-367 | a swap exchanges the two rows, leaves every other row, and keeps the same segments |
| SegmentEditor.DureeAjout | src/gui/dialogs/segment_editor_dialog.py:419-426 | appending a segment adds its length to the displayed total |
| SegmentEditor.DureeSuppression | src/gui/dialogs/segment_editor_dialog.py:419-426 | deleting a row takes its length off the total |
| SegmentEditor.DureeEchange | src/gui/dialogs/segment_editor_dialog.py:419-426 | moving a row up or down keeps the total |
| SegmentEditor.DureeConcat | src/gui/dialogs/segment_editor_dialog.py:421 | the total of two lists one after the other is the sum of their totals |
| SegmentEditor.SansChevauchementDisjoints | src/gui/dialogs/segment_editor_dialog.py:405-407 | sorted segments passing the overlap check are pairwise apart; touching ones pass |
| SegmentEditor.TriesPermutation | src/gui/dialogs/segment_editor_dialog.py:405 | the sorted copy has the same segments, ordered by `debut` |
| SuggestionDialog.Elements | src/gui/dialogs/suggestion_dialog.py:376 | iterating a list gives its items; a number, boolean or null cannot be iterated |
| SuggestionDialog.Detecter | src/gui/dialogs/suggestion_dialog.py:365-372 | an object's `segments` value, or a bare list; an object without `segments` is "Format JSON non reconnu" |
| SuggestionDialog.NormaliserSegment | src/gui/dialogs/suggestion_dialog.py:380-403 | the `_source` keys win; defaults `mix_complet.wav` and `Segment {i+1}`; neither pair is an error with the 1-based index; a marker is dropped whatever its times; for numeric times `debut >= fin`, then a negative time, is an error with the 1-based index, and `0 <= debut < fin` keeps the segment; a kept segment is no marker and has numeric times with `0 <= debut < fin` |
| SuggestionDialog.NormalisesAcceptes | src/gui/dialogs/suggestion_dialog.py:380-403 | when every segment passes the checks, the loop keeps exactly the non-marker segments, in order, normalised |
| SuggestionDialog.ImportAccepte | src/gui/dialogs/suggestion_dialog.py:342-418 | a document whose segments all pass the checks, not all markers, is imported with exactly its non-marker segments |
| SuggestionDialog.ImporterJson | src/gui/dialogs/suggestion_dialog.py:342-418 | the loop gives the import with the title corrected: the first error, no kept segment refused, or the suggestion |
| SuggestionDialog.NormalisesErreur | src/gui/dialogs/suggestion_dialog.py:376-403 | an error in one segment is the error of the whole loop |
| SuggestionDialog.NormalisesValides | src/gui/dialogs/suggestion_dialog.py:396-403 | every kept segment has numeric times with `0 <= debut < fin` and is not `[INTRO]`/`[OUTRO]` |
| SuggestionDialog.NormalisesPremiereErreur | src/gui/dialogs/suggestion_dialog.py:376-403 | a failing loop failed on one segment, every segment before it having been kept or dropped |
| SuggestionDialog.ImportResultat | src/gui/dialogs/suggestion_dialog.py:405-418 | an import that succeeds has at least one segment, all valid, the comment names the file, and the estimate is the rounded minutes |
| SuggestionDialog.DureePositive | src/gui/dialogs/suggestion_dialog.py:417 | the total of valid segments is positive when there is one |
| SuggestionDialog.Arrondi1 | src/gui/dialogs/suggestion_dialog.py:418 | `round(x, 1)`: a whole number of tenths within 0.05 of `x` |
| SuggestionDialog.TitreTelQuel | src/gui/dialogs/suggestion_dialog.py:410 | as written, a bare list has no title (`data.get` raises) |
| SuggestionDialog.ListeNueTelQuel | src/gui/dialogs/suggestion_dialog.py:368-410 | as written, a bare list that passes every check still fails, at the title |
| SuggestionDialog.ListeNueImportee | src/gui/dialogs/suggestion_dialog.py:368-418 | corrected, such a list is imported under the default title, with its kept segments |
| SuggestionDialog.ListeNueExemple | src/gui/dialogs/suggestion_dialog.py:368-410 | `[{"debut": 0, "fin": 10}]` fails as written and imports when corrected |
| SuggestionDialog.CopieSegment | src/gui/dialogs/suggestion_dialog.py:186-189 | an object is copied with `fichier` set to `mix_complet.wav` when absent and kept otherwise; a list is copied as it is iff it holds the string `fichier`, since otherwise the item assignment raises; anything else raises |
| SuggestionDialog.CopiesFidele | src/gui/dialogs/suggestion_dialog.py:185-190 | one copy per segment, in order, each object keeping every key and value and having a `fichier`, each list kept as it is |
| SuggestionDialog.CopiesTotales | src/gui/dialogs/suggestion_dialog.py:185-190 | the copy succeeds iff every segment is an object or a list holding `fichier` |
| SuggestionDialog.ValiderSelection | src/gui/dialogs/suggestion_dialog.py:170-190 | no selection gives nothing; a missing key or a segment that cannot be copied fails; otherwise the copy with title, comment, estimate and copied segments |

## Left out

- Qt: widgets, dialogs, message boxes and the worker threads. The operations
  take the current row and the user's answers as arguments.
  `SegmentEditor.Editeur`'s methods require the row to be -1 or a row of the
  table, which is what Qt's `currentRow` gives.
- The speech model, the Anthropic API and `json.loads`. The model's result
  and `loads` are parameters. Prompt templating is left out. So is the
  `JSONDecodeError` raised when an imported file is read.
- pydub decoding, fades, `normalize` and `export`. They are functions that
  keep the length, and the export is described by its parameters. The
  failures of a fade for some numbers are left out too: pydub raises for a
  negative duration, and for `0` or `False`. The model lets every number
  through to the fade.
- The file system and the clock: existence, `stat`, `mkdir`, writes, the
  time stamp in file names and `getctime`. These are inputs.
- Floating point. Times are exact reals, so `round`, `:.1f` and the
  accumulation of float sums are exact here.
  - SuggestionDialog.Arrondi1: rounds the exact value to a tenth, with ties to
    even. Python rounds the binary float, so it can differ on ties.
- FileNames.IsAlnum and FileNames.Minuscule: they are exact for Latin-1
  only. Above U+00FF the alphanumeric test is a parameter, and lower-casing
  keeps the character.
- TranscriptReader.Matches: `\d` is the ASCII digits only. Python's `\d`
  also matches every other Unicode decimal digit, such as `٠١:٠٠`. The round
  trip is not affected, since written clocks are ASCII.
- TranscriptReader.ChargerTranscription: a clock is read as ASCII digits,
  so lines with other Unicode decimal digits, which Python would match and
  `int()` would read, give no segment here.
- Decoupage.ValiderAvecFichiers and Decoupage.ConvertirEnSegments: they
  take segments whose `fichier` is a string (`Decoupage.SpecOf`). The
  structure check only asks that `fichier` be present, so a segment such as
  `{"fichier": 5, "debut": 0, "fin": 1}` passes it. Both operations then
  raise `TypeError` at `dossier_source / nom_fichier` (src/decoupage.py:116
  and 178). Validation would raise after clamping the earlier segments in
  place. The model does not cover these runs.
- Decoupage.AtLeast: two lists are a type error here. Python compares lists
  item by item, so `[1] >= [0]` holds.
- Decoupage.ValiderSegment: through `AtLeast`, the segment
  `{"fichier": "a.wav", "debut": [1], "fin": [0]}` is a type error here,
  where src/decoupage.py:74-78 raises the `debut >= fin` error.
- AudioProcessor.TrierFichiers: its contract does not state that the sort is
  stable.
- SuggestionDialog.NormaliserSegment: times that are neither numbers nor
  booleans give a generic error. Two strings are compared as Python does.
  Lists, which Python also compares, give that error too.
- SuggestionDialog.ImporterJson and SuggestionDialog.ValiderSelection: the
  analysis stops where the segment editor would open. What follows is left
  out: the editor run, `get_segments`, and the estimate recomputed from the
  edited segments (src/gui/dialogs/suggestion_dialog.py:200-212, 428-440).
  Both call sites pass a `fichier_mix=` keyword that the editor's
  constructor does not declare (src/gui/dialogs/segment_editor_dialog.py:19).
- `SegmentEditorDialog.get_segments`, which reads the table's widgets.
- `PodcastEditor._monter_depuis_suggestion` and the interactive workflows.
  They call `creer_montage` and unpack two values from a function that
  returns one (src/editor.py:267). `AudioProcessor.CreerMontage` models the
  callee as written.
- The metadata's rounding of the lengths to two decimals and its creation
  date.

## Findings

| source | as written | input that shows it | evidently intended | confidence | as-written member | corrected member |
|---|---|---|---|---|---|---|
| src/gui/dialogs/suggestion_dialog.py:410 | the title is read with `data.get('podcast', ...)` even when `data` is the bare list that format detection accepts, so `AttributeError` ends every bare-list import | `[{"debut": 0, "fin": 10}]` | a bare list is imported under the default title "Découpage importé" | not executed | SuggestionDialog.ListeNueTelQuel | SuggestionDialog.ListeNueImportee |
