/** Audio as the montage code uses it. A `pydub` `AudioSegment` is modelled as
    one value per millisecond, so its length is its `len()`. Decoding, fades,
    normalisation and export belong to the audio library: fades and
    normalisation are parameters that keep the length. */
module Audio {

  /** An `AudioSegment`: one sample per millisecond. */
  type AudioSegment = seq<int>

  /** What opening a source file gives: its audio, or an error from the decoder. */
  datatype SourceFile = Unreadable | Readable(audio: AudioSegment)

  /** The audio library's effects, as functions of the clip and a duration in ms. */
  datatype Effects = Effects(
    fadeIn: (AudioSegment, real) -> AudioSegment,
    fadeOut: (AudioSegment, real) -> AudioSegment,
    normalize: AudioSegment -> AudioSegment)

  /** Fades and normalisation change the samples, never the length. */
  ghost predicate LengthPreserving(fx: Effects) {
    && (forall a, d :: |fx.fadeIn(a, d)| == |a|)
    && (forall a, d :: |fx.fadeOut(a, d)| == |a|)
    && (forall a :: |fx.normalize(a)| == |a|)
  }

  /** `AudioSegment.silent(duration=d)`: `int(d)` milliseconds of silence. */
  function Silent(d: real): (r: AudioSegment)
    ensures |r| == if d < 1.0 then 0 else Trunc(d)
    ensures forall k :: 0 <= k < |r| ==> r[k] == 0
  {
    var n := Trunc(d);
    if n <= 0 then [] else seq(n, _ => 0)
  }

  /** Python's `int()` on a float: truncation toward zero. */
  function Trunc(x: real): (r: int)
    ensures x >= 0.0 ==> r >= 0 && r as real <= x < r as real + 1.0
    ensures x < 0.0 ==> r <= 0 && r as real - 1.0 < x <= r as real
  {
    if x >= 0.0 then x.Floor else -((-x).Floor)
  }

  /** `int(t * 1000)`: seconds to milliseconds. */
  function Ms(t: real): int {
    Trunc(t * 1000.0)
  }

  /** A slice bound in Python: a negative one counts from the end, and it is
      clamped to the sequence. */
  function Bound(n: nat, i: int): (r: nat)
    ensures r <= n
    ensures 0 <= i <= n ==> r == i
  {
    if i < 0 then (if n + i < 0 then 0 else n + i)
    else if i > n then n
    else i
  }

  /** `audio[lo:hi]` in milliseconds. */
  function Slice(a: AudioSegment, lo: int, hi: int): (r: AudioSegment)
    ensures |r| <= |a|
    ensures 0 <= lo <= hi <= |a| ==> r == a[lo..hi] && |r| == hi - lo
    ensures Bound(|a|, hi) <= Bound(|a|, lo) ==> r == []
  {
    var l := Bound(|a|, lo);
    var h := Bound(|a|, hi);
    if h <= l then [] else a[l..h]
  }

  /** `clips[0] + silence + clips[1] + ... + silence + clips[n-1]`. */
  function Assemble(clips: seq<AudioSegment>, silence: AudioSegment): AudioSegment
    requires |clips| >= 1
    decreases |clips|
  {
    if |clips| == 1 then clips[0]
    else Assemble(clips[..|clips| - 1], silence) + silence + clips[|clips| - 1]
  }

  /** The summed length of the clips. */
  function TotalLength(clips: seq<AudioSegment>): nat
    decreases |clips|
  {
    if |clips| == 0 then 0 else TotalLength(clips[..|clips| - 1]) + |clips[|clips| - 1]|
  }

  /** Where clip `k` starts in the assembled audio: the clips in front of it
      and one silence after each of them. */
  function Offset(clips: seq<AudioSegment>, silence: nat, k: nat): nat
    requires k <= |clips|
  {
    TotalLength(clips[..k]) + k * silence
  }

  /** The assembled length is the clips' lengths plus `n - 1` silences. */
  lemma {:induction false} AssembleLength(clips: seq<AudioSegment>, silence: AudioSegment)
    requires |clips| >= 1
    ensures |Assemble(clips, silence)| == TotalLength(clips) + (|clips| - 1) * |silence|
    decreases |clips|
  {
    if |clips| > 1 {
      AssembleLength(clips[..|clips| - 1], silence);
    } else {
      assert clips[..0] == [];
    }
  }

  /** One more clip: the assembly of the first `m + 1` clips extends that of
      the first `m` by a silence and clip `m`. */
  lemma AssembleStep(clips: seq<AudioSegment>, silence: AudioSegment, m: nat)
    requires 1 <= m < |clips|
    ensures Assemble(clips[..m + 1], silence) == Assemble(clips[..m], silence) + silence + clips[m]
  {
    assert clips[..m + 1][..m] == clips[..m];
  }

  /** The offset of the next clip: this clip and one silence further on. */
  lemma OffsetStep(clips: seq<AudioSegment>, silence: nat, k: nat)
    requires k < |clips|
    ensures Offset(clips, silence, k + 1) == Offset(clips, silence, k) + |clips[k]| + silence
  {
    assert clips[..k + 1][..k] == clips[..k];
    assert (k + 1) * silence == k * silence + silence;
  }

  /** The assembly of the first `m` clips is a prefix of the whole assembly. */
  lemma {:induction false} AssemblePrefix(clips: seq<AudioSegment>, silence: AudioSegment, m: nat)
    requires 1 <= m <= |clips|
    ensures |Assemble(clips[..m], silence)| <= |Assemble(clips, silence)|
    ensures Assemble(clips, silence)[..|Assemble(clips[..m], silence)|] == Assemble(clips[..m], silence)
    decreases |clips| - m
  {
    if m == |clips| {
      assert clips[..m] == clips;
    } else {
      AssemblePrefix(clips, silence, m + 1);
      AssembleStep(clips, silence, m);
      var whole := Assemble(clips, silence);
      var next := Assemble(clips[..m + 1], silence);
      var here := Assemble(clips[..m], silence);
      assert next[..|here|] == here;
      assert whole[..|here|] == whole[..|next|][..|here|];
    }
  }

  /** The assembly of the first `k + 1` clips ends with clip `k` at its offset. */
  lemma AssembleEndsWithClip(clips: seq<AudioSegment>, silence: AudioSegment, k: nat)
    requires k < |clips|
    ensures |Assemble(clips[..k + 1], silence)| == Offset(clips, |silence|, k) + |clips[k]|
    ensures Assemble(clips[..k + 1], silence)[Offset(clips, |silence|, k)..] == clips[k]
  {
    if k == 0 {
      assert clips[..0] == [];
      assert clips[..1] == [clips[0]];
    } else {
      AssembleStep(clips, silence, k);
      AssembleLength(clips[..k], silence);
    }
  }

  /** Clip `k` is found unchanged at its offset in the assembled audio. */
  lemma AssemblePlacesClip(clips: seq<AudioSegment>, silence: AudioSegment, k: nat)
    requires k < |clips|
    ensures Offset(clips, |silence|, k) + |clips[k]| <= |Assemble(clips, silence)|
    ensures Assemble(clips, silence)[Offset(clips, |silence|, k)..Offset(clips, |silence|, k) + |clips[k]|] == clips[k]
  {
    AssembleEndsWithClip(clips, silence, k);
    AssemblePrefix(clips, silence, k + 1);
    var o := Offset(clips, |silence|, k);
    var whole := Assemble(clips, silence);
    var part := Assemble(clips[..k + 1], silence);
    assert whole[o..o + |clips[k]|] == whole[..|part|][o..];
  }

  /** The silence sits between clip `k` and clip `k + 1`. */
  lemma AssemblePlacesSilence(clips: seq<AudioSegment>, silence: AudioSegment, k: nat)
    requires k + 1 < |clips|
    ensures Offset(clips, |silence|, k + 1) == Offset(clips, |silence|, k) + |clips[k]| + |silence|
    ensures Offset(clips, |silence|, k + 1) <= |Assemble(clips, silence)|
    ensures Assemble(clips, silence)[Offset(clips, |silence|, k) + |clips[k]|..Offset(clips, |silence|, k + 1)] == silence
  {
    AssembleEndsWithClip(clips, silence, k);
    OffsetStep(clips, |silence|, k);
    AssembleStep(clips, silence, k + 1);
    AssemblePrefix(clips, silence, k + 2);
    var o := Offset(clips, |silence|, k) + |clips[k]|;
    var whole := Assemble(clips, silence);
    var part := Assemble(clips[..k + 2], silence);
    assert part[o..o + |silence|] == silence;
    assert whole[o..o + |silence|] == whole[..|part|][o..o + |silence|];
  }

  /** Concatenating with `+=` is assembling with an empty silence. */
  lemma ConcatLength(clips: seq<AudioSegment>)
    requires |clips| >= 1
    ensures |Assemble(clips, [])| == TotalLength(clips)
  {
    AssembleLength(clips, []);
  }
}
