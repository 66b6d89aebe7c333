/** scripts/remove_silent_from_audio.py: given the non-silent intervals that
    the detector found in a decoded file, build a new track out of exactly
    those parts, in the order given, and export it as wav. The detector and
    its thresholds are outside this model; its output is the input here. */
module RemoveSilentFromAudio {
  import opened Audio

  /** One `[start, end]` pair of the detector's output, in milliseconds. */
  datatype Interval = Interval(start: nat, end: nat)

  /** How `remove_silence` ends: it returns early without exporting when no
      interval was detected, and otherwise exports the joined parts. */
  datatype Removal<F> = NothingExported | Exported(file: Export<F>)

  /** `audio[start:end]` for each interval, joined in order onto empty audio. */
  function Concatenated<F>(audio: seq<F>, intervals: seq<Interval>): seq<F>
  {
    if intervals == [] then []
    else
      var last := intervals[|intervals| - 1];
      Concatenated(audio, intervals[..|intervals| - 1]) + Slice(audio, last.start, last.end)
  }

  /** The milliseconds the intervals cover, counted once per interval. */
  function TotalLength(intervals: seq<Interval>): int
  {
    if intervals == [] then 0
    else
      var last := intervals[|intervals| - 1];
      TotalLength(intervals[..|intervals| - 1]) + (last.end - last.start)
  }

  /** An interval that lies inside the audio and is not reversed. */
  predicate InBounds<F>(audio: seq<F>, iv: Interval)
  {
    iv.start <= iv.end <= |audio|
  }

  /** `remove_silence`: nothing is built or exported for an empty interval
      list; otherwise the concatenation of the intervals' parts is exported as
      wav to the output file. */
  method RemoveSilence<F>(outputFile: string, audio: seq<F>, nonsilentIntervals: seq<Interval>)
    returns (r: Removal<F>)
    ensures nonsilentIntervals == [] <==> r == NothingExported
    ensures nonsilentIntervals != [] ==> r == Exported(Export(outputFile, Wav, Concatenated(audio, nonsilentIntervals)))
  {
    if nonsilentIntervals == [] {
      return NothingExported;
    }
    var outputAudio: seq<F> := [];
    for k := 0 to |nonsilentIntervals|
      invariant outputAudio == Concatenated(audio, nonsilentIntervals[..k])
    {
      assert nonsilentIntervals[..k + 1][..k] == nonsilentIntervals[..k];
      var start, end := nonsilentIntervals[k].start, nonsilentIntervals[k].end;
      outputAudio := outputAudio + Slice(audio, start, end);
    }
    assert nonsilentIntervals[..|nonsilentIntervals|] == nonsilentIntervals;
    return Exported(Export(outputFile, Wav, outputAudio));
  }

  /** Joining two lists of intervals joins their outputs: each interval is
      handled on its own, with no merging across intervals. */
  lemma {:induction false} ConcatenatedAppend<F>(audio: seq<F>, xs: seq<Interval>, ys: seq<Interval>)
    ensures Concatenated(audio, xs + ys) == Concatenated(audio, xs) + Concatenated(audio, ys)
    decreases |ys|
  {
    if ys == [] {
      assert xs + ys == xs;
    } else {
      var ys' := ys[..|ys| - 1];
      assert (xs + ys)[..|xs + ys| - 1] == xs + ys';
      assert (xs + ys)[|xs + ys| - 1] == ys[|ys| - 1];
      ConcatenatedAppend(audio, xs, ys');
    }
  }

  /** For intervals inside the audio the output is exactly as long as the
      intervals added up, overlapping ones included: nothing is merged,
      padded or clamped. */
  lemma {:induction false} ConcatenatedLength<F>(audio: seq<F>, intervals: seq<Interval>)
    requires forall k :: 0 <= k < |intervals| ==> InBounds(audio, intervals[k])
    ensures |Concatenated(audio, intervals)| == TotalLength(intervals)
    decreases |intervals|
  {
    if intervals != [] {
      var init := intervals[..|intervals| - 1];
      assert forall k :: 0 <= k < |init| ==> init[k] == intervals[k];
      ConcatenatedLength(audio, init);
    }
  }

  /** Interval `k` contributes exactly `audio[start:end]`, placed right after
      the parts of the intervals before it. */
  lemma ConcatenatedSegment<F>(audio: seq<F>, intervals: seq<Interval>, k: nat)
    requires k < |intervals|
    ensures var offset := |Concatenated(audio, intervals[..k])|;
            var part := Slice(audio, intervals[k].start, intervals[k].end);
            offset + |part| <= |Concatenated(audio, intervals)| &&
            Concatenated(audio, intervals)[offset..offset + |part|] == part
  {
    var before, after := intervals[..k], intervals[k + 1..];
    assert intervals == before + [intervals[k]] + after;
    ConcatenatedAppend(audio, before + [intervals[k]], after);
    ConcatenatedAppend(audio, before, [intervals[k]]);
    assert [intervals[k]][..0] == [];
    var part := Slice(audio, intervals[k].start, intervals[k].end);
    assert Concatenated(audio, [intervals[k]]) == part;
  }
}
