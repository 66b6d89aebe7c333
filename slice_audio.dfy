/** scripts/slice_audio.py: cut each audio file into consecutive slices of a
    fixed number of milliseconds and export every slice as its own wav file,
    either for one file (`slice_audio_file`) or for every .mp3 and .wav entry
    of a folder, into the folder's "slices" subfolder
    (`process_all_audio_files`). */
module SliceAudio {
  import opened Seqs
  import opened Text
  import opened Paths
  import opened Audio

  /** How a slicing run ends: the files it exported, in order, or the
      ZeroDivisionError that a slice length of 0 raises. */
  datatype SliceOutcome<F> = Sliced(exports: seq<Export<F>>) | ZeroDivisionError

  /** Python's `a // b`: the quotient rounded toward minus infinity. */
  function FloorDiv(a: int, b: int): int
    requires b != 0
  {
    if b > 0 then a / b else (-a) / (-b)
  }

  /** `a // b` is the floor of the exact quotient, for either sign of `b`. */
  lemma FloorDivIsFloor(a: int, b: int)
    requires b != 0
    ensures b > 0 ==> FloorDiv(a, b) * b <= a < FloorDiv(a, b) * b + b
    ensures b < 0 ==> FloorDiv(a, b) * b >= a > FloorDiv(a, b) * b + b
  {
    if b < 0 {
      var q, r := (-a) / (-b), (-a) % (-b);
      assert -a == q * (-b) + r && 0 <= r < -b;
      assert q * b == -(q * (-b));
    }
  }

  /** The number of iterations of `range(int(total // slice_ms))`: a negative
      quotient gives an empty range. */
  function SliceCount(total: nat, sliceMs: int): (n: nat)
    requires sliceMs != 0
    ensures sliceMs > 0 ==> n * sliceMs <= total
  {
    FloorDivIsFloor(total, sliceMs);
    var q := FloorDiv(total, sliceMs);
    if q > 0 then q else 0
  }

  /** With a positive slice length the count is the floor of total / length,
      so a trailing remainder shorter than one slice is dropped; a negative
      length gives no slices at all. */
  lemma SliceCountSpec(total: nat, sliceMs: int)
    requires sliceMs != 0
    ensures sliceMs > 0 ==> SliceCount(total, sliceMs) == total / sliceMs
    ensures sliceMs > 0 ==>
              SliceCount(total, sliceMs) * sliceMs <= total < SliceCount(total, sliceMs) * sliceMs + sliceMs
    ensures sliceMs < 0 ==> SliceCount(total, sliceMs) == 0
  {
    FloorDivIsFloor(total, sliceMs);
  }

  /** The base name the slices are named after: the input's file name
      without its extension. */
  function Stem(inputFile: string): string
  {
    Root(Basename(inputFile))
  }

  /** `f"{base_name}_slice_{i:04d}.wav"` */
  function SliceFileName(base: string, i: nat): string
  {
    base + "_slice_" + ZeroPadded(i, 4) + ".wav"
  }

  /** Slice `i`: `audio[start:end]` with `start = i * slice_ms` and
      `end = start + slice_ms`, exported as wav to `output_dir` under the
      `i`-th name. */
  function SliceExport<F>(outputDir: string, base: string, audio: seq<F>, sliceMs: int, i: nat): Export<F>
    requires sliceMs > 0
  {
    var start := i * sliceMs;
    var end := start + sliceMs;
    Export(Join(outputDir, SliceFileName(base, i)), Wav, Slice(audio, start, end))
  }

  /** The exports of the slicing loop for audio `audio` and base name `base`:
      one per whole slice, in index order. */
  function SlicePlan<F>(outputDir: string, base: string, audio: seq<F>, sliceMs: int): (plan: seq<Export<F>>)
    requires sliceMs != 0
    ensures |plan| == SliceCount(|audio|, sliceMs)
  {
    var n := SliceCount(|audio|, sliceMs);
    if sliceMs < 0 then []
    else seq(n, i requires 0 <= i < n => SliceExport(outputDir, base, audio, sliceMs, i))
  }

  lemma PlanElement<F>(outputDir: string, base: string, audio: seq<F>, sliceMs: int, i: nat)
    requires sliceMs != 0
    requires i < |SlicePlan(outputDir, base, audio, sliceMs)|
    ensures sliceMs > 0
    ensures SlicePlan(outputDir, base, audio, sliceMs)[i] == SliceExport(outputDir, base, audio, sliceMs, i)
  {
    SliceCountSpec(|audio|, sliceMs);
  }

  /** `slice_audio_file`: decode with the format the extension selects, then
      export one wav file per whole slice, named after the input's stem. A
      slice length of 0 makes `total_duration // slice_duration_ms` raise
      before anything is exported. */
  method SliceAudioFile<F>(inputFile: string, outputDir: string, decode: (string, Format) -> seq<F>, sliceMs: int)
    returns (r: SliceOutcome<F>)
    ensures sliceMs == 0 ==> r == ZeroDivisionError
    ensures sliceMs != 0 ==>
              r == Sliced(SlicePlan(outputDir, Stem(inputFile), decode(inputFile, DecodeFormat(inputFile)), sliceMs))
  {
    var audioFormat := DecodeFormat(inputFile);
    var audio := decode(inputFile, audioFormat);
    if sliceMs == 0 {
      return ZeroDivisionError;
    }
    var baseName := Stem(inputFile);
    var exports := ExportSlices(outputDir, baseName, audio, sliceMs);
    return Sliced(exports);
  }

  /** The loop of `slice_audio_file`: `range(int(total // slice_ms))` gives
      the slice indices, and every index exports its window under its name. */
  method ExportSlices<F>(outputDir: string, baseName: string, audio: seq<F>, sliceMs: int) returns (exports: seq<Export<F>>)
    requires sliceMs != 0
    ensures exports == SlicePlan(outputDir, baseName, audio, sliceMs)
  {
    var numSlices := FloorDiv(|audio|, sliceMs);
    ghost var plan := SlicePlan(outputDir, baseName, audio, sliceMs);
    exports := [];
    var rangeEnd := if numSlices > 0 then numSlices else 0;
    assert rangeEnd == |plan|;
    for i := 0 to rangeEnd
      invariant exports == plan[..i]
    {
      var start := i * sliceMs;
      var end := start + sliceMs;
      var segment := Slice(audio, start, end);
      var outputFilename := Join(outputDir, baseName + "_slice_" + ZeroPadded(i, 4) + ".wav");
      var file := Export(outputFilename, Wav, segment);
      assert file == plan[i] by {
        PlanElement(outputDir, baseName, audio, sliceMs, i);
      }
      assert plan[..i + 1] == plan[..i] + [file];
      exports := exports + [file];
    }
  }

  /** Every planned slice is a full window of exactly `slice_ms` frames,
      inside the audio, starting at `i * slice_ms`, exported as wav. */
  lemma PlanWindows<F>(outputDir: string, base: string, audio: seq<F>, sliceMs: int, i: nat)
    requires sliceMs != 0
    requires i < |SlicePlan(outputDir, base, audio, sliceMs)|
    ensures sliceMs > 0
    ensures 0 <= i * sliceMs && i * sliceMs + sliceMs <= |audio|
    ensures SlicePlan(outputDir, base, audio, sliceMs)[i].audio == audio[i * sliceMs..i * sliceMs + sliceMs]
    ensures |SlicePlan(outputDir, base, audio, sliceMs)[i].audio| == sliceMs
    ensures SlicePlan(outputDir, base, audio, sliceMs)[i].format == Wav
  {
    var n := SliceCount(|audio|, sliceMs);
    PlanElement(outputDir, base, audio, sliceMs, i);
    assert 0 <= i * sliceMs && i * sliceMs + sliceMs <= |audio| by {
      MulMonotone(i, i, sliceMs);
      MulMonotone(i + 1, n, sliceMs);
    }
  }

  lemma MulMonotone(a: nat, b: nat, d: int)
    requires a <= b && d > 0
    ensures 0 <= a * d <= b * d
    ensures (a + 1) * d == a * d + d
  {
  }

  /** The audio of each export, in order. */
  function Audios<F>(exports: seq<Export<F>>): (r: seq<seq<F>>)
    ensures |r| == |exports|
    ensures forall i :: 0 <= i < |r| ==> r[i] == exports[i].audio
  {
    seq(|exports|, i requires 0 <= i < |exports| => exports[i].audio)
  }

  /** The slices, joined in order, give back the audio up to the last whole
      slice: they are contiguous, do not overlap and skip nothing. */
  lemma PlanCoversPrefix<F>(outputDir: string, base: string, audio: seq<F>, sliceMs: int)
    requires sliceMs > 0
    ensures var plan := SlicePlan(outputDir, base, audio, sliceMs);
            |plan| * sliceMs <= |audio| && Flatten(Audios(plan)) == audio[..|plan| * sliceMs]
  {
    var plan := SlicePlan(outputDir, base, audio, sliceMs);
    var parts := Audios(plan);
    forall i | 0 <= i < |parts|
      ensures i * sliceMs + sliceMs <= |audio| && parts[i] == audio[i * sliceMs..i * sliceMs + sliceMs]
    {
      PlanWindows(outputDir, base, audio, sliceMs, i);
    }
    WindowsCover(parts, audio, sliceMs, |parts|);
    assert parts[..|parts|] == parts;
  }

  /** Windows of `d` frames laid end to end from the start: the first `k` of
      them, joined, are the first `k * d` frames. */
  lemma {:induction false} WindowsCover<F>(parts: seq<seq<F>>, audio: seq<F>, d: int, k: nat)
    requires d > 0 && k <= |parts|
    requires forall i :: 0 <= i < |parts| ==> i * d + d <= |audio| && parts[i] == audio[i * d..i * d + d]
    ensures k * d <= |audio| && Flatten(parts[..k]) == audio[..k * d]
  {
    if k == 0 {
      assert parts[..0] == [];
    } else {
      WindowsCover(parts, audio, d, k - 1);
      var lo, hi := (k - 1) * d, k * d;
      MulMonotone(k - 1, k - 1, d);
      assert parts[k - 1] == audio[lo..hi];
      assert parts[..k] == parts[..k - 1] + [parts[k - 1]];
      FlattenSnoc(parts[..k - 1], parts[k - 1]);
      assert audio[..lo] + audio[lo..hi] == audio[..hi];
    }
  }

  /** A slice file name ends in ".wav", and reading back the digits between
      the base name's "_slice_" and ".wav" gives the slice index. */
  lemma SliceFileNameIndex(base: string, i: nat)
    ensures var name := SliceFileName(base, i);
            |name| >= |base| + 15 && name[..|base|] == base && name[|base|..|base| + 7] == "_slice_" &&
            name[|name| - 4..] == ".wav" &&
            var digits := name[|base| + 7..|name| - 4];
            |digits| >= 4 && (|digits| == 4 || digits[0] != '0') && (forall k :: 0 <= k < |digits| ==> IsDigit(digits[k])) && DigitsValue(digits) == i
  {
    var name := SliceFileName(base, i);
    var digits := ZeroPadded(i, 4);
    assert name[|base| + 7..|name| - 4] == digits;
    ZeroPaddedValue(i, 4);
  }

  /** Distinct slices get distinct output paths, for a base name without a
      separator (as every stem is, see `StemHasNoSeparator`). */
  lemma PlanPathsDistinct<F>(outputDir: string, base: string, audio: seq<F>, sliceMs: int, i: nat, j: nat)
    requires sliceMs != 0
    requires forall k :: 0 <= k < |base| ==> base[k] != '/'
    requires i < j < |SlicePlan(outputDir, base, audio, sliceMs)|
    ensures SlicePlan(outputDir, base, audio, sliceMs)[i].path != SlicePlan(outputDir, base, audio, sliceMs)[j].path
  {
    var a, b := SliceFileName(base, i), SliceFileName(base, j);
    PlanElement(outputDir, base, audio, sliceMs, i);
    PlanElement(outputDir, base, audio, sliceMs, j);
    assert a[0] != '/' by { if |base| == 0 { assert a[0] == '_'; } else { assert a[0] == base[0]; } }
    assert b[0] != '/' by { if |base| == 0 { assert b[0] == '_'; } else { assert b[0] == base[0]; } }
    if Join(outputDir, a) == Join(outputDir, b) {
      JoinInjective(outputDir, a, b);
      SliceFileNameIndex(base, i);
      SliceFileNameIndex(base, j);
      assert false;
    }
  }

  /** The stem of an input path contains no separator. */
  lemma StemHasNoSeparator(inputFile: string)
    ensures forall k :: 0 <= k < |Stem(inputFile)| ==> Stem(inputFile)[k] != '/'
  {
    var b := Basename(inputFile);
    SplitExtParts(b);
    assert Stem(inputFile) == b[..|Root(b)|];
  }

  // ---------------------------------------------------------------------
  // Folder mode: process_all_audio_files

  /** The folder filter: the lower-cased entry name ends in ".mp3" or ".wav". */
  predicate IsAudioName(name: string)
  {
    EndsWith(Lower(name), ".mp3") || EndsWith(Lower(name), ".wav")
  }

  /** The output folder of folder mode: `os.path.join(input_folder, "slices")`. */
  function SlicesFolder(inputFolder: string): string
  {
    Join(inputFolder, "slices")
  }

  /** What `slice_audio_file` exports for one folder entry, sliced into the
      "slices" subfolder. */
  function EntrySlices<F>(inputFolder: string, name: string, decode: (string, Format) -> seq<F>, sliceMs: int): seq<Export<F>>
    requires sliceMs != 0
  {
    var inputFile := Join(inputFolder, name);
    SlicePlan(SlicesFolder(inputFolder), Stem(inputFile), decode(inputFile, DecodeFormat(inputFile)), sliceMs)
  }

  /** The folder loop over `entries`, for any per-entry slicing: entries
      that fail the filter are skipped; when slicing raises (`raises`), the
      first audio entry ends the run with that error; otherwise each audio
      entry's exports are appended. */
  function FolderRun<F>(entries: seq<string>, raises: bool, slices: string -> seq<Export<F>>): SliceOutcome<F>
  {
    if entries == [] then Sliced([])
    else
      var before := FolderRun(entries[..|entries| - 1], raises, slices);
      var name := entries[|entries| - 1];
      if before.ZeroDivisionError? || !IsAudioName(name) then before
      else if raises then ZeroDivisionError
      else Sliced(before.exports + slices(name))
  }

  /** `slice_audio_file` applied to one entry of the input folder. */
  function EntrySlicer<F>(inputFolder: string, decode: (string, Format) -> seq<F>, sliceMs: int): string -> seq<Export<F>>
  {
    name => if sliceMs == 0 then [] else EntrySlices(inputFolder, name, decode, sliceMs)
  }

  /** The outcome of `process_all_audio_files` over the listed entries. */
  function FolderOutcome<F>(inputFolder: string, entries: seq<string>, decode: (string, Format) -> seq<F>, sliceMs: int): SliceOutcome<F>
  {
    FolderRun(entries, sliceMs == 0, EntrySlicer(inputFolder, decode, sliceMs))
  }

  /** `process_all_audio_files`: slice every audio entry of the listing, in
      listing order, into the "slices" subfolder. */
  method ProcessAllAudioFiles<F>(inputFolder: string, entries: seq<string>, decode: (string, Format) -> seq<F>, sliceMs: int)
    returns (r: SliceOutcome<F>)
    ensures r == FolderOutcome(inputFolder, entries, decode, sliceMs)
  {
    var outputFolder := Join(inputFolder, "slices");
    ghost var slices := EntrySlicer(inputFolder, decode, sliceMs);
    var exports: seq<Export<F>> := [];
    for k := 0 to |entries|
      invariant FolderRun(entries[..k], sliceMs == 0, slices) == Sliced(exports)
    {
      FolderRunStep(entries, sliceMs == 0, slices, k);
      var filename := entries[k];
      var lowerFile := Lower(filename);
      if EndsWith(lowerFile, ".mp3") || EndsWith(lowerFile, ".wav") {
        var inputFile := Join(inputFolder, filename);
        var one := SliceAudioFile(inputFile, outputFolder, decode, sliceMs);
        if one.ZeroDivisionError? {
          FolderErrorSticks(entries, sliceMs == 0, slices, k + 1);
          return ZeroDivisionError;
        }
        assert one.exports == slices(filename);
        exports := exports + one.exports;
      }
    }
    assert entries[..|entries|] == entries;
    return Sliced(exports);
  }

  /** One more entry of the listing changes the outcome as the loop body does. */
  lemma FolderRunStep<F>(entries: seq<string>, raises: bool, slices: string -> seq<Export<F>>, k: nat)
    requires k < |entries|
    ensures var before := FolderRun(entries[..k], raises, slices);
            FolderRun(entries[..k + 1], raises, slices) ==
              if before.ZeroDivisionError? || !IsAudioName(entries[k]) then before
              else if raises then ZeroDivisionError
              else Sliced(before.exports + slices(entries[k]))
  {
    assert entries[..k + 1][..k] == entries[..k];
  }

  /** Once the run has raised, later entries do not change the outcome. */
  lemma {:induction false} FolderErrorSticks<F>(entries: seq<string>, raises: bool, slices: string -> seq<Export<F>>, k: nat)
    requires k <= |entries|
    requires FolderRun(entries[..k], raises, slices) == ZeroDivisionError
    ensures FolderRun(entries, raises, slices) == ZeroDivisionError
    decreases |entries| - k
  {
    if k < |entries| {
      assert entries[..k + 1][..k] == entries[..k];
      FolderErrorSticks(entries, raises, slices, k + 1);
    } else {
      assert entries[..k] == entries;
    }
  }

  /** When slicing does not raise, the folder run slices exactly the entries
      that pass the filter, in listing order, and nothing else. */
  lemma {:induction false} FolderRunFilters<F>(entries: seq<string>, slices: string -> seq<Export<F>>)
    ensures FolderRun(entries, false, slices) == Sliced(ConcatMap(Filter(entries, IsAudioName), slices))
    decreases |entries|
  {
    if entries != [] {
      var init := entries[..|entries| - 1];
      FolderRunFilters(init, slices);
      var selected := Filter(init, IsAudioName);
      var name := entries[|entries| - 1];
      if IsAudioName(name) {
        assert Filter(entries, IsAudioName) == selected + [name];
        assert (selected + [name])[..|selected|] == selected;
      }
    }
  }

  /** When slicing raises, the run ends in the error as soon as one entry
      passes the filter, and otherwise exports nothing. */
  lemma {:induction false} FolderRunRaising<F>(entries: seq<string>, slices: string -> seq<Export<F>>)
    ensures FolderRun(entries, true, slices) ==
              if Filter(entries, IsAudioName) == [] then Sliced([]) else ZeroDivisionError
    decreases |entries|
  {
    if entries != [] {
      FolderRunRaising(entries[..|entries| - 1], slices);
    }
  }

  /** The folder run raises exactly when slicing raises and some entry
      passes the filter: a folder without audio entries never divides. */
  lemma FolderRunFails<F>(entries: seq<string>, raises: bool, slices: string -> seq<Export<F>>)
    ensures FolderRun(entries, raises, slices).ZeroDivisionError? <==>
              raises && exists k :: 0 <= k < |entries| && IsAudioName(entries[k])
  {
    if raises {
      FolderRunRaising(entries, slices);
      FilterEmpty(entries, IsAudioName);
    } else {
      FolderRunFilters(entries, slices);
    }
  }

  /** With a non-zero slice length, folder mode exports the slices of the
      entries that pass the filter, in listing order; with a slice length of
      0 it raises exactly when some entry passes the filter. */
  lemma FolderOutcomeSpec<F>(inputFolder: string, entries: seq<string>, decode: (string, Format) -> seq<F>, sliceMs: int)
    ensures sliceMs != 0 ==>
              FolderOutcome(inputFolder, entries, decode, sliceMs) ==
                Sliced(ConcatMap(Filter(entries, IsAudioName), EntrySlicer(inputFolder, decode, sliceMs)))
    ensures FolderOutcome(inputFolder, entries, decode, sliceMs).ZeroDivisionError? <==>
              sliceMs == 0 && exists k :: 0 <= k < |entries| && IsAudioName(entries[k])
  {
    var slices := EntrySlicer(inputFolder, decode, sliceMs);
    FolderRunFails(entries, sliceMs == 0, slices);
    if sliceMs != 0 {
      FolderRunFilters(entries, slices);
    }
  }

  /** `x` is one of the files slicing entry `name` can export: a wav file in
      the "slices" subfolder named after the entry's stem and some index. */
  ghost predicate IsSliceOf<F>(inputFolder: string, name: string, x: Export<F>)
  {
    x.format == Wav &&
    exists i: nat :: x.path == Join(SlicesFolder(inputFolder), SliceFileName(Stem(Join(inputFolder, name)), i))
  }

  /** Every file one entry produces is one of its slices. */
  lemma EntrySlicesTargets<F>(inputFolder: string, name: string, decode: (string, Format) -> seq<F>, sliceMs: int)
    requires sliceMs != 0
    ensures forall x :: x in EntrySlices(inputFolder, name, decode, sliceMs) ==> IsSliceOf(inputFolder, name, x)
  {
    var inputFile := Join(inputFolder, name);
    var audio := decode(inputFile, DecodeFormat(inputFile));
    var plan := SlicePlan(SlicesFolder(inputFolder), Stem(inputFile), audio, sliceMs);
    forall x | x in plan
      ensures IsSliceOf(inputFolder, name, x)
    {
      var i :| 0 <= i < |plan| && plan[i] == x;
      PlanElement(SlicesFolder(inputFolder), Stem(inputFile), audio, sliceMs, i);
      assert x.path == Join(SlicesFolder(inputFolder), SliceFileName(Stem(inputFile), i));
    }
  }

  /** Every file folder mode exports is a wav file in the "slices" subfolder,
      named after one of the entries that pass the filter. */
  lemma FolderTargets<F>(inputFolder: string, entries: seq<string>, decode: (string, Format) -> seq<F>, sliceMs: int, x: Export<F>)
    requires sliceMs != 0
    requires FolderOutcome(inputFolder, entries, decode, sliceMs).Sliced?
    requires x in FolderOutcome(inputFolder, entries, decode, sliceMs).exports
    ensures exists k :: 0 <= k < |entries| && IsAudioName(entries[k]) && IsSliceOf(inputFolder, entries[k], x)
  {
    var slices := EntrySlicer(inputFolder, decode, sliceMs);
    var selected := Filter(entries, IsAudioName);
    FolderOutcomeSpec(inputFolder, entries, decode, sliceMs);
    ConcatMapMembers(selected, slices, x);
    var j :| 0 <= j < |selected| && x in slices(selected[j]);
    EntrySlicesTargets(inputFolder, selected[j], decode, sliceMs);
    FilterSource(entries, IsAudioName, j);
  }

  /** An entry named just ".mp3" passes the folder filter, yet it has no
      extension, so it is decoded as wav. */
  lemma DotMp3EntryDecodedAsWav(inputFolder: string)
    ensures IsAudioName(".mp3")
    ensures DecodeFormat(Join(inputFolder, ".mp3")) == Wav
  {
    LowerOfLowercase(".mp3");
    BasenameOfJoin(inputFolder, ".mp3");
    DecodeFormatMp3Iff(Join(inputFolder, ".mp3"));
  }

  /** Two entries that differ only in their extension, such as "take.wav"
      and "take.mp3", produce the same slice file names in the shared
      "slices" folder, so the one sliced later overwrites the other's slice
      at every index both files have. */
  lemma SameStemSameNames(inputFolder: string, stem: string, i: nat)
    requires |stem| > 0 && '/' !in stem && '.' !in stem
    ensures IsAudioName(stem + ".wav") && IsAudioName(stem + ".mp3")
    ensures Stem(Join(inputFolder, stem + ".wav")) == stem == Stem(Join(inputFolder, stem + ".mp3"))
    ensures SliceFileName(Stem(Join(inputFolder, stem + ".wav")), i) == SliceFileName(Stem(Join(inputFolder, stem + ".mp3")), i)
  {
    StemOfEntry(inputFolder, stem, ".wav");
    StemOfEntry(inputFolder, stem, ".mp3");
  }

  /** The stem of `stem + ext` for an audio extension written in lower case. */
  lemma StemOfEntry(inputFolder: string, stem: string, ext: string)
    requires |stem| > 0 && '/' !in stem && '.' !in stem
    requires ext == ".wav" || ext == ".mp3"
    ensures IsAudioName(stem + ext)
    ensures Stem(Join(inputFolder, stem + ext)) == stem
  {
    var name := stem + ext;
    NameChars(stem, ext);
    BasenameOfJoin(inputFolder, name);
    assert RFind(name, '/') == -1;
    assert HasNonDot(name, 0, |stem|) by { assert name[0] != '.'; }
    assert SplitExt(name) == (name[..|stem|], name[|stem|..]);
    assert name[..|stem|] == stem;
    AudioNameOf(stem, ext);
  }

  lemma NameChars(stem: string, ext: string)
    requires '/' !in stem && '.' !in stem
    requires ext == ".wav" || ext == ".mp3"
    ensures '/' !in stem + ext
    ensures RFind(stem + ext, '.') == |stem|
  {
    var name := stem + ext;
    var n := |stem|;
    assert forall k :: 0 <= k < n ==> name[k] == stem[k];
    assert forall k :: n <= k < |name| ==> name[k] == ext[k - n];
    assert |name| == n + 4 && name[n] == '.';
    assert name[n + 1] != '.' && name[n + 2] != '.' && name[n + 3] != '.';
  }

  lemma AudioNameOf(stem: string, ext: string)
    requires ext == ".wav" || ext == ".mp3"
    ensures IsAudioName(stem + ext)
  {
    var name := stem + ext;
    LowerSuffix(name, |stem|);
    assert name[|stem|..] == ext;
    LowerOfLowercase(ext);
  }
}
