# audio-toolkit scripts, modelled in Dafny

This project models the logic of the four scripts of the audio-toolkit
repository. All of them work on pydub audio segments and files:

- `scripts/slice_audio.py` cuts a file into consecutive fixed-length slices.
  Each slice goes to a wav file named `<stem>_slice_<i:04d>.wav`. In folder
  mode it does this for every `.mp3`/`.wav` entry of a folder, into its
  `slices` subfolder.
- `scripts/batch_remove_silent_files.py` moves the `.wav` entries that a
  silence classifier calls silent into `silent_files`. It counts the wav
  entries and the silent ones, and catches exceptions per file.
- `scripts/remove_silent_from_audio.py` joins the non-silent intervals that a
  detector found into one wav file.
- `scripts/trim_audio.py` keeps the first `duration_ms` milliseconds of a
  file as wav.

Audio is a sequence of millisecond frames (`seq<F>` for any frame type `F`).
So `len(audio)` is its length and `audio[a:b]` is `Audio.Slice`, Python's
slice with the bounds cut down to the length. Decoding a file, the silence
classifier, the move and the detector are outside the model; they become
parameters. `decode` maps a path and a format to audio. `isSilent` maps a
path to `Silent`, `NotSilent` or `Raises`. `moveFails` says whether a
`shutil.move` raises. An export becomes an `Export(path, format, audio)`
value in the result. The `os.path` functions (`splitext`, `basename`,
two-argument `join`) are modelled for POSIX paths in `Paths`. `str.lower()`
is in `Text`, along with the `{i:04d}` format and its inverse.

Modules: `Seqs` (filter and flatten), `Text`, `Paths`, `Audio` (formats,
slicing, the extension rule), `SliceAudio`, `BatchRemoveSilentFiles`,
`RemoveSilentFromAudio`, `TrimAudio`.

Each script's operation is a method or function. The methods' contracts
tie the result to a specification function over the whole input
(`SlicePlan`, `FolderOutcome`, `Summary`, `Concatenated`), and lemmas then
state what the scripts promise about those functions. `TrimToFirst` is the
trimming operation itself; its ensures state directly that the export is a
prefix of the decoded audio of the expected length. The folder loop of
`slice_audio.py` is stated once, as `FolderRun`, over any per-entry slicing,
so its lemmas hold whatever each entry's slicing exports. Two lemmas record behaviour of the code
that may surprise a user:

- `SliceAudio.DotMp3EntryDecodedAsWav`: an entry named `.mp3` passes the
  folder filter, but `splitext` gives it no extension, so it is decoded as
  wav.
- `SliceAudio.SameStemSameNames`: `take.wav` and `take.mp3` in one folder
  write slices with the same names, so the one sliced later overwrites the
  other's slice at every index both files have.

## Model

| member | source | states |
|---|---|---|
| Audio.Slice | scripts/slice_audio.py:32 | `audio[start:end]` with bounds inside the audio is exactly that subsequence, and a slice is never longer than the audio |
| Audio.DecodeFormat | scripts/slice_audio.py:17-18 | the decoder is "mp3" when the lowered extension is ".mp3" and "wav" otherwise |
| Audio.DecodeFormatMp3Iff | scripts/slice_audio.py:17-18 | the decoder is mp3 exactly when the file name ends in ".mp3" in any case with a non-dot before that ending; every other name, including one without an extension, is decoded as wav |
| Paths.SplitExt | scripts/slice_audio.py:17 | `os.path.splitext`: the extension starts at the last dot of the last path component when a non-dot precedes it in that component; otherwise it is empty |
| Paths.Join | scripts/slice_audio.py:36 | two-argument `os.path.join`: an absolute name replaces the directory; otherwise one '/' is inserted unless the directory is empty or already ends in one |
| Paths.RFind | scripts/slice_audio.py:17 | the index found holds the character and no later index does; -1 when it is absent |
| Paths.SplitExtParts | scripts/slice_audio.py:17 | root and extension put back together give the path; the extension is empty or a dot with no further dot or separator |
| Paths.ExtPosition | scripts/slice_audio.py:17 | a non-empty extension starts at the last dot, which lies after the last separator with a non-dot between them |
| Paths.Basename | scripts/slice_audio.py:28 | the base name contains no separator, is the tail of the path, and is either the whole path or preceded by a separator: everything after the last '/' |
| Paths.JoinParts | scripts/slice_audio.py:36 | a relative name is the tail of the joined path, after the directory and at most one added separator |
| Paths.JoinInjective | scripts/slice_audio.py:36 | one directory joined with distinct relative names gives distinct paths |
| Paths.BasenameOfJoin | scripts/slice_audio.py:56 | a directory entry joined under the folder has that entry as its base name |
| Text.LowerChar | scripts/slice_audio.py:54 | `str.lower()` on one character: an ASCII capital becomes its small letter, every other character stays |
| Text.LowerNoCapitals | scripts/slice_audio.py:54 | lowering keeps the length, leaves no ASCII capital, and keeps every character that is not one |
| Text.EndsWith | scripts/slice_audio.py:55 | `str.endswith`: the suffix is no longer than the string and equals its last characters |
| Text.LowerSuffix | scripts/slice_audio.py:17 | lowering commutes with taking a suffix |
| Text.LowerOfLowercase | scripts/slice_audio.py:55 | a string without capitals lowers to itself |
| Text.LowerCharDot | scripts/slice_audio.py:17 | only '.' lowers to '.' |
| Text.Decimal | scripts/slice_audio.py:36 | decimal digits are a non-empty string of digits with no leading zero (only 0 is written "0") |
| Text.ZeroPadded | scripts/slice_audio.py:36 | `{n:04d}` has at least the width and only digits, and is exactly the width unless it starts with a non-zero digit |
| Text.DecimalValue | scripts/slice_audio.py:36 | reading the decimal digits back gives the number |
| Text.LeadingZerosValue | scripts/slice_audio.py:36 | leading zeros do not change the value read back |
| Text.ZeroPaddedValue | scripts/slice_audio.py:36 | reading the padded digits back gives the number: the format loses nothing |
| Text.ZeroPaddedInjective | scripts/slice_audio.py:36 | distinct indices are formatted as distinct strings |
| Seqs.Filter | scripts/slice_audio.py:53-55 | each kept element passes the test, each passing element is kept, and the result is no longer than the input |
| Seqs.FilterSource | scripts/slice_audio.py:53-55 | every kept element is an element of the listing |
| Seqs.FilterEmpty | scripts/slice_audio.py:53-55 | the filter keeps nothing exactly when no element passes the test |
| Seqs.ConcatMapMembers | scripts/slice_audio.py:53-57 | every element of the joined per-entry results comes from one of the entries |
| Seqs.FlattenSnoc | scripts/slice_audio.py:29-37 | appending one more slice appends its frames to the joined slices |
| Seqs.SuffixOfSuffix | scripts/slice_audio.py:17-18 | the last characters of a base name are the last characters of the path |
| Paths.RFindAt | scripts/slice_audio.py:17 | an occurrence with no later occurrence is the one `rfind` finds |
| Paths.ExtAtLastDot | scripts/slice_audio.py:17 | a last dot after the last separator, with a non-dot between them, starts the extension |
| SliceAudio.FloorDiv | scripts/slice_audio.py:25 | Python's `//` on integers, rounding toward minus infinity |
| SliceAudio.FloorDivIsFloor | scripts/slice_audio.py:25 | Python's `//` is the floor of the exact quotient, for either sign of the divisor |
| SliceAudio.SliceCount | scripts/slice_audio.py:25-29 | with a positive slice length the whole slices fit in the audio |
| SliceAudio.SliceCountSpec | scripts/slice_audio.py:25-29 | with a positive slice length the count is `total // slice_ms`, with a remainder shorter than one slice; a negative length gives no slices |
| SliceAudio.Stem | scripts/slice_audio.py:28 | the base name of the input without its extension |
| SliceAudio.SliceExport | scripts/slice_audio.py:30-37 | slice `i` is `audio[i*slice_ms : i*slice_ms + slice_ms]`, exported as wav under the `i`-th name in the output folder |
| SliceAudio.SlicePlan | scripts/slice_audio.py:25-29 | there are as many planned exports as the slice count |
| SliceAudio.PlanElement | scripts/slice_audio.py:29-37 | the `i`-th planned export is slice `i` of the audio, written as wav under the `i`-th name; a plan with any slice has a positive slice length |
| SliceAudio.SliceAudioFile | scripts/slice_audio.py:5-38 | a slice length of 0 raises ZeroDivisionError; otherwise the exports are the planned slices of the audio decoded in the format the extension selects, named after the input's stem, in index order |
| SliceAudio.ExportSlices | scripts/slice_audio.py:25-37 | the loop exports exactly the planned slices, in index order |
| SliceAudio.PlanWindows | scripts/slice_audio.py:25-32 | slice `i` is the window `[i*slice_ms, i*slice_ms + slice_ms)`, lies inside the audio, has exactly `slice_ms` frames and is exported as wav |
| SliceAudio.PlanCoversPrefix | scripts/slice_audio.py:29-32 | the slices joined in order are the audio up to the last whole slice: contiguous, not overlapping, nothing skipped |
| SliceAudio.WindowsCover | scripts/slice_audio.py:29-32 | the first `k` windows of `slice_ms` frames laid end to end are the first `k*slice_ms` frames |
| SliceAudio.SliceFileName | scripts/slice_audio.py:36 | `f"{base_name}_slice_{i:04d}.wav"`: the base name, "_slice_", the index padded to four digits, ".wav" |
| SliceAudio.SliceFileNameIndex | scripts/slice_audio.py:36 | a slice name is the base name, "_slice_", digits and ".wav"; the digits are four, or more with no leading zero, and read back as the index, so they are exactly `{i:04d}` |
| SliceAudio.PlanPathsDistinct | scripts/slice_audio.py:28-36 | for a base name without a separator, distinct slices are written to distinct paths |
| SliceAudio.StemHasNoSeparator | scripts/slice_audio.py:28 | the base name of the input contains no separator |
| SliceAudio.ProcessAllAudioFiles | scripts/slice_audio.py:42-57 | the folder run has the outcome of slicing every listed audio entry, in listing order, into the "slices" subfolder |
| SliceAudio.IsAudioName | scripts/slice_audio.py:54-55 | the folder filter: the lowered entry name ends in ".mp3" or ".wav" |
| SliceAudio.FolderRun | scripts/slice_audio.py:53-57 | the folder loop for any per-entry slicing: entries failing the filter are skipped, the first audio entry raises when slicing raises, otherwise each audio entry's exports are appended |
| SliceAudio.SlicesFolder | scripts/slice_audio.py:48 | the output folder `os.path.join(input_folder, "slices")` |
| SliceAudio.EntrySlices | scripts/slice_audio.py:56-57 | `slice_audio_file` on one entry: the slice plan of the joined path's decoded audio, into the "slices" folder, named after its stem |
| SliceAudio.FolderOutcome | scripts/slice_audio.py:53-57 | the folder loop with `slice_audio_file` on each entry, where each call raises exactly when the slice length is 0; the run raises when the slice length is 0 and some entry passes the filter |
| SliceAudio.FolderRunStep | scripts/slice_audio.py:53-57 | one more entry changes the outcome as the loop body does: skipped, sliced and appended, or raising |
| SliceAudio.FolderErrorSticks | scripts/slice_audio.py:53-57 | once a slice call has raised, later entries change nothing |
| SliceAudio.FolderRunFilters | scripts/slice_audio.py:53-57 | when slicing does not raise, exactly the entries whose lowered name ends in ".mp3" or ".wav" are sliced, in listing order |
| SliceAudio.FolderRunRaising | scripts/slice_audio.py:53-57 | when slicing raises, the run raises if some entry passes the filter and exports nothing otherwise |
| SliceAudio.FolderRunFails | scripts/slice_audio.py:53-57 | the run raises exactly when slicing raises and some entry passes the filter |
| SliceAudio.FolderOutcomeSpec | scripts/slice_audio.py:48-57 | with a non-zero slice length folder mode exports the slices of the audio entries in listing order; it raises exactly when the slice length is 0 and some entry passes the filter |
| SliceAudio.EntrySlicesTargets | scripts/slice_audio.py:48-57 | every file one entry produces is a wav in `input_folder/slices` named after the entry's stem and an index |
| SliceAudio.FolderTargets | scripts/slice_audio.py:48-57 | every file folder mode exports is a wav in `input_folder/slices` named after one of the entries that pass the filter |
| SliceAudio.DotMp3EntryDecodedAsWav | scripts/slice_audio.py:54-57 | an entry named ".mp3" passes the filter yet is decoded as wav |
| SliceAudio.SameStemSameNames | scripts/slice_audio.py:28-36 | `stem.wav` and `stem.mp3` both pass the filter, have the same stem and get the same slice names |
| SliceAudio.StemOfEntry | scripts/slice_audio.py:28 | an entry `stem.wav` or `stem.mp3` is an audio name whose stem is `stem` |
| SliceAudio.MulMonotone | scripts/slice_audio.py:30-31 | slice starts grow with the index, and each slice ends where the next one starts |
| BatchRemoveSilentFiles.IsWavName | scripts/batch_remove_silent_files.py:30 | the filter: the lowered entry name ends in ".wav" |
| BatchRemoveSilentFiles.SilentFolder | scripts/batch_remove_silent_files.py:20 | the subfolder `os.path.join(input_folder, "silent_files")` |
| BatchRemoveSilentFiles.Report.Remaining | scripts/batch_remove_silent_files.py:43 | the printed remaining count, `total_files - silent_files`, which `MoveSilentFiles` proves not negative |
| BatchRemoveSilentFiles.MoveOf | scripts/batch_remove_silent_files.py:36 | the move of an entry from the folder to `silent_files` under the same name |
| BatchRemoveSilentFiles.OutcomeOf | scripts/batch_remove_silent_files.py:30-38 | a non-wav entry is skipped; a wav entry's check raises, keeps it, or judges it silent, and then its move goes through or raises |
| BatchRemoveSilentFiles.Summary | scripts/batch_remove_silent_files.py:24-43 | `total_files` counts wav entries, `silent_files` those judged silent, the moves are those that went through, the errors the entries whose check or move raised |
| BatchRemoveSilentFiles.EntriesWith | scripts/batch_remove_silent_files.py:28-38 | the entries with a given kind of outcome are never more than the listing |
| BatchRemoveSilentFiles.MovesOf | scripts/batch_remove_silent_files.py:36 | one move per moved entry |
| BatchRemoveSilentFiles.MoveSilentFiles | scripts/batch_remove_silent_files.py:11-43 | the run's counters, moves and reported errors are the summary of the whole listing, and `silent_files <= total_files`, so the remaining count is not negative |
| BatchRemoveSilentFiles.SummarySnoc | scripts/batch_remove_silent_files.py:28-38 | one more entry bumps `total_files` if it is a wav, `silent_files` if judged silent, adds its move only if the move went through and reports it only if something raised |
| BatchRemoveSilentFiles.EntriesWithSnoc | scripts/batch_remove_silent_files.py:28-38 | one more entry adds itself to exactly the kinds its outcome belongs to |
| BatchRemoveSilentFiles.MovesOfSnoc | scripts/batch_remove_silent_files.py:36 | one more moved entry adds its move at the end |
| BatchRemoveSilentFiles.EntriesWithAppend | scripts/batch_remove_silent_files.py:28-38 | entries are handled one at a time: a listing's outcome is that of its halves, so an exception does not affect later entries |
| BatchRemoveSilentFiles.EntriesWithUnion | scripts/batch_remove_silent_files.py:31-35 | counting two disjoint kinds of outcome adds their counts |
| BatchRemoveSilentFiles.EntriesWithSubset | scripts/batch_remove_silent_files.py:31-35 | counting fewer kinds of outcome never counts more entries |
| BatchRemoveSilentFiles.CountedAreWavEntries | scripts/batch_remove_silent_files.py:28-31 | the counted entries are exactly the listing's wav entries, in order and with their repetitions, so `total_files` is their number |
| BatchRemoveSilentFiles.NonWavUntouched | scripts/batch_remove_silent_files.py:28-30 | an entry that is not a wav name changes nothing: not counted, not moved, not reported |
| BatchRemoveSilentFiles.CheckRaisesEntry | scripts/batch_remove_silent_files.py:31-38 | a wav entry whose check raises is counted in `total_files`, not in `silent_files`, is not moved and is reported |
| BatchRemoveSilentFiles.MoveRaisesEntry | scripts/batch_remove_silent_files.py:34-38 | a wav entry judged silent whose move raises is still counted as silent, is not moved and is reported |
| BatchRemoveSilentFiles.SilentEntryMoved | scripts/batch_remove_silent_files.py:34-36 | a silent entry whose move goes through is moved to `input_folder/silent_files/<same name>`, at its place in listing order |
| BatchRemoveSilentFiles.SplitIn | scripts/batch_remove_silent_files.py:28-38 | an entry of the given kinds adds itself there, at its place, and nowhere else |
| BatchRemoveSilentFiles.SplitOut | scripts/batch_remove_silent_files.py:28-38 | an entry of none of the given kinds leaves them as without it |
| BatchRemoveSilentFiles.SplitAround | scripts/batch_remove_silent_files.py:28-38 | an entry contributes only its own outcome, wherever it sits in the listing |
| RemoveSilentFromAudio.Concatenated | scripts/remove_silent_from_audio.py:34-36 | `audio[start:end]` of each interval, joined in order starting from an empty segment |
| RemoveSilentFromAudio.RemoveSilence | scripts/remove_silent_from_audio.py:27-39 | nothing is exported exactly when no interval was detected; otherwise the intervals' parts joined in order are exported as wav to the output file |
| RemoveSilentFromAudio.ConcatenatedAppend | scripts/remove_silent_from_audio.py:34-36 | the output of two interval lists is the output of the first followed by that of the second: no merging across intervals |
| RemoveSilentFromAudio.ConcatenatedLength | scripts/remove_silent_from_audio.py:35-36 | for intervals inside the audio the output length is the sum of `end - start`, overlapping intervals counted twice |
| RemoveSilentFromAudio.ConcatenatedSegment | scripts/remove_silent_from_audio.py:35-36 | interval `k` contributes exactly `audio[start:end]`, right after the parts of the intervals before it |
| TrimAudio.TrimToFirst | scripts/trim_audio.py:5-26 | the export goes to the output file as wav and is a prefix of the decoded audio of length `min(len(audio), duration_ms)` |
| TrimAudio.TrimDecodeFormat | scripts/trim_audio.py:14-15 | the input is decoded as mp3 exactly when its name ends in ".mp3" in any case with a non-dot before it, and as wav otherwise |
| TrimAudio.TrimIdempotent | scripts/trim_audio.py:23 | trimming the trimmed audio again changes nothing |

## Left out

- The fade-in and fade-out of each slice (scripts/slice_audio.py:34) are amplitude processing. Slices are exported without them.
- The silence classifier `is_silent` in utils/audio_utils.py (floating-point RMS) is an uninterpreted `isSilent` parameter, and its threshold is folded into it. utils/audio_utils.py is not part of this model.
- `detect_nonsilent` and its dBFS and minimum-length parameters belong to pydub. Its result, the interval list, is the input of `RemoveSilence`.
- The code merges, pads and clamps no intervals, so the model does not either.
- Decoding, exporting, `os.listdir`, `os.makedirs`, `os.path.exists` and `shutil.move` are I/O. They are parameters or result values. The order of `os.listdir` is whatever the `entries` sequence holds.
- Console output, argparse, the `__main__` blocks, their existence checks and `exit(1)` are left out.
- Audio is counted in whole milliseconds. pydub's rounding of millisecond positions to frames is not modelled.
- `str.lower()` is modelled for ASCII letters only. Unicode case mapping is not modelled.
- `os.path` is modelled for POSIX paths with '/' as the only separator.
- TrimAudio.TrimToFirst: takes `duration_ms` as a natural number. pydub's handling of a negative end position is not modelled.
- RemoveSilentFromAudio.RemoveSilence: takes interval bounds as natural numbers, as the detector produces them. pydub's handling of negative positions is not modelled.
- Exceptions other than the ones the model names, such as a decoder failing in `slice_audio_file`, are not modelled. Only the ZeroDivisionError of a zero slice length is.
