/** scripts/batch_remove_silent_files.py: go through the entries of a folder,
    ask the silence classifier about every ".wav" entry (any letter case), and
    move the entries it calls silent into the folder's "silent_files"
    subfolder, counting the wav entries and the silent ones. The classifier
    and the move are the script's collaborators: here they are parameters,
    and either may raise. */
module BatchRemoveSilentFiles {
  import opened Text
  import opened Paths
  import opened Seqs

  /** What `is_silent(filepath, threshold)` does for one file, the threshold
      being fixed for the run: it answers, or it raises. */
  datatype Verdict = Silent | NotSilent | Raises

  /** One `shutil.move(source, target)`. */
  datatype Move = Move(source: string, target: string)

  /** What happened to one directory entry. */
  datatype EntryOutcome =
    | Skipped      // not a ".wav" name: neither counted nor looked at
    | Kept         // judged not silent
    | MovedOut     // judged silent and moved
    | MoveFailed   // judged silent, but the move raised
    | CheckFailed  // the silence check raised

  /** The entries `total_files` counts. */
  const Counted: set<EntryOutcome> := {Kept, MovedOut, MoveFailed, CheckFailed}

  /** The entries `silent_files` counts. */
  const JudgedSilent: set<EntryOutcome> := {MovedOut, MoveFailed}

  /** The entries whose exception the script catches and reports. */
  const Failed: set<EntryOutcome> := {CheckFailed, MoveFailed}

  /** The counters and the effects of one run: the files moved, in order, and
      the names reported in an "Error processing" line, in order. */
  datatype Report = Report(total: nat, silent: nat, moved: seq<Move>, errors: seq<string>)
  {
    /** The "Remaining files in folder" line of the summary. */
    function Remaining(): int
    {
      total - silent
    }
  }

  /** The filter: the lower-cased name ends in ".wav". */
  predicate IsWavName(name: string)
  {
    EndsWith(Lower(name), ".wav")
  }

  /** `os.path.join(input_folder, "silent_files")` */
  function SilentFolder(inputFolder: string): string
  {
    Join(inputFolder, "silent_files")
  }

  /** The move of a silent entry: from the folder into "silent_files", under
      the same file name. */
  function MoveOf(inputFolder: string, name: string): Move
  {
    Move(Join(inputFolder, name), Join(SilentFolder(inputFolder), name))
  }

  /** How the loop body treats one entry. The counter is bumped before the
      `try`, the silent count before the move, so where an exception strikes
      decides what has already been counted. */
  function OutcomeOf(inputFolder: string, name: string, isSilent: string -> Verdict, moveFails: Move -> bool): EntryOutcome
  {
    if !IsWavName(name) then Skipped
    else
      var verdict := isSilent(Join(inputFolder, name));
      if verdict == Raises then CheckFailed
      else if verdict == NotSilent then Kept
      else if moveFails(MoveOf(inputFolder, name)) then MoveFailed
      else MovedOut
  }

  /** The entries whose outcome is one of `kinds`, in listing order. */
  function EntriesWith(inputFolder: string, entries: seq<string>, isSilent: string -> Verdict, moveFails: Move -> bool,
                       kinds: set<EntryOutcome>): (r: seq<string>)
    ensures |r| <= |entries|
  {
    if entries == [] then []
    else
      var rest := EntriesWith(inputFolder, entries[..|entries| - 1], isSilent, moveFails, kinds);
      var name := entries[|entries| - 1];
      if OutcomeOf(inputFolder, name, isSilent, moveFails) in kinds then rest + [name] else rest
  }

  /** The moves of the given entries, in order. */
  function MovesOf(inputFolder: string, names: seq<string>): (r: seq<Move>)
    ensures |r| == |names|
  {
    seq(|names|, i requires 0 <= i < |names| => MoveOf(inputFolder, names[i]))
  }

  /** The report a run over `entries` gives: `total_files` counts the wav
      entries, `silent_files` those judged silent, the moves are those of the
      silent entries whose move went through, and the errors name every entry
      whose check or move raised. */
  function Summary(inputFolder: string, entries: seq<string>, isSilent: string -> Verdict, moveFails: Move -> bool): Report
  {
    Report(|EntriesWith(inputFolder, entries, isSilent, moveFails, Counted)|,
           |EntriesWith(inputFolder, entries, isSilent, moveFails, JudgedSilent)|,
           MovesOf(inputFolder, EntriesWith(inputFolder, entries, isSilent, moveFails, {MovedOut})),
           EntriesWith(inputFolder, entries, isSilent, moveFails, Failed))
  }

  /** `move_silent_files`: the run reports the summary of the whole listing,
      whatever raised on the way, and never counts more silent files than
      files, so the remaining count it prints is not negative. */
  method MoveSilentFiles(inputFolder: string, entries: seq<string>, isSilent: string -> Verdict, moveFails: Move -> bool)
    returns (report: Report)
    ensures report == Summary(inputFolder, entries, isSilent, moveFails)
    ensures report.silent <= report.total && report.Remaining() >= 0
  {
    var outputFolder := Join(inputFolder, "silent_files");
    var totalFiles: nat := 0;
    var silentFiles: nat := 0;
    var moved: seq<Move> := [];
    var errors: seq<string> := [];
    for k := 0 to |entries|
      invariant Report(totalFiles, silentFiles, moved, errors) == Summary(inputFolder, entries[..k], isSilent, moveFails)
      invariant silentFiles <= totalFiles
    {
      SummarySnoc(inputFolder, entries, k, isSilent, moveFails);
      ghost var outcome := OutcomeOf(inputFolder, entries[k], isSilent, moveFails);
      var filename := entries[k];
      var filepath := Join(inputFolder, filename);
      if EndsWith(Lower(filename), ".wav") {
        totalFiles := totalFiles + 1;
        var raised := false;
        var verdict := isSilent(filepath);
        if verdict == Raises {
          assert outcome == CheckFailed;
          raised := true;
        } else if verdict == Silent {
          silentFiles := silentFiles + 1;
          var move := Move(filepath, Join(outputFolder, filename));
          if moveFails(move) {
            assert outcome == MoveFailed;
            raised := true;
          } else {
            assert outcome == MovedOut;
            moved := moved + [move];
          }
        } else {
          assert outcome == Kept;
        }
        if raised {
          errors := errors + [filename];
        }
      } else {
        assert outcome == Skipped;
      }
    }
    assert entries[..|entries|] == entries;
    report := Report(totalFiles, silentFiles, moved, errors);
  }

  /** One more entry changes the summary by that entry's outcome only. */
  lemma SummarySnoc(inputFolder: string, entries: seq<string>, k: nat, isSilent: string -> Verdict, moveFails: Move -> bool)
    requires k < |entries|
    ensures var before := Summary(inputFolder, entries[..k], isSilent, moveFails);
            var after := Summary(inputFolder, entries[..k + 1], isSilent, moveFails);
            var outcome := OutcomeOf(inputFolder, entries[k], isSilent, moveFails);
            after.total == before.total + (if outcome in Counted then 1 else 0) &&
            after.silent == before.silent + (if outcome in JudgedSilent then 1 else 0) &&
            after.moved == before.moved + (if outcome == MovedOut then [MoveOf(inputFolder, entries[k])] else []) &&
            after.errors == before.errors + (if outcome in Failed then [entries[k]] else [])
  {
    EntriesWithSnoc(inputFolder, entries, k, isSilent, moveFails, Counted);
    EntriesWithSnoc(inputFolder, entries, k, isSilent, moveFails, JudgedSilent);
    EntriesWithSnoc(inputFolder, entries, k, isSilent, moveFails, {MovedOut});
    EntriesWithSnoc(inputFolder, entries, k, isSilent, moveFails, Failed);
    var names := EntriesWith(inputFolder, entries[..k], isSilent, moveFails, {MovedOut});
    MovesOfSnoc(inputFolder, names, entries[k]);
  }

  lemma MovesOfSnoc(inputFolder: string, names: seq<string>, name: string)
    ensures MovesOf(inputFolder, names + [name]) == MovesOf(inputFolder, names) + [MoveOf(inputFolder, name)]
  {
  }

  lemma EntriesWithSnoc(inputFolder: string, entries: seq<string>, k: nat, isSilent: string -> Verdict,
                        moveFails: Move -> bool, kinds: set<EntryOutcome>)
    requires k < |entries|
    ensures EntriesWith(inputFolder, entries[..k + 1], isSilent, moveFails, kinds) ==
            EntriesWith(inputFolder, entries[..k], isSilent, moveFails, kinds) +
            (if OutcomeOf(inputFolder, entries[k], isSilent, moveFails) in kinds then [entries[k]] else [])
  {
    assert entries[..k + 1][..k] == entries[..k];
  }

  /** Entries are handled one at a time: what a listing's entries end up as is
      what its two halves end up as, one after the other. An entry whose
      check or move raised changes nothing for the entries after it. */
  lemma {:induction false} EntriesWithAppend(inputFolder: string, a: seq<string>, b: seq<string>, isSilent: string -> Verdict,
                                             moveFails: Move -> bool, kinds: set<EntryOutcome>)
    ensures EntriesWith(inputFolder, a + b, isSilent, moveFails, kinds) ==
            EntriesWith(inputFolder, a, isSilent, moveFails, kinds) + EntriesWith(inputFolder, b, isSilent, moveFails, kinds)
    decreases |b|
  {
    if b == [] {
      assert a + b == a;
    } else {
      var b' := b[..|b| - 1];
      assert (a + b)[..|a + b| - 1] == a + b';
      assert (a + b)[|a + b| - 1] == b[|b| - 1];
      EntriesWithAppend(inputFolder, a, b', isSilent, moveFails, kinds);
    }
  }

  /** Counting the union of two disjoint kinds of outcome counts each kind
      separately: `silent_files` is the number of files moved plus the number
      of silent files whose move raised, and `total_files` is the kept files
      plus the silent files plus the files whose check raised. */
  lemma {:induction false} EntriesWithUnion(inputFolder: string, entries: seq<string>, isSilent: string -> Verdict,
                                            moveFails: Move -> bool, k1: set<EntryOutcome>, k2: set<EntryOutcome>)
    requires k1 !! k2
    ensures |EntriesWith(inputFolder, entries, isSilent, moveFails, k1 + k2)| ==
            |EntriesWith(inputFolder, entries, isSilent, moveFails, k1)| + |EntriesWith(inputFolder, entries, isSilent, moveFails, k2)|
    decreases |entries|
  {
    if entries != [] {
      EntriesWithUnion(inputFolder, entries[..|entries| - 1], isSilent, moveFails, k1, k2);
    }
  }

  /** Counting fewer kinds of outcome never counts more entries. */
  lemma {:induction false} EntriesWithSubset(inputFolder: string, entries: seq<string>, isSilent: string -> Verdict,
                                             moveFails: Move -> bool, k1: set<EntryOutcome>, k2: set<EntryOutcome>)
    requires k1 <= k2
    ensures |EntriesWith(inputFolder, entries, isSilent, moveFails, k1)| <= |EntriesWith(inputFolder, entries, isSilent, moveFails, k2)|
    decreases |entries|
  {
    if entries != [] {
      EntriesWithSubset(inputFolder, entries[..|entries| - 1], isSilent, moveFails, k1, k2);
    }
  }

  /** The counted entries are exactly the wav entries of the listing, in
      order and with their repetitions, so `total_files` is the number of
      wav entries. */
  lemma {:induction false} CountedAreWavEntries(inputFolder: string, entries: seq<string>, isSilent: string -> Verdict, moveFails: Move -> bool)
    ensures EntriesWith(inputFolder, entries, isSilent, moveFails, Counted) == Filter(entries, IsWavName)
    decreases |entries|
  {
    if entries != [] {
      CountedAreWavEntries(inputFolder, entries[..|entries| - 1], isSilent, moveFails);
    }
  }

  /** An entry that is not a wav name is neither counted nor moved nor
      reported: the summary is the one of the listing without it. */
  lemma NonWavUntouched(inputFolder: string, before: seq<string>, name: string, after: seq<string>,
                        isSilent: string -> Verdict, moveFails: Move -> bool)
    requires !IsWavName(name)
    ensures Summary(inputFolder, before + [name] + after, isSilent, moveFails) == Summary(inputFolder, before + after, isSilent, moveFails)
  {
    assert OutcomeOf(inputFolder, name, isSilent, moveFails) == Skipped;
    SplitOut(inputFolder, before, name, after, isSilent, moveFails, Counted);
    SplitOut(inputFolder, before, name, after, isSilent, moveFails, JudgedSilent);
    SplitOut(inputFolder, before, name, after, isSilent, moveFails, {MovedOut});
    SplitOut(inputFolder, before, name, after, isSilent, moveFails, Failed);
  }

  /** A wav entry whose silence check raises is counted in `total_files`, not
      in `silent_files`, is not moved, is reported, and the entries after it
      are handled as if it were not there. */
  lemma CheckRaisesEntry(inputFolder: string, before: seq<string>, name: string, after: seq<string>,
      isSilent: string -> Verdict, moveFails: Move -> bool)
    requires IsWavName(name) && isSilent(Join(inputFolder, name)) == Raises
    ensures |EntriesWith(inputFolder, before + [name] + after, isSilent, moveFails, Counted)| == |EntriesWith(inputFolder, before + after, isSilent, moveFails, Counted)| + 1
    ensures EntriesWith(inputFolder, before + [name] + after, isSilent, moveFails, JudgedSilent) == EntriesWith(inputFolder, before + after, isSilent, moveFails, JudgedSilent)
    ensures EntriesWith(inputFolder, before + [name] + after, isSilent, moveFails, {MovedOut}) == EntriesWith(inputFolder, before + after, isSilent, moveFails, {MovedOut})
    ensures EntriesWith(inputFolder, before + [name] + after, isSilent, moveFails, Failed) ==
              EntriesWith(inputFolder, before, isSilent, moveFails, Failed) + [name] + EntriesWith(inputFolder, after, isSilent, moveFails, Failed)
  {
    assert OutcomeOf(inputFolder, name, isSilent, moveFails) == CheckFailed;
    SplitIn(inputFolder, before, name, after, isSilent, moveFails, Counted);
    SplitOut(inputFolder, before, name, after, isSilent, moveFails, JudgedSilent);
    SplitOut(inputFolder, before, name, after, isSilent, moveFails, {MovedOut});
    SplitIn(inputFolder, before, name, after, isSilent, moveFails, Failed);
  }

  /** A wav entry judged silent whose move raises is still counted in
      `silent_files` (the count is bumped before the move), but it is not
      among the moved files and it is reported. */
  lemma MoveRaisesEntry(inputFolder: string, before: seq<string>, name: string, after: seq<string>,
      isSilent: string -> Verdict, moveFails: Move -> bool)
    requires IsWavName(name) && isSilent(Join(inputFolder, name)) == Silent && moveFails(MoveOf(inputFolder, name))
    ensures |EntriesWith(inputFolder, before + [name] + after, isSilent, moveFails, Counted)| == |EntriesWith(inputFolder, before + after, isSilent, moveFails, Counted)| + 1
    ensures |EntriesWith(inputFolder, before + [name] + after, isSilent, moveFails, JudgedSilent)| == |EntriesWith(inputFolder, before + after, isSilent, moveFails, JudgedSilent)| + 1
    ensures EntriesWith(inputFolder, before + [name] + after, isSilent, moveFails, {MovedOut}) == EntriesWith(inputFolder, before + after, isSilent, moveFails, {MovedOut})
    ensures EntriesWith(inputFolder, before + [name] + after, isSilent, moveFails, Failed) ==
              EntriesWith(inputFolder, before, isSilent, moveFails, Failed) + [name] + EntriesWith(inputFolder, after, isSilent, moveFails, Failed)
  {
    assert OutcomeOf(inputFolder, name, isSilent, moveFails) == MoveFailed;
    SplitIn(inputFolder, before, name, after, isSilent, moveFails, Counted);
    SplitIn(inputFolder, before, name, after, isSilent, moveFails, JudgedSilent);
    SplitOut(inputFolder, before, name, after, isSilent, moveFails, {MovedOut});
    SplitIn(inputFolder, before, name, after, isSilent, moveFails, Failed);
  }

  /** A wav entry judged silent whose move goes through is counted in both
      counters and moved to "silent_files" under its own name. */
  lemma SilentEntryMoved(inputFolder: string, before: seq<string>, name: string, after: seq<string>,
                         isSilent: string -> Verdict, moveFails: Move -> bool)
    requires IsWavName(name) && isSilent(Join(inputFolder, name)) == Silent && !moveFails(MoveOf(inputFolder, name))
    ensures var all := before + [name] + after;
            var moved := MovesOf(inputFolder, EntriesWith(inputFolder, all, isSilent, moveFails, {MovedOut}));
            var i := |EntriesWith(inputFolder, before, isSilent, moveFails, {MovedOut})|;
            i < |moved| && moved[i] == Move(Join(inputFolder, name), Join(Join(inputFolder, "silent_files"), name))
  {
    SplitAround(inputFolder, before, name, after, isSilent, moveFails, {MovedOut});
  }

  lemma SplitAround(inputFolder: string, before: seq<string>, name: string, after: seq<string>,
                    isSilent: string -> Verdict, moveFails: Move -> bool, kinds: set<EntryOutcome>)
    ensures var one := if OutcomeOf(inputFolder, name, isSilent, moveFails) in kinds then [name] else [];
            EntriesWith(inputFolder, before + [name] + after, isSilent, moveFails, kinds) ==
              EntriesWith(inputFolder, before, isSilent, moveFails, kinds) + one + EntriesWith(inputFolder, after, isSilent, moveFails, kinds) &&
            EntriesWith(inputFolder, before + after, isSilent, moveFails, kinds) ==
              EntriesWith(inputFolder, before, isSilent, moveFails, kinds) + EntriesWith(inputFolder, after, isSilent, moveFails, kinds)
  {
    EntriesWithAppend(inputFolder, before + [name], after, isSilent, moveFails, kinds);
    EntriesWithAppend(inputFolder, before, [name], isSilent, moveFails, kinds);
    EntriesWithAppend(inputFolder, before, after, isSilent, moveFails, kinds);
    assert [name][..0] == [];
  }

  /** An entry of one of `kinds`, wherever it sits, adds itself there and
      only there. */
  lemma SplitIn(inputFolder: string, before: seq<string>, name: string, after: seq<string>,
                isSilent: string -> Verdict, moveFails: Move -> bool, kinds: set<EntryOutcome>)
    requires OutcomeOf(inputFolder, name, isSilent, moveFails) in kinds
    ensures EntriesWith(inputFolder, before + [name] + after, isSilent, moveFails, kinds) ==
              EntriesWith(inputFolder, before, isSilent, moveFails, kinds) + [name] + EntriesWith(inputFolder, after, isSilent, moveFails, kinds)
    ensures |EntriesWith(inputFolder, before + [name] + after, isSilent, moveFails, kinds)| ==
              |EntriesWith(inputFolder, before + after, isSilent, moveFails, kinds)| + 1
  {
    SplitAround(inputFolder, before, name, after, isSilent, moveFails, kinds);
  }

  /** An entry of none of `kinds` leaves the entries of those kinds as they
      would be without it. */
  lemma SplitOut(inputFolder: string, before: seq<string>, name: string, after: seq<string>,
                 isSilent: string -> Verdict, moveFails: Move -> bool, kinds: set<EntryOutcome>)
    requires OutcomeOf(inputFolder, name, isSilent, moveFails) !in kinds
    ensures EntriesWith(inputFolder, before + [name] + after, isSilent, moveFails, kinds) ==
              EntriesWith(inputFolder, before + after, isSilent, moveFails, kinds)
  {
    SplitAround(inputFolder, before, name, after, isSilent, moveFails, kinds);
  }
}
