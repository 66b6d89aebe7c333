/** Audio as the scripts see it through pydub: a sequence of millisecond
    frames, so that `len(audio)` is its length in milliseconds and
    `audio[a:b]` a contiguous part of it. Also the two things every script
    shares: the rule that picks the decoder from a file's extension and the
    exported file. */
module Audio {
  import opened Text
  import opened Paths
  import opened Seqs

  /** The container formats the scripts name when decoding or exporting. */
  datatype Format = Mp3 | Wav

  /** One `segment.export(path, format=...)` call: where, as what, and what audio. */
  datatype Export<F> = Export(path: string, format: Format, audio: seq<F>)

  /** `audio[start:end]` for non-negative bounds: both bounds are cut down to
      the length, and a window that is empty or reversed yields no frames. */
  function Slice<F>(audio: seq<F>, start: nat, end: nat): (r: seq<F>)
    ensures start <= end <= |audio| ==> r == audio[start..end]
    ensures |r| <= |audio|
  {
    var s := if start <= |audio| then start else |audio|;
    var e := if end <= |audio| then end else |audio|;
    if s <= e then audio[s..e] else []
  }

  /** The decoder the slicing and trimming scripts choose: "mp3" when the
      lower-cased extension is ".mp3", "wav" for anything else. */
  function DecodeFormat(path: string): Format
  {
    if Lower(Ext(path)) == ".mp3" then Mp3 else Wav
  }

  /** A path is decoded as mp3 exactly when its file name ends in ".mp3" in
      any letter case and something other than a dot comes before that
      ending; every other path, one without an extension included, is
      decoded as wav. */
  lemma DecodeFormatMp3Iff(path: string)
    ensures DecodeFormat(path) == Mp3 <==>
              var b := Basename(path);
              EndsWith(Lower(b), ".mp3") && HasNonDot(b, 0, |b| - 4)
  {
    var b := Basename(path);
    if DecodeFormat(path) == Mp3 {
      Mp3NameOfMp3Decode(path);
    }
    if EndsWith(Lower(b), ".mp3") && HasNonDot(b, 0, |b| - 4) {
      Mp3DecodeOfMp3Name(path);
    }
  }

  lemma Mp3NameOfMp3Decode(path: string)
    requires DecodeFormat(path) == Mp3
    ensures var b := Basename(path); EndsWith(Lower(b), ".mp3") && HasNonDot(b, 0, |b| - 4)
  {
    Mp3DecodeEnding(path);
    Mp3DecodeStem(path);
  }

  lemma Mp3DecodeEnding(path: string)
    requires DecodeFormat(path) == Mp3
    ensures var b := Basename(path); EndsWith(Lower(b), ".mp3")
  {
    var b := Basename(path);
    Mp3ExtAtEnd(path);
    SuffixOfSuffix(path, b, 4);
    LowerSuffix(b, |b| - 4);
  }

  /** An extension that lowers to ".mp3" is the last four characters of the
      path, all inside the file name. */
  lemma Mp3ExtAtEnd(path: string)
    requires DecodeFormat(path) == Mp3
    ensures |Basename(path)| >= 4 && Ext(path) == path[|path| - 4..]
  {
    var e := Ext(path);
    Mp3Chars(e);
    ExtPosition(path);
    var sep, dot := RFind(path, '/'), RFind(path, '.');
    assert e == path[dot..] && |e| == 4;
    assert |Basename(path)| == |path| - sep - 1;
  }

  lemma Mp3DecodeStem(path: string)
    requires DecodeFormat(path) == Mp3
    ensures var b := Basename(path); HasNonDot(b, 0, |b| - 4)
  {
    var n := |path|;
    var sep := RFind(path, '/');
    Mp3ExtAtEnd(path);
    ExtPosition(path);
    assert RFind(path, '.') == n - 4 by {
      assert |path[RFind(path, '.')..]| == |path[n - 4..]|;
    }
    HasNonDotShift(path, sep + 1, n - 4);
  }

  lemma Mp3DecodeOfMp3Name(path: string)
    requires var b := Basename(path); EndsWith(Lower(b), ".mp3") && HasNonDot(b, 0, |b| - 4)
    ensures DecodeFormat(path) == Mp3
  {
    Mp3EndingInPath(path);
    Mp3EndingDots(path);
    Mp3StemInPath(path);
    ExtAtLastDot(path);
  }

  /** The ".mp3" ending of the file name ends the whole path. */
  lemma Mp3EndingInPath(path: string)
    requires var b := Basename(path); EndsWith(Lower(b), ".mp3")
    ensures |path| >= 4 && Lower(path[|path| - 4..]) == ".mp3"
  {
    var b := Basename(path);
    SuffixOfSuffix(path, b, 4);
    LowerSuffix(b, |b| - 4);
  }

  /** The non-dot before the ending lies after the last separator. */
  lemma Mp3StemInPath(path: string)
    requires var b := Basename(path); |b| >= 4 && HasNonDot(b, 0, |b| - 4)
    ensures RFind(path, '/') < |path| - 4 && HasNonDot(path, RFind(path, '/') + 1, |path| - 4)
  {
    var b := Basename(path);
    var sep := RFind(path, '/');
    assert b == path[sep + 1..];
    var k :| 0 <= k < |b| - 4 && 0 <= k < |b| && b[k] != '.';
    assert path[sep + 1 + k] == b[k];
  }

  /** A string that lowers to ".mp3" is a dot followed by three non-dots. */
  lemma Mp3Chars(e: string)
    requires Lower(e) == ".mp3"
    ensures |e| == 4 && e[0] == '.' && e[1] != '.' && e[2] != '.' && e[3] != '.'
  {
    assert |e| == 4;
    LowerCharDot(e[0]);
    LowerCharDot(e[1]);
    LowerCharDot(e[2]);
    LowerCharDot(e[3]);
  }

  /** A path whose last four characters lower to ".mp3" has its last dot there. */
  lemma Mp3EndingDots(path: string)
    requires |path| >= 4 && Lower(path[|path| - 4..]) == ".mp3"
    ensures RFind(path, '.') == |path| - 4
  {
    var n := |path|;
    var tail := path[n - 4..];
    Mp3Chars(tail);
    assert path[n - 4] == tail[0];
    forall k | n - 4 < k < n
      ensures path[k] != '.'
    {
      if k == n - 3 {
        assert path[k] == tail[1];
      } else if k == n - 2 {
        assert path[k] == tail[2];
      } else {
        assert path[k] == tail[3];
      }
    }
    RFindAt(path, '.', n - 4);
  }
}
