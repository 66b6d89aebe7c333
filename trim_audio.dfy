/** scripts/trim_audio.py: keep the first `duration_ms` milliseconds of a
    file and export them as wav. */
module TrimAudio {
  import opened Audio

  /** What a trim does: the decoder it asks for, and the file it exports. */
  datatype Trim<F> = Trim(decodeFormat: Format, file: Export<F>)

  /** `trim_to_first_30_seconds` for a non-negative `duration_ms`: decode as
      the extension says, take `audio[:duration_ms]` and export it as wav to
      the output file. The result is a prefix of the decoded audio of length
      `min(len(audio), duration_ms)`. */
  function TrimToFirst<F>(inputFile: string, outputFile: string, decode: (string, Format) -> seq<F>, durationMs: nat): (r: Trim<F>)
    ensures r.file.path == outputFile && r.file.format == Wav
    ensures var audio := decode(inputFile, r.decodeFormat);
            r.file.audio <= audio &&
            |r.file.audio| == (if |audio| <= durationMs then |audio| else durationMs)
  {
    var audioFormat := DecodeFormat(inputFile);
    var audio := decode(inputFile, audioFormat);
    Trim(audioFormat, Export(outputFile, Wav, Slice(audio, 0, durationMs)))
  }

  /** The decoder is mp3 exactly for file names ending in ".mp3" in any
      letter case with something other than dots before it. */
  lemma TrimDecodeFormat<F>(inputFile: string, outputFile: string, decode: (string, Format) -> seq<F>, durationMs: nat)
    ensures TrimToFirst(inputFile, outputFile, decode, durationMs).decodeFormat == Mp3 <==>
              var b := Paths.Basename(inputFile);
              Text.EndsWith(Text.Lower(b), ".mp3") && Paths.HasNonDot(b, 0, |b| - 4)
  {
    DecodeFormatMp3Iff(inputFile);
  }

  /** Trimming again to the same duration changes nothing. */
  lemma TrimIdempotent<F>(audio: seq<F>, durationMs: nat)
    ensures Slice(Slice(audio, 0, durationMs), 0, durationMs) == Slice(audio, 0, durationMs)
  {
  }
}
