/** Speech synthesis of chapter text into named audio files. The speech endpoint
    and the file write are one oracle; only file naming and the returned name
    are modelled. */
module AudioService {
  import opened Wrappers
  import opened Text

  /** Synthesizes the text (first argument) and writes the audio to the path
      (second argument), or raises. */
  type SpeechOracle = (string, string) -> Outcome

  const AudioDir: string := "static/audio"

  /** `os.path.join('static/audio', name)`: an absolute name replaces the directory. */
  function AudioPath(name: string): (p: string)
    ensures StartsWith(name, "/") ==> p == name
    ensures !StartsWith(name, "/") ==> p == AudioDir + "/" + name && p != name
  {
    if |name| > 0 && name[0] == '/' then name else AudioDir + "/" + name
  }

  /** The file name `generate_audio` uses: the given one, or a fresh `<uuid>.mp3`. */
  function AudioFileName(filename: Option<string>, freshId: string): (name: string)
    ensures filename.Some? ==> name == filename.value
    ensures filename.None? ==> name == freshId + ".mp3"
    ensures filename.None? ==> StartsWith(name, freshId) && EndsWith(name, ".mp3")
  {
    match filename
    case Some(f) => f
    case None =>
      var name := freshId + ".mp3";
      assert name[..|freshId|] == freshId;
      name
  }

  /** `generate_audio(text, filename)`: writes the audio under static/audio and
      returns the bare file name; an error of the speech call or the write is re-raised.
      `freshId` stands for the UUID drawn when no name is given. */
  function GenerateAudio(text: string, filename: Option<string>, freshId: string, speech: SpeechOracle): (r: Result<string>)
    ensures r.Success? <==> speech(text, AudioPath(AudioFileName(filename, freshId))) == Pass
    ensures r.Success? ==> r.value == AudioFileName(filename, freshId)
    ensures r.Failure? ==> r.error == speech(text, AudioPath(AudioFileName(filename, freshId))).error
  {
    var name := AudioFileName(filename, freshId);
    match speech(text, AudioPath(name))
    case Pass => Success(name)
    case Fail(e) => Failure(e)
  }

  /** `chapter_<n>.mp3`. */
  function ChapterFileName(n: int): (name: string)
    ensures name == "chapter_" + IntToString(n) + ".mp3"
    ensures StartsWith(name, "chapter_") && EndsWith(name, ".mp3")
    ensures ChapterNumberOf(name) == Some(n)
  {
    var digits := IntToString(n);
    var name := "chapter_" + digits + ".mp3";
    assert name[..8] == "chapter_";
    assert name[|name| - 4..] == ".mp3";
    assert name[8..|name| - 4] == digits;
    ParseIntToString(n);
    name
  }

  /** Reads the chapter number back out of a chapter file name. */
  function ChapterNumberOf(name: string): Option<int> {
    if |name| >= 12 && name[..8] == "chapter_" && name[|name| - 4..] == ".mp3" && IsDecimalInt(name[8..|name| - 4])
    then Some(ParseInt(name[8..|name| - 4]))
    else None
  }

  /** Different chapter numbers never share a file. */
  lemma ChapterFileNamesDistinct(a: int, b: int)
    requires a != b
    ensures ChapterFileName(a) != ChapterFileName(b)
  {
    assert ChapterNumberOf(ChapterFileName(a)) == Some(a);
  }

  /** `generate_chapter_audio(content, n)`: the audio goes to `chapter_<n>.mp3`, and
      that bare name is returned; errors are re-raised. */
  function GenerateChapterAudio(content: string, n: int, speech: SpeechOracle): (r: Result<string>)
    ensures r.Success? <==> speech(content, AudioDir + "/" + ChapterFileName(n)) == Pass
    ensures r.Success? ==> r.value == ChapterFileName(n)
    ensures r.Failure? ==> r.error == speech(content, AudioDir + "/" + ChapterFileName(n)).error
  {
    GenerateAudio(content, Some(ChapterFileName(n)), "", speech)
  }
}
