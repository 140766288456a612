/** The high-score file both games keep: one line holding the integer. */
module HighScoreFile {
  import opened JavaText

  /** loadHighScore: a first line that is present, non-empty and a number
      becomes the high score; a missing file, an empty file or first line, or
      a first line that is not a number all leave the high score as it was. */
  function LoadHighScore(current: int, file: Option<seq<string>>): (r: int)
    ensures (file.Some? && |file.value| > 0 && file.value[0] != "" && ParseInt(file.value[0]).Some?) ==>
      r == ParseInt(file.value[0]).value
    ensures !(file.Some? && |file.value| > 0 && file.value[0] != "" && ParseInt(file.value[0]).Some?) ==>
      r == current
  {
    if file.None? || |file.value| == 0 || file.value[0] == "" then current
    else match ParseInt(file.value[0])
      case None => current
      case Some(h) => h
  }

  /** saveHighScore: the high score written by String.valueOf. */
  function HighScoreText(highScore: int): seq<string> {
    [IntToString(highScore)]
  }

  /** Reading back a saved high score gives it back, whatever was there before. */
  lemma HighScoreRoundTrip(highScore: int, current: int)
    requires InInt32(highScore)
    ensures LoadHighScore(current, Some(HighScoreText(highScore))) == highScore
  {
    ParseIntOfIntToString(highScore);
  }

  /** Four files that cannot be read or parsed: no file, no line, an empty
      line and a first line that is a word. Each leaves the high score alone. */
  lemma UnreadableHighScoreKept(current: int)
    ensures LoadHighScore(current, None) == current
    ensures LoadHighScore(current, Some([])) == current
    ensures LoadHighScore(current, Some([""])) == current
    ensures LoadHighScore(current, Some(["best"])) == current
  {
    assert !IsDigit('b');
  }
}
