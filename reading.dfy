/** The reading-time estimate shown on the list and the detail page: one
    minute per started block of 200 words, never less than one. */
module Reading {
  import opened Common
  import opened Text

  const WordsPerMinute: nat := 200

  /** The least whole number of minutes, at least one, in which `words` words
      are read at 200 words a minute. */
  function ReadingMinutes(words: nat): (m: nat)
    ensures m >= 1 && words <= WordsPerMinute * m
    ensures m == 1 || words > WordsPerMinute * (m - 1)
  {
    if words <= WordsPerMinute then 1 else 1 + ReadingMinutes(words - WordsPerMinute)
  }

  /** More words never take less time, and a second minute is needed exactly
      beyond 200 words. */
  lemma ReadingMinutesMonotone(a: nat, b: nat)
    requires a <= b
    ensures ReadingMinutes(a) <= ReadingMinutes(b)
    ensures ReadingMinutes(a) > 1 <==> a > WordsPerMinute
  {
    var ma, mb := ReadingMinutes(a), ReadingMinutes(b);
    if ma > 1 {
      assert WordsPerMinute * (ma - 1) < WordsPerMinute * mb;
    }
  }

  /** `Math.max(1, Math.ceil(words / 200))` on a whole number of words. */
  function MinutesFor(words: nat): nat {
    var ceil := (words + WordsPerMinute - 1) / WordsPerMinute;
    if ceil < 1 then 1 else ceil
  }

  /** The page's arithmetic gives the least sufficient number of minutes. */
  lemma {:induction false} MinutesForIsReadingMinutes(words: nat)
    ensures MinutesFor(words) == ReadingMinutes(words)
    decreases words
  {
    if words > WordsPerMinute {
      MinutesForIsReadingMinutes(words - WordsPerMinute);
      assert (words + WordsPerMinute - 1) / WordsPerMinute
          == 1 + (words - WordsPerMinute + WordsPerMinute - 1) / WordsPerMinute;
    }
  }

  /** The label `${minutes} min read`. */
  function MinutesLabel(minutes: nat): string {
    Decimal(minutes) + " min read"
  }

  /** `getReadingTime(content)`: `"1 min"` for missing or empty content, and
      otherwise `"<m> min read"`, where the words are the pieces of the
      untrimmed content split on runs of whitespace. */
  function GetReadingTime(content: Option<string>): (r: string)
    ensures content.None? || content.value == "" ==> r == "1 min"
    ensures content.Some? && content.value != "" ==>
      r == MinutesLabel(ReadingMinutes(|Split(content.value)|))
  {
    if content.None? || content.value == "" then "1 min"
    else
      var words := |Split(content.value)|;
      MinutesForIsReadingMinutes(words);
      MinutesLabel(MinutesFor(words))
  }

  lemma ReadingTimeOfCount(content: string, pieces: nat)
    requires content != "" && |Split(content)| == pieces
    ensures GetReadingTime(Some(content)) == MinutesLabel(ReadingMinutes(pieces))
  {
  }

  /** The piece count over-counts the words by one for whitespace at the start
      and one for whitespace at the end of the content. */
  lemma ReadingTimeCountsPieces(content: string)
    requires content != ""
    ensures GetReadingTime(Some(content))
         == MinutesLabel(ReadingMinutes(Words(content) + Leading(content) + Trailing(content)))
  {
    SplitLength(content);
    ReadingTimeOfCount(content, Words(content) + Leading(content) + Trailing(content));
  }
}
