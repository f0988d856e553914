/**
 * The two text helpers of client/src/components/HeroSection.jsx: `trimWords`, which
 * shortens the overview to a number of space-separated words, and the genre line.
 */
module HeroSection {
  import opened Wrappers
  import opened JsText

  datatype Genre = Genre(name: string)

  const ELLIPSIS: string := "..."
  const GENRE_SEPARATOR: string := " | "
  const MAX_GENRES: nat := 3

  /**
   * `trimWords`: text with at most `wordLimit` space-separated words is returned as it
   * is; longer text is cut to its first `wordLimit` words, joined by one space, and
   * "..." is appended. The part before "..." is a prefix of the text.
   */
  function TrimWords(text: string, wordLimit: nat): (r: string)
    ensures |Split(text, ' ')| <= wordLimit ==> r == text
    ensures |Split(text, ' ')| > wordLimit ==>
      |r| >= |ELLIPSIS| && r[|r| - |ELLIPSIS|..] == ELLIPSIS && r[..|r| - |ELLIPSIS|] <= text
  {
    var words := Split(text, ' ');
    if |words| > wordLimit then
      JoinPrefix(words, " ", wordLimit);
      JoinSplit(text, ' ');
      var kept := Join(words[..wordLimit], " ");
      assert (kept + ELLIPSIS)[..|kept|] == kept;
      kept + ELLIPSIS
    else text
  }

  /** Trimmed text holds exactly `wordLimit` words before the "...", the first ones of the text. */
  lemma TrimmedWords(text: string, wordLimit: nat)
    requires wordLimit >= 1 && |Split(text, ' ')| > wordLimit
    ensures var r := TrimWords(text, wordLimit);
      Split(r[..|r| - |ELLIPSIS|], ' ') == Split(text, ' ')[..wordLimit]
  {
    var words := Split(text, ' ');
    var kept := Join(words[..wordLimit], " ");
    assert TrimWords(text, wordLimit) == kept + ELLIPSIS;
    assert (kept + ELLIPSIS)[..|kept|] == kept;
    SplitJoin(words[..wordLimit], ' ');
  }

  /** The names of the first (at most) three genres. */
  function FirstNames(genres: seq<Genre>): (names: seq<string>)
    ensures |names| == if |genres| < MAX_GENRES then |genres| else MAX_GENRES
    ensures forall i :: 0 <= i < |names| ==> names[i] == genres[i].name
  {
    var k := if |genres| < MAX_GENRES then |genres| else MAX_GENRES;
    seq(k, i requires 0 <= i < k => genres[i].name)
  }

  /** `genres?.slice(0, 3).map(g => g.name).join(' | ') || ''`. */
  function GenreSummary(genres: Option<seq<Genre>>): (r: string)
    ensures genres.None? || genres.value == [] ==> r == ""
  {
    if genres.None? then "" else Join(FirstNames(genres.value), GENRE_SEPARATOR)
  }

  /**
   * With names free of '|', the line lists exactly min(3, count) names: piece `i` of
   * its split at '|' is the name of genre `i`, with the separator's spaces around it.
   */
  lemma GenreSummaryPieces(genres: seq<Genre>)
    requires genres != []
    requires forall i :: 0 <= i < |genres| ==> '|' !in genres[i].name
    ensures |Split(GenreSummary(Some(genres)), '|')| == |FirstNames(genres)|
    ensures |FirstNames(genres)| <= MAX_GENRES
    ensures var names := FirstNames(genres);
      forall i :: 0 <= i < |names| ==>
        Split(GenreSummary(Some(genres)), '|')[i] ==
          (if i > 0 then " " else "") + genres[i].name + (if i < |names| - 1 then " " else "")
  {
    assert GENRE_SEPARATOR == " " + ['|'] + " ";
    SplitJoinCount(FirstNames(genres), " ", '|', " ");
  }
}
