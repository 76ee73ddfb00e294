/**
 * The fill-in-the-blank word puzzles: a word shown as letter tiles with
 * exactly one tile left blank, and the table of puzzles the game offers.
 */
module WordPuzzles {
  import opened Ascii

  /** A tile colour, as red, green and blue components. */
  datatype Rgb = Rgb(red: real, green: real, blue: real)

  /** One letter tile; the blank tile hides its character. */
  datatype WordLetter = WordLetter(character: char, isBlank: bool)

  datatype WordPuzzle = WordPuzzle(
    word: string,
    modelName: string,
    tileColor: Rgb,
    letters: seq<WordLetter>,
    blankIndex: int,
    missingLetter: char)

  function Min(a: int, b: int): int { if a <= b then a else b }

  /** Number of blank tiles in a row of tiles. */
  function BlankCount(letters: seq<WordLetter>): (n: nat)
    ensures n <= |letters|
  {
    if letters == [] then 0
    else (if letters[0].isBlank then 1 else 0) + BlankCount(letters[1..])
  }

  /** The word the tiles spell. */
  function Spelling(letters: seq<WordLetter>): (s: string)
    ensures |s| == |letters|
    ensures forall i :: 0 <= i < |s| ==> s[i] == letters[i].character
  {
    seq(|letters|, i requires 0 <= i < |letters| => letters[i].character)
  }

  /** What every puzzle built by Make satisfies. */
  ghost predicate WellFormed(p: WordPuzzle) {
    && |p.letters| == |p.word|
    && 0 <= p.blankIndex < |p.letters|
    && Spelling(p.letters) == p.word
    && (forall i :: 0 <= i < |p.letters| ==> (p.letters[i].isBlank <==> i == p.blankIndex))
    && p.missingLetter == p.letters[p.blankIndex].character
  }

  /** The tiles of `chars`, with only the tile at `blank` blank. */
  function Tiles(chars: string, blank: int): (letters: seq<WordLetter>)
    ensures |letters| == |chars|
    ensures forall i :: 0 <= i < |chars| ==>
      letters[i].character == chars[i] && (letters[i].isBlank <==> i == blank)
  {
    seq(|chars|, i requires 0 <= i < |chars| => WordLetter(chars[i], i == blank))
  }

  /**
   * `WordPuzzle.make`: the word is upper-cased, the blank position is
   * clamped to the last letter, and the letter under the blank is recorded.
   * An empty word or a negative position puts `chars[blankIdx]` out of
   * bounds, which traps, so neither is accepted.
   */
  function Make(word: string, modelName: string, color: Rgb, blankAt: int): (p: WordPuzzle)
    requires |word| > 0 && blankAt >= 0
    ensures p.word == Upper(word) && p.modelName == modelName && p.tileColor == color
    ensures p.blankIndex == Min(blankAt, |word| - 1)
    ensures |p.letters| == |word| && 0 <= p.blankIndex < |p.letters|
    ensures forall i :: 0 <= i < |p.letters| ==>
      p.letters[i].character == p.word[i] && (p.letters[i].isBlank <==> i == p.blankIndex)
    ensures p.missingLetter == p.letters[p.blankIndex].character
    ensures WellFormed(p)
  {
    var chars := Upper(word);
    var blankIdx := Min(blankAt, |chars| - 1);
    WordPuzzle(Upper(word), modelName, color, Tiles(chars, blankIdx), blankIdx, chars[blankIdx])
  }

  /** A well-formed puzzle has exactly one blank tile. */
  lemma ExactlyOneBlank(p: WordPuzzle)
    requires WellFormed(p)
    ensures BlankCount(p.letters) == 1
  {
    BlankCountAt(p.letters, p.blankIndex);
  }

  lemma {:induction false} BlankCountAt(letters: seq<WordLetter>, b: int)
    requires 0 <= b < |letters|
    requires forall i :: 0 <= i < |letters| ==> (letters[i].isBlank <==> i == b)
    ensures BlankCount(letters) == 1
  {
    if b == 0 {
      NoBlanks(letters[1..]);
    } else {
      BlankCountAt(letters[1..], b - 1);
    }
  }

  lemma {:induction false} NoBlanks(letters: seq<WordLetter>)
    requires forall i :: 0 <= i < |letters| ==> !letters[i].isBlank
    ensures BlankCount(letters) == 0
  {
    if letters != [] {
      NoBlanks(letters[1..]);
    }
  }

  /** The puzzle only depends on the word up to case. */
  lemma MakeIgnoresCase(word: string, modelName: string, color: Rgb, blankAt: int)
    requires |word| > 0 && blankAt >= 0
    ensures Make(Upper(word), modelName, color, blankAt) == Make(word, modelName, color, blankAt)
  {
    UpperIdempotent(word);
  }

  /** `WordPuzzle.all`, every entry made with the default blank position 1. */
  function All(): (puzzles: seq<WordPuzzle>)
    ensures |puzzles| == 6
    ensures forall i :: 0 <= i < |puzzles| ==>
      WellFormed(puzzles[i]) && |puzzles[i].word| == 3 && puzzles[i].blankIndex == 1
  {
    [ Make("BAG", "bag", Rgb(0.95, 0.55, 0.20), 1),
      Make("BAT", "bat", Rgb(0.55, 0.45, 0.75), 1),
      Make("CAT", "cat", Rgb(1.0, 0.45, 0.45), 1),
      Make("HEN", "hen", Rgb(0.95, 0.65, 0.15), 1),
      Make("KEY", "key", Rgb(0.38, 0.72, 0.98), 1),
      Make("SUN", "sun", Rgb(1.0, 0.78, 0.10), 1) ]
  }

  /** The words of the table and the letters each one hides. */
  lemma AllWords()
    ensures |All()| == 6
    ensures All()[0].word == "BAG" && All()[0].missingLetter == 'A'
    ensures All()[1].word == "BAT" && All()[1].missingLetter == 'A'
    ensures All()[2].word == "CAT" && All()[2].missingLetter == 'A'
    ensures All()[3].word == "HEN" && All()[3].missingLetter == 'E'
    ensures All()[4].word == "KEY" && All()[4].missingLetter == 'E'
    ensures All()[5].word == "SUN" && All()[5].missingLetter == 'U'
  {
    assert Upper("BAG") == "BAG";
    assert Upper("BAT") == "BAT";
    assert Upper("CAT") == "CAT";
    assert Upper("HEN") == "HEN";
    assert Upper("KEY") == "KEY";
    assert Upper("SUN") == "SUN";
  }
}
