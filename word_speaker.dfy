/**
 * The text the speaker reads out to spell a word: each letter followed by
 * a pause, then the whole word in lower case ("C... A... T... cat").
 */
module WordSpeaking {
  import opened Ascii

  const Pause: string := "... "

  /** `parts.joined(separator: sep)` */
  function Joined(parts: seq<string>, sep: string): (r: string)
    ensures parts == [] ==> r == ""
    ensures parts != [] ==> parts[0] <= r
    ensures parts != [] && (forall i :: 0 <= i < |parts| ==> |parts[i]| == 1) ==>
      |r| + |sep| == |parts| * (1 + |sep|)
  {
    if parts == [] then ""
    else if |parts| == 1 then parts[0]
    else parts[0] + sep + Joined(parts[1..], sep)
  }

  /** `word.map { String($0) }`: one string per character. */
  function Letters(word: string): (parts: seq<string>)
    ensures |parts| == |word|
    ensures forall i :: 0 <= i < |word| ==> parts[i] == [word[i]]
  {
    seq(|word|, i requires 0 <= i < |word| => [word[i]])
  }

  /** Each letter with its pause, one after the other. */
  function Spelled(word: string): (r: string)
    ensures |r| == 5 * |word|
  {
    if word == [] then "" else [word[0]] + Pause + Spelled(word[1..])
  }

  /** Letter i sits at position 5i and is followed by the pause. */
  lemma {:induction false} SpelledAt(word: string, i: int)
    requires 0 <= i < |word|
    ensures Spelled(word)[5 * i] == word[i]
    ensures Spelled(word)[5 * i + 1..5 * i + 5] == Pause
  {
    var r := Spelled(word);
    if i > 0 {
      SpelledAt(word[1..], i - 1);
      assert r[5 * i] == Spelled(word[1..])[5 * (i - 1)];
      assert r[5 * i + 1..5 * i + 5] == Spelled(word[1..])[5 * (i - 1) + 1..5 * (i - 1) + 5];
    } else {
      assert r[1..5] == Pause;
    }
  }

  /** Joining the letters and adding one more pause puts a pause after every letter. */
  lemma {:induction false} JoinedLettersThenPause(word: string)
    ensures Joined(Letters(word), Pause) + Pause == if word == [] then Pause else Spelled(word)
  {
    if |word| == 1 {
      assert Letters(word) == [[word[0]]];
    } else if |word| > 1 {
      JoinedLettersThenPause(word[1..]);
      assert Letters(word)[1..] == Letters(word[1..]);
    }
  }

  lemma SliceOfConcat(s: string, t: string, lo: int, hi: int)
    requires 0 <= lo <= hi <= |s|
    ensures (s + t)[lo..hi] == s[lo..hi]
  {
  }

  /** Whatever follows the spelled letters, they keep their positions. */
  lemma SpelledThenAt(word: string, tail: string, i: int)
    requires 0 <= i < |word|
    ensures (Spelled(word) + tail)[5 * i] == word[i]
    ensures (Spelled(word) + tail)[5 * i + 1..5 * i + 5] == Pause
  {
    var sp := Spelled(word);
    SpelledAt(word, i);
    SliceOfConcat(sp, tail, 5 * i + 1, 5 * i + 5);
  }

  /** The layout of the text built by `spellThenSpeak`, letter by letter. */
  lemma SpokenLayout(word: string)
    ensures var t := Joined(Letters(word), Pause) + Pause + Lower(word);
      && (word == [] ==> t == Pause)
      && (word != [] ==> t == Spelled(word) + Lower(word))
      && (forall i :: 0 <= i < |word| ==> t[5 * i] == word[i] && t[5 * i + 1..5 * i + 5] == Pause)
  {
    JoinedLettersThenPause(word);
    if word != [] {
      var sp, lo := Spelled(word), Lower(word);
      forall i | 0 <= i < |word|
        ensures (sp + lo)[5 * i] == word[i] && (sp + lo)[5 * i + 1..5 * i + 5] == Pause
      {
        SpelledThenAt(word, lo, i);
      }
    }
  }

  /**
   * The text spoken by `spellThenSpeak`: every letter followed by "... ",
   * then the word in lower case. For a word of n characters it is 6n
   * characters long; the empty word gives just the pause.
   */
  function SpellingText(word: string): (text: string)
    ensures word == [] ==> text == Pause
    ensures word != [] ==> text == Spelled(word) + Lower(word)
    ensures word != [] ==> |text| == 6 * |word|
    ensures forall i :: 0 <= i < |word| ==> text[5 * i] == word[i] && text[5 * i + 1..5 * i + 5] == Pause
    ensures word != [] ==> text[5 * |word|..] == Lower(word)
  {
    SpokenLayout(word);
    var text := Joined(Letters(word), Pause) + Pause + Lower(word);
    assert word != [] ==> (Spelled(word) + Lower(word))[5 * |word|..] == Lower(word);
    text
  }

  /** The example in the doc comment of `spellThenSpeak`. */
  lemma SpellingCat()
    ensures SpellingText("CAT") == "C... A... T... cat"
  {
    assert Spelled("T") == "T... ";
    assert Spelled("AT") == "A... T... ";
    assert Spelled("CAT") == "C... A... T... ";
    assert Lower("CAT") == "cat";
  }
}
