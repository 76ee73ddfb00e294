/**
 * The counting behind the progress screen: the list of all activities,
 * how many are done, the star ceiling of the word game and the
 * encouragement line shown by the mascot.
 */
module ProgressDashboard {
  import WordPuzzles

  /** A gallery item: the asset name and the word shown under it. */
  datatype Item = Item(imageName: string, word: string)

  /** One row of the dashboard: an item tagged with its game ("draw"/"fill") and label. */
  datatype Activity = Activity(imageName: string, word: string, kind: string, displayLabel: string)

  /**
   * Whether an activity of a given type is completed. The store's
   * completion query is not part of this model, so callers pass it in.
   */
  type Completion = (string, string) -> bool

  /** `fillItems`: the word puzzles' model names and words, in table order. */
  function FillItems(): (items: seq<Item>)
    ensures |items| == |WordPuzzles.All()| == 6
    ensures forall i :: 0 <= i < |items| ==>
      items[i] == Item(WordPuzzles.All()[i].modelName, WordPuzzles.All()[i].word)
  {
    var all := WordPuzzles.All();
    seq(|all|, i requires 0 <= i < |all| => Item(all[i].modelName, all[i].word))
  }

  function Tagged(items: seq<Item>, kind: string, displayLabel: string): (acts: seq<Activity>)
    ensures |acts| == |items|
    ensures forall i :: 0 <= i < |items| ==>
      acts[i] == Activity(items[i].imageName, items[i].word, kind, displayLabel)
  {
    seq(|items|, i requires 0 <= i < |items| => Activity(items[i].imageName, items[i].word, kind, displayLabel))
  }

  /** `allActivities`: every drawing activity, then every word activity, in order. */
  function AllActivities(draws: seq<Item>, fills: seq<Item>): (acts: seq<Activity>)
    ensures |acts| == |draws| + |fills|
    ensures forall i :: 0 <= i < |draws| ==>
      acts[i] == Activity(draws[i].imageName, draws[i].word, "draw", "Draw")
    ensures forall j :: 0 <= j < |fills| ==>
      acts[|draws| + j] == Activity(fills[j].imageName, fills[j].word, "fill", "Fill")
  {
    Tagged(draws, "draw", "Draw") + Tagged(fills, "fill", "Fill")
  }

  predicate Done(a: Activity, isCompleted: Completion) {
    isCompleted(a.imageName, a.kind)
  }

  /** The completed activities, in their original order. */
  function CompletedOf(acts: seq<Activity>, isCompleted: Completion): (done: seq<Activity>)
    ensures |done| <= |acts|
    ensures forall a :: a in done ==> a in acts && Done(a, isCompleted)
    ensures forall a :: multiset(done)[a] == if Done(a, isCompleted) then multiset(acts)[a] else 0
  {
    if acts == [] then []
    else
      assert acts == [acts[0]] + acts[1..];
      if Done(acts[0], isCompleted) then [acts[0]] + CompletedOf(acts[1..], isCompleted)
      else CompletedOf(acts[1..], isCompleted)
  }

  /**
   * The filter works piece by piece: the completed activities of a list
   * run after another are those of each, in the same order.
   */
  lemma {:induction false} CompletedOfAppend(a: seq<Activity>, b: seq<Activity>, isCompleted: Completion)
    ensures CompletedOf(a + b, isCompleted) == CompletedOf(a, isCompleted) + CompletedOf(b, isCompleted)
  {
    if a == [] {
      assert a + b == b;
    } else {
      assert (a + b)[0] == a[0] && (a + b)[1..] == a[1..] + b;
      CompletedOfAppend(a[1..], b, isCompleted);
    }
  }

  /** `totalDone`: how many activities are completed. */
  function TotalDone(acts: seq<Activity>, isCompleted: Completion): (n: nat)
    ensures n <= |acts|
  {
    |CompletedOf(acts, isCompleted)|
  }

  /** The count over two lists run one after the other is the sum of their counts. */
  lemma TotalDoneAppend(a: seq<Activity>, b: seq<Activity>, isCompleted: Completion)
    ensures TotalDone(a + b, isCompleted) == TotalDone(a, isCompleted) + TotalDone(b, isCompleted)
  {
    CompletedOfAppend(a, b, isCompleted);
  }

  /** Every activity is completed exactly when all of them are counted. */
  lemma {:induction false} AllDoneIff(acts: seq<Activity>, isCompleted: Completion)
    ensures TotalDone(acts, isCompleted) == |acts|
        <==> forall i :: 0 <= i < |acts| ==> Done(acts[i], isCompleted)
  {
    if acts != [] {
      AllDoneIff(acts[1..], isCompleted);
      if !Done(acts[0], isCompleted) {
        assert TotalDone(acts, isCompleted) == TotalDone(acts[1..], isCompleted) <= |acts| - 1;
      } else {
        assert forall i :: 1 <= i < |acts| ==> acts[i] == acts[1..][i - 1];
      }
    }
  }

  /** No activity is completed exactly when none is counted. */
  lemma {:induction false} NoneDoneIff(acts: seq<Activity>, isCompleted: Completion)
    ensures TotalDone(acts, isCompleted) == 0
        <==> forall i :: 0 <= i < |acts| ==> !Done(acts[i], isCompleted)
  {
    if acts != [] {
      NoneDoneIff(acts[1..], isCompleted);
      assert forall i :: 1 <= i < |acts| ==> acts[i] == acts[1..][i - 1];
    }
  }

  /** `maxStars`: three stars for each word puzzle. */
  function MaxStars(fills: seq<Item>): (m: nat)
    ensures m == |fills| * 3
  {
    |fills| * 3
  }

  /** With the six puzzles of the table the ceiling is 18 stars. */
  lemma MaxStarsOfTable()
    ensures MaxStars(FillItems()) == 18
  {
  }

  /**
   * `funMessage`: `fillStars` is the store's star total of the word game.
   * All done with every star earned, all done, more than half done, some
   * done, nothing done.
   */
  function FunMessage(acts: seq<Activity>, isCompleted: Completion, fillStars: int, maxStars: int): (msg: string)
    ensures msg in {"WOW! All perfect!", "You did it all!", "Almost there!", "Great start!", "Let's go!"}
    ensures msg == "WOW! All perfect!" <==>
      (forall i :: 0 <= i < |acts| ==> Done(acts[i], isCompleted)) && fillStars == maxStars
    ensures msg == "You did it all!" <==>
      (forall i :: 0 <= i < |acts| ==> Done(acts[i], isCompleted)) && fillStars != maxStars
    ensures msg == "Almost there!" <==>
      (exists i :: 0 <= i < |acts| && !Done(acts[i], isCompleted))
      && TotalDone(acts, isCompleted) > |acts| / 2
    ensures msg == "Great start!" <==>
      (exists i :: 0 <= i < |acts| && Done(acts[i], isCompleted))
      && TotalDone(acts, isCompleted) <= |acts| / 2
    ensures msg == "Let's go!" <==>
      |acts| > 0 && forall i :: 0 <= i < |acts| ==> !Done(acts[i], isCompleted)
  {
    AllDoneIff(acts, isCompleted);
    NoneDoneIff(acts, isCompleted);
    var totalDone := TotalDone(acts, isCompleted);
    var allDone := totalDone >= |acts|;
    if allDone && fillStars == maxStars then "WOW! All perfect!"
    else if allDone then "You did it all!"
    else if totalDone > |acts| / 2 then "Almost there!"
    else if totalDone > 0 then "Great start!"
    else "Let's go!"
  }

  /** On a non-empty dashboard the opening line is shown exactly when nothing is done. */
  lemma LetsGoExactlyWhenNothingDone(acts: seq<Activity>, isCompleted: Completion, fillStars: int, maxStars: int)
    requires |acts| > 0
    ensures FunMessage(acts, isCompleted, fillStars, maxStars) == "Let's go!"
        <==> TotalDone(acts, isCompleted) == 0
  {
    NoneDoneIff(acts, isCompleted);
  }
}
