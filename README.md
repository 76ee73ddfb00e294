# neura: the logic behind the achievement and gallery screens

A Dafny model of the small pieces of real logic in a children's learning app.
The app offers a word fill-in game and a tracing game. The model covers:

- the **achievement store**: star counts kept under keys `"<type>_<activity>"`.
  It has set, get and total-by-type operations, and the two rules that turn a
  game result into 1 to 3 stars (`achievement_store.dfy`, module `Achievements`);
- the **word puzzle** constructor `WordPuzzle.make` and the table of six puzzles
  (`word_puzzle.dfy`, module `WordPuzzles`);
- the **progress dashboard** counting: the list of all activities, how many are
  done, the star ceiling, and the mascot's five-way message
  (`progress_dashboard.dfy`, module `ProgressDashboard`);
- the **drawing gallery** metadata list. It is read back newest first. A save
  goes to the front. A delete removes every entry with the id
  (`drawing_storage.dfy`, module `Gallery`);
- the **model cache** of loaded 3D models. It is a state machine over a `cache`
  dictionary and a `loading` set. The asynchronous load task is an explicit
  completion method (`model_cache.dfy`, module `ModelCaching`);
- the **spelling text** read out by the word speaker, e.g. `"C... A... T... cat"`
  (`word_speaker.dfy`, module `WordSpeaking`).

`ascii.dfy` holds the ASCII case mapping. `wrappers.dfy` holds `Option`.

Objects whose fields the app updates in place are classes: `AchievementStore`,
`DrawingStorage` and `ModelCache`. Their persisted data is a field the methods
reassign. Everything else is datatypes, functions and lemmas.

## Model

| member | source | states |
|---|---|---|
| `Ascii.Upper` | neura/Views/WordPuzzleModel.swift:31 | upper-casing keeps the length, maps each character by itself and leaves no lower-case letter |
| `Ascii.Lower` | neura/Views/WordSpeaker.swift:22 | lower-casing keeps the length, maps each character by itself and leaves no upper-case letter |
| `Achievements.Key` | neura/Views/AchievementStore.swift:26 | the key of an activity is as long as type + 1 + activity and begins with `type + "_"` |
| `Achievements.KeyInjective` | neura/Views/AchievementStore.swift:26 | if neither type contains `_`, equal keys mean equal types and equal activities |
| `Achievements.KeyCollision` | neura/Views/AchievementStore.swift:26 | a type that contains `_` can share a key with another pair: ("a_b","c") and ("a","b_c") |
| `Achievements.KeysWithPrefix` | neura/Views/AchievementStore.swift:35 | the filter keeps exactly the stored keys that begin with the prefix |
| `Achievements.PrefixTotal` | neura/Views/AchievementStore.swift:35 | the sum of the values whose keys begin with the prefix (the filter, then `reduce(0, +)`); 0 when no stored key begins with it |
| `Achievements.PrefixTotalAfterSet` | neura/Views/AchievementStore.swift:24-36 | storing v under a key changes the total of each prefix of that key by v minus the old value (0 if none); totals of other prefixes are unchanged |
| `Achievements.DrawStars` | neura/Views/AchievementStore.swift:38-43 | the result is in 1..3: 3 exactly when coverage >= 0.95, 2 exactly when 0.91 <= coverage < 0.95, 1 exactly when coverage < 0.91 |
| `Achievements.DrawStarsMonotone` | neura/Views/AchievementStore.swift:38-43 | more coverage never gives fewer stars |
| `Achievements.DrawStarsOnDoubles` | neura/Views/AchievementStore.swift:39-43 | the rule as evaluated on the device, against the doubles nearest 0.95 and 0.91: the result is in 1..3, with each band stated as an iff over those two doubles |
| `Achievements.DrawStarsOfRoundedRatio` | neura/Views/AchievementStore.swift:39-43 | the double for 0.95 lies below 0.95, and the double for 0.91 lies above 0.91. Take a coverage ratio k/n with 0 < n < 2^40 and a value m/2^53 within 1/2^54 of it, as a correctly rounded division in [1/2, 1) gives. Then m/2^53 earns the same stars against the rounded thresholds as k/n earns against 0.95 and 0.91 |
| `Achievements.Band095` | neura/Views/AchievementStore.swift:40 | under the same conditions, k/n >= 19/20 exactly when m/2^53 reaches the double nearest 0.95 |
| `Achievements.Band091` | neura/Views/AchievementStore.swift:41 | under the same conditions, k/n >= 91/100 exactly when m/2^53 reaches the double nearest 0.91 |
| `Achievements.FillStars` | neura/Views/AchievementStore.swift:45-50 | the result is in 1..3: 3 exactly for 0 wrong, 2 exactly for 1 wrong, 1 otherwise |
| `Achievements.FillStarsAntitone` | neura/Views/AchievementStore.swift:45-50 | for wrong counts >= 0, more mistakes never give more stars |
| `Achievements.AchievementStore.constructor` | neura/Views/AchievementStore.swift:10-16 | a store with nothing saved reads as the empty dictionary |
| `Achievements.AchievementStore.GetStars` | neura/Views/AchievementStore.swift:30-32 | the stored value under the activity's key, and 0 for a key never set |
| `Achievements.AchievementStore.SetStars` | neura/Views/AchievementStore.swift:24-28 | the dictionary gains or overwrites only that key; GetStars then returns the stars; every pair with another key reads as before; each type's total moves by the new stars minus the old ones, and only for types that prefix the key |
| `Achievements.AchievementStore.TotalStars` | neura/Views/AchievementStore.swift:34-36 | the sum over keys beginning with `type + "_"`; it is 0 when no key has that prefix |
| `WordPuzzles.Tiles` | neura/Views/WordPuzzleModel.swift:33-35 | one tile per character, carrying that character, blank exactly at the given index |
| `WordPuzzles.Spelling` | neura/Views/WordPuzzleModel.swift:33-34 | the tiles' characters in order |
| `WordPuzzles.Make` | neura/Views/WordPuzzleModel.swift:30-45 | needs a non-empty word and blankAt >= 0 (otherwise `chars[blankIdx]` is out of bounds and traps). The word is stored upper-cased. blankIndex = min(blankAt, count-1) lies within the tiles. Tile i carries the i-th upper-cased character and is blank exactly at blankIndex. missingLetter is the character under the blank |
| `WordPuzzles.ExactlyOneBlank` | neura/Views/WordPuzzleModel.swift:33-35 | a puzzle made this way has exactly one blank tile |
| `WordPuzzles.MakeIgnoresCase` | neura/Views/WordPuzzleModel.swift:31-38 | making a puzzle from the upper-cased word gives the same puzzle |
| `WordPuzzles.All` | neura/Views/WordPuzzleModel.swift:47-56 | six well-formed puzzles, each a 3-letter word with blankIndex 1 |
| `WordPuzzles.AllWords` | neura/Views/WordPuzzleModel.swift:47-56 | the table is BAG, BAT, CAT, HEN, KEY, SUN and hides A, A, A, E, E, U |
| `ProgressDashboard.FillItems` | neura/Views/ProgressDashboardView.swift:8-9 | one item per puzzle, in table order, with its model name and word |
| `ProgressDashboard.AllActivities` | neura/Views/ProgressDashboardView.swift:15-19 | the drawing items tagged "draw"/"Draw", followed by the word items tagged "fill"/"Fill"; the count is their sum |
| `ProgressDashboard.CompletedOf` | neura/Views/ProgressDashboardView.swift:22-24 | the filter keeps every completed activity as often as the list holds it, and nothing else; it is no longer than the list |
| `ProgressDashboard.CompletedOfAppend` | neura/Views/ProgressDashboardView.swift:22-24 | the completed activities of one list followed by another are those of the first followed by those of the second, so the filter keeps the list's order |
| `ProgressDashboard.TotalDoneAppend` | neura/Views/ProgressDashboardView.swift:15-25 | the count over the draws followed by the fills is the count over the draws plus the count over the fills |
| `ProgressDashboard.TotalDone` | neura/Views/ProgressDashboardView.swift:21-25 | 0 <= totalDone <= the number of activities |
| `ProgressDashboard.AllDoneIff` | neura/Views/ProgressDashboardView.swift:272 | totalDone equals the count exactly when every activity is completed |
| `ProgressDashboard.NoneDoneIff` | neura/Views/ProgressDashboardView.swift:279-282 | totalDone is 0 exactly when no activity is completed |
| `ProgressDashboard.MaxStars` | neura/Views/ProgressDashboardView.swift:28 | the ceiling is three stars per word item |
| `ProgressDashboard.MaxStarsOfTable` | neura/Views/ProgressDashboardView.swift:8-9 | with the six puzzles the ceiling is 18 |
| `ProgressDashboard.FunMessage` | neura/Views/ProgressDashboardView.swift:271-284 | always one of the five lines. "WOW! All perfect!" exactly when all are done and fillStars == maxStars. "You did it all!" exactly when all are done otherwise. "Almost there!" exactly when some are not done and more than count/2 are. "Great start!" exactly when some but at most count/2 are done. "Let's go!" exactly when the list is non-empty and none is done |
| `ProgressDashboard.LetsGoExactlyWhenNothingDone` | neura/Views/ProgressDashboardView.swift:271-284 | with at least one activity, "Let's go!" is shown exactly when totalDone is 0 |
| `Gallery.SortNewestFirst` | neura/Views/DrawingStorage.swift:37 | the result is a permutation of the list, ordered by date descending |
| `Gallery.SortKeepsSorted` | neura/Views/DrawingStorage.swift:37 | a list already newest first is returned unchanged |
| `Gallery.WithoutId` | neura/Views/DrawingStorage.swift:123 | keeps exactly the entries with another id, with their multiplicities, and never grows |
| `Gallery.WithoutIdAppend` | neura/Views/DrawingStorage.swift:123 | removing from one list followed by another gives the removal from the first followed by the removal from the second, so the kept entries stay in their original order |
| `Gallery.WithoutIdKeepsOrder` | neura/Views/DrawingStorage.swift:123 | removing entries keeps a newest-first list newest first |
| `Gallery.WithoutAbsentId` | neura/Views/DrawingStorage.swift:122-124 | removing an id that no entry has leaves the list unchanged |
| `Gallery.DrawingStorage.constructor` | neura/Views/DrawingStorage.swift:34-36 | nothing is stored at first |
| `Gallery.DrawingStorage.AllDrawings` | neura/Views/DrawingStorage.swift:33-38 | empty when nothing is stored or the stored data cannot be decoded; otherwise a permutation of the stored list; always newest first |
| `Gallery.DrawingStorage.SaveDrawing` | neura/Views/DrawingStorage.swift:102-106 | the stored list becomes the new entry (given id, word, image name, stars and the current time) followed by the list read back. It is one longer, and reading it back gives the old entries plus the new one. When the new entry is the newest, reading back gives it first and then the old list in order |
| `Gallery.DrawingStorage.DeleteDrawing` | neura/Views/DrawingStorage.swift:121-124 | the stored list becomes the list read back without that id. No entry has the id afterwards, and the rest stay newest first. Deleting an absent id leaves the list read back unchanged |
| `Gallery.DeleteTwice` | neura/Views/DrawingStorage.swift:121-124 | deleting an id a second time leaves the list of the first deletion |
| `ModelCaching.ModelCache.constructor` | neura/Views/ModelCache.swift:11-12 | empty cache, nothing loading |
| `ModelCaching.ModelCache.Preload` | neura/Views/ModelCache.swift:14-16 | starts a load exactly when the name is neither cached nor loading. If started, the name joins `loading`; if not, nothing changes. The cache is never touched. Cache keys and loading stay disjoint |
| `ModelCaching.ModelCache.CompleteLoad` | neura/Views/ModelCache.swift:17-30 | it runs only for a name that is loading, that is, one whose load `Preload` started and which has not yet completed. The name always leaves `loading`. On success the model is stored under it. On a missing asset or a load error the cache is unchanged. Cache keys and loading stay disjoint |
| `ModelCaching.ModelCache.Get` | neura/Views/ModelCache.swift:33-35 | returns a model exactly when the name is cached, and it is the cached one |
| `ModelCaching.ModelCache.Evict` | neura/Views/ModelCache.swift:37-39 | removes only that name; every other name reads as before; `loading` is unchanged |
| `ModelCaching.ModelCache.EvictAll` | neura/Views/ModelCache.swift:41-43 | empties the cache; `loading` is unchanged |
| `ModelCaching.PreloadThenGet` | neura/Views/ModelCache.swift:14-35 | a preload and its successful completion make Get return the model; a second preload then starts nothing |
| `ModelCaching.EvictDuringLoad` | neura/Views/ModelCache.swift:14-43 | `evict` and `evictAll` while a load is pending cancel nothing: the name stays loading, and the completed load caches the model |
| `WordSpeaking.Joined` | neura/Views/WordSpeaker.swift:21 | `joined(separator:)`: empty for no parts, begins with the first part, and for one-character parts is n + (n-1) separators long |
| `WordSpeaking.Letters` | neura/Views/WordSpeaker.swift:21 | one one-character string per character of the word |
| `WordSpeaking.Spelled` | neura/Views/WordSpeaker.swift:21-22 | reference text: each letter followed by "... ", 5 characters per letter |
| `WordSpeaking.SpelledAt` | neura/Views/WordSpeaker.swift:21-22 | in the reference text, letter i sits at position 5i followed by "... " |
| `WordSpeaking.JoinedLettersThenPause` | neura/Views/WordSpeaker.swift:21-22 | the letters joined by "... ", plus one more "... ", equal the reference text (just "... " for the empty word) |
| `WordSpeaking.SpokenLayout` | neura/Views/WordSpeaker.swift:21-22 | the letters joined by "... ", then "... ", then the lower-cased word, equal "... " for the empty word and the reference text plus the lower-cased word otherwise; letter i is at position 5i, followed by "... " |
| `WordSpeaking.SpellingText` | neura/Views/WordSpeaker.swift:21-22 | the spoken text is "... " for the empty word. Otherwise it is the reference text followed by the lower-cased word, 6n characters for n letters, ending in the lower-cased word. Letter i is at position 5i, followed by "... " |
| `WordSpeaking.SpellingCat` | neura/Views/WordSpeaker.swift:18-22 | the text for "CAT" is "C... A... T... cat" |

## Left out

- The tracing game and the word-fill game flow: `LetsDrawView.swift` and `LearnWordsView.swift` only display a placeholder. Outline extraction, path sampling, coverage scoring and undo replay are not part of this model.
- `DrawActivity` (the drawing activity table) and `AchievementStore.isCompleted` are used by the dashboard but are defined in none of the files modelled here. The drawing items are a parameter of `AllActivities`. Completion is a parameter predicate over (activity, type).
- `ProgressDashboard.FunMessage` takes all its inputs as parameters: the activity list (the dashboard passes `AllActivities`), the completion predicate, the word game's star total (the dashboard passes `AchievementStore.TotalStars("fill")`) and the star ceiling (the dashboard passes `MaxStars(FillItems())`, that is `fillItems.count * 3`).
- Persistence: the UserDefaults and JSON encoding of both stores is I/O. The dictionary and the metadata list are class fields. A failed decode is the `None` state of `DrawingStorage.stored`. A failed encode, which leaves the old data in place, is not modelled.
- `Achievements.AchievementStore.TotalStars` is a ghost function. A dictionary has no key order, so the sum is defined over the key set. With unbounded integers the order of the additions does not matter; with Swift's `Int` it can decide whether the sum traps (see the next line).
- Gallery.DrawingStorage.SaveDrawing: the id is a parameter. That it differs from every stored id (it is a fresh UUID) is not stated. The date is an integer timestamp supplied by the caller.
- Rendering the PNG, writing and removing image files, and `loadImage` are file I/O and are left out.
- `Gallery.SortNewestFirst` is a stable insertion sort: entries with equal dates keep their stored order. Swift's `sorted(by:)` is stable too (an adaptive merge sort since Swift 5, and its documentation guarantees stability). The contract of `SortNewestFirst` alone (newest first, a permutation) does not fix the order of equal dates. `SortKeepsSorted`, `DeleteTwice`, the last ensures of `DrawingStorage.SaveDrawing`, and the `AllDrawings() == stored.value` and absent-id ensures of `DrawingStorage.DeleteDrawing` hold because the sort is stable; they would not hold for an unstable sort.
- UUIDs of puzzles and tiles are left out. They are fresh identities with no bearing on the puzzle's structure.
- Colours are exact `real` triples. In `DrawStars` the coverage and the thresholds are exact reals. The coverage stands for the exact ratio the game means (covered samples over all samples), not for the `CGFloat` value the device holds. The `CGFloat` literals are doubles: 0.95 rounds down to 0.94999999999999995559… and 0.91 rounds up to 0.91000000000000003108…. Applied to the double nearest 0.95 itself, `DrawStars` gives 2, while the device gives 3. `DrawStarsOnDoubles` is the rule on the device's doubles. `DrawStarsOfRoundedRatio` shows that for a ratio k/n with fewer than 2^40 samples, in the range [1/2, 1) where doubles are multiples of 1/2^53, the correctly rounded ratio compared with the rounded thresholds gives the same band as the exact comparison. Outside that range the band is the same anyway. Rounding is monotone and 1/2 and 1 are doubles, so a ratio below 1/2 stays below 0.91 and earns 1 star either way, and a ratio of at least 1 earns 3 either way. How the coverage is computed is not part of this model.
- Case mapping is ASCII only. Swift's Unicode upper-casing can change a string's length (e.g. "ß" becomes "SS"); the model cannot.
- Strings are sequences of code points. In Swift a `Character` is a grapheme cluster, and `==`, `hasPrefix` and dictionary keys compare strings by Unicode canonical equivalence. So `WordSpeaking.Letters` and `WordPuzzles.Make` count "e" followed by a combining accent as two letters where Swift counts one. `Achievements.KeysWithPrefix` treats `"fill_"` as a prefix of `"fill_"` + combining accent + `"x"`, where Swift's `hasPrefix` does not. Other multi-code-point characters, such as "\r\n", a flag made of two regional indicators or a Hangul jamo pair, are one `Character` in Swift but several in the model. Swift's `==` and `hasPrefix` also treat the jamo pair `"\u{1100}\u{1161}"` as equal to the precomposed `"가"`, which the model tells apart. The results agree for strings in which every character is one code point and no text is in decomposed form, such as the app's ASCII words and keys.
- Integers are unbounded. Swift's `Int` traps on overflow in `reduce(0, +)` (`AchievementStore.swift:35`) and in `fillItems.count * 3` (`ProgressDashboardView.swift:28`); `SetStars` accepts any value. The model does not capture those traps. `DrawStars` and `FillStars` return 1 to 3, but the callers of `setStars` are not among the modelled files, so nothing here bounds the stored values.
- ModelCache: RealityKit loading and `clone(recursive:)` are left out. The model is an opaque type parameter, and `Get` returns the cached value itself. The asynchronous task is the separate `CompleteLoad` step. It may be called only for a name in `loading`, so it follows the `Preload` that started it, and it runs at most once per start. Any `Preload`, `Get`, `Evict` or `EvictAll` calls may come in between, as on the main actor (see `EvictDuringLoad`). Not captured: that every started load eventually completes; that a completion belongs to a particular task (two tasks for one name cannot exist, because `Preload` refuses a loading name); and the failure log line.
- Speech and audio (AVFoundation) are left out. Only the text built at `WordSpeaker.swift:21-22` is modelled.
- GPU rendering, shader geometry, gestures and all SwiftUI layout, animation, confetti and haptics are presentation and are left out.
