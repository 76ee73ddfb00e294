/**
 * The metadata list of the drawing gallery: read back newest first, a
 * saved drawing goes to the front, a deleted one is removed by id.
 */
module Gallery {
  import opened Wrappers

  /** One saved drawing; `date` is the save time as a timestamp. */
  datatype DrawingMeta = DrawingMeta(id: string, word: string, imageName: string, stars: int, date: int)

  /** Ordered by date, newest first. */
  ghost predicate NewestFirst(s: seq<DrawingMeta>) {
    forall i, j :: 0 <= i < j < |s| ==> s[i].date >= s[j].date
  }

  /** An entry no older than the head of a sorted list can go in front of it. */
  lemma ConsNewestFirst(x: DrawingMeta, t: seq<DrawingMeta>)
    requires NewestFirst(t)
    requires t == [] || t[0].date <= x.date
    ensures NewestFirst([x] + t)
  {
    var r := [x] + t;
    forall i, j | 0 <= i < j < |r|
      ensures r[i].date >= r[j].date
    {
      if i == 0 && j > 1 {
        assert r[j] == t[j - 1] && t[0].date >= t[j - 1].date;
      }
    }
  }

  /** Puts `m` before the first entry that is not newer than it. */
  function Insert(m: DrawingMeta, s: seq<DrawingMeta>): (r: seq<DrawingMeta>)
    requires NewestFirst(s)
    ensures NewestFirst(r)
    ensures multiset(r) == multiset(s) + multiset{m}
    ensures |r| == |s| + 1
    ensures r[0] == m || (s != [] && r[0] == s[0])
  {
    if s == [] then [m]
    else if s[0].date <= m.date then
      ConsNewestFirst(m, s);
      [m] + s
    else
      var rest := Insert(m, s[1..]);
      assert s == [s[0]] + s[1..];
      ConsNewestFirst(s[0], rest);
      [s[0]] + rest
  }

  /** `list.sorted { $0.date > $1.date }`: a newest-first permutation. */
  function SortNewestFirst(s: seq<DrawingMeta>): (r: seq<DrawingMeta>)
    ensures NewestFirst(r)
    ensures multiset(r) == multiset(s)
  {
    if s == [] then []
    else
      assert s == [s[0]] + s[1..];
      Insert(s[0], SortNewestFirst(s[1..]))
  }

  /** A list that is already newest first comes back unchanged. */
  lemma {:induction false} SortKeepsSorted(s: seq<DrawingMeta>)
    requires NewestFirst(s)
    ensures SortNewestFirst(s) == s
  {
    if s != [] {
      SortKeepsSorted(s[1..]);
    }
  }

  /** `list.removeAll { $0.id == id }` */
  function WithoutId(s: seq<DrawingMeta>, id: string): (r: seq<DrawingMeta>)
    ensures |r| <= |s|
    ensures forall x :: x in r <==> x in s && x.id != id
    ensures forall x: DrawingMeta :: x.id != id ==> multiset(r)[x] == multiset(s)[x]
  {
    if s == [] then []
    else
      assert s == [s[0]] + s[1..];
      if s[0].id == id then WithoutId(s[1..], id)
      else [s[0]] + WithoutId(s[1..], id)
  }

  /**
   * Removal works piece by piece: what is kept of a list run after another
   * is what is kept of each, in the same order. With the one-entry cases
   * (kept when its id differs, dropped otherwise) this fixes the order of
   * the kept entries to their order in the list.
   */
  lemma {:induction false} WithoutIdAppend(a: seq<DrawingMeta>, b: seq<DrawingMeta>, id: string)
    ensures WithoutId(a + b, id) == WithoutId(a, id) + WithoutId(b, id)
  {
    if a == [] {
      assert a + b == b;
    } else {
      assert (a + b)[0] == a[0] && (a + b)[1..] == a[1..] + b;
      WithoutIdAppend(a[1..], b, id);
    }
  }

  /** Removing entries keeps the rest newest first. */
  lemma {:induction false} WithoutIdKeepsOrder(s: seq<DrawingMeta>, id: string)
    requires NewestFirst(s)
    ensures NewestFirst(WithoutId(s, id))
  {
    if s != [] {
      WithoutIdKeepsOrder(s[1..], id);
    }
  }

  /** Removing an id that is not there changes nothing. */
  lemma {:induction false} WithoutAbsentId(s: seq<DrawingMeta>, id: string)
    requires forall x :: x in s ==> x.id != id
    ensures WithoutId(s, id) == s
  {
    if s != [] {
      WithoutAbsentId(s[1..], id);
    }
  }

  /** The persisted list of one gallery. */
  class DrawingStorage {
    /** The stored list; None when nothing is stored or it cannot be decoded. */
    var stored: Option<seq<DrawingMeta>>

    constructor ()
      ensures stored == None
    {
      stored := None;
    }

    /** `allDrawings`: the stored list newest first, or empty. */
    function AllDrawings(): (r: seq<DrawingMeta>)
      reads this
      ensures stored == None ==> r == []
      ensures stored.Some? ==> multiset(r) == multiset(stored.value)
      ensures NewestFirst(r)
    {
      match stored
      case None => []
      case Some(list) => SortNewestFirst(list)
    }

    /**
     * The metadata part of `saveDrawing`: the new entry, with a fresh id
     * and the current time, goes in front of the list read back.
     */
    method SaveDrawing(id: string, word: string, imageName: string, stars: int, now: int)
      modifies this
      ensures stored == Some([DrawingMeta(id, word, imageName, stars, now)] + old(AllDrawings()))
      ensures |stored.value| == |old(AllDrawings())| + 1
      ensures multiset(AllDrawings()) == multiset(old(AllDrawings())) + multiset{DrawingMeta(id, word, imageName, stars, now)}
      ensures (forall x :: x in old(AllDrawings()) ==> x.date <= now) ==>
        AllDrawings() == [DrawingMeta(id, word, imageName, stars, now)] + old(AllDrawings())
    {
      var list := AllDrawings();
      var meta := DrawingMeta(id, word, imageName, stars, now);
      list := [meta] + list;
      stored := Some(list);
      if forall x :: x in old(AllDrawings()) ==> x.date <= now {
        SortKeepsSorted(list);
      }
    }

    /** `deleteDrawing` on the metadata list: every entry with that id goes. */
    method DeleteDrawing(id: string)
      modifies this
      ensures stored == Some(WithoutId(old(AllDrawings()), id))
      ensures forall x :: x in AllDrawings() ==> x.id != id
      ensures AllDrawings() == stored.value
      ensures (forall x :: x in old(AllDrawings()) ==> x.id != id) ==> AllDrawings() == old(AllDrawings())
    {
      var list := AllDrawings();
      list := WithoutId(list, id);
      stored := Some(list);
      WithoutIdKeepsOrder(old(AllDrawings()), id);
      SortKeepsSorted(list);
      if forall x :: x in old(AllDrawings()) ==> x.id != id {
        WithoutAbsentId(old(AllDrawings()), id);
      }
    }
  }

  /** Deleting the same id twice leaves what deleting it once left. */
  lemma DeleteTwice(s: seq<DrawingMeta>, id: string)
    ensures var once := WithoutId(SortNewestFirst(s), id);
            WithoutId(SortNewestFirst(once), id) == once
  {
    var once := WithoutId(SortNewestFirst(s), id);
    WithoutIdKeepsOrder(SortNewestFirst(s), id);
    SortKeepsSorted(once);
    WithoutAbsentId(once, id);
  }
}
