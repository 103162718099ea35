/**
 Keyset pagination. A page is one query: rows past the cursor, in order, one more than the page
 holds. Following the cursors of a collection that does not change gives the sorted collection.
 Timestamps have the resolution they are stored with; identifiers compare as SQLite compares text.
 */
module Pagination {
  import opened Basics

  /** Where a row stands: its timestamp and its identifier. */
  datatype Key = Key(time: int, id: string)

  datatype Direction = Ascending | Descending

  datatype Page = Page(items: seq<Key>, hasMore: bool, next: Option<Key>)

  // ---------- order ----------

  predicate TextLess(a: string, b: string) {
    b != [] && (a == [] || a[0] < b[0] || (a[0] == b[0] && TextLess(a[1..], b[1..])))
  }

  /** At the first difference the smaller character comes first, and a text comes before its continuations. */
  ghost predicate LessAt(a: string, b: string, i: int) {
    && 0 <= i <= |a| && i < |b| && a[..i] == b[..i]
    && (i == |a| || (i < |a| && a[i] < b[i]))
  }

  lemma SamePrefixStart(a: string, b: string, i: int)
    ensures LessAt(a, b, i) && i > 0 ==> a != [] && a[0] == b[0]
  {
    if LessAt(a, b, i) && i > 0 {
      assert a[..i][0] == b[..i][0];
    }
  }

  lemma {:induction false} TextLessIff(a: string, b: string)
    ensures TextLess(a, b) <==> exists i :: LessAt(a, b, i)
  {
    if a == [] || b == [] || a[0] != b[0] {
      if TextLess(a, b) {
        assert LessAt(a, b, 0);
      }
      forall i {
        SamePrefixStart(a, b, i);
      }
    } else {
      TextLessIff(a[1..], b[1..]);
      if i :| LessAt(a[1..], b[1..], i) {
        assert a[..i + 1] == [a[0]] + a[1..][..i] && b[..i + 1] == [b[0]] + b[1..][..i];
        assert LessAt(a, b, i + 1);
      }
      if i :| LessAt(a, b, i) {
        assert i > 0;
        assert a[1..][..i - 1] == a[..i][1..] && b[1..][..i - 1] == b[..i][1..];
        assert LessAt(a[1..], b[1..], i - 1);
      }
    }
  }

  lemma {:induction false} TextTotal(a: string, b: string)
    ensures TextLess(a, b) || TextLess(b, a) || a == b
    ensures !(TextLess(a, b) && TextLess(b, a)) && !TextLess(a, a)
  {
    if a != [] {
      TextTotal(a[1..], a[1..]);
      if b != [] {
        TextTotal(a[1..], b[1..]);
        assert a == [a[0]] + a[1..] && b == [b[0]] + b[1..];
      }
    }
  }

  lemma {:induction false} TextTransitive(a: string, b: string, c: string)
    requires TextLess(a, b) && TextLess(b, c)
    ensures TextLess(a, c)
  {
    if a != [] && a[0] == b[0] == c[0] {
      TextTransitive(a[1..], b[1..], c[1..]);
    }
  }

  /** ORDER BY time, id in one direction or both reversed */
  predicate Precedes(d: Direction, a: Key, b: Key) {
    match d
    case Ascending => a.time < b.time || (a.time == b.time && TextLess(a.id, b.id))
    case Descending => b.time < a.time || (a.time == b.time && TextLess(b.id, a.id))
  }

  lemma PrecedesTotal(d: Direction, a: Key, b: Key)
    ensures Precedes(d, a, b) || Precedes(d, b, a) || a == b
    ensures !(Precedes(d, a, b) && Precedes(d, b, a)) && !Precedes(d, a, a)
  {
    TextTotal(a.id, b.id);
    TextTotal(a.id, a.id);
  }

  lemma PrecedesTransitive(d: Direction, a: Key, b: Key, c: Key)
    requires Precedes(d, a, b) && Precedes(d, b, c)
    ensures Precedes(d, a, c)
  {
    if a.time == b.time == c.time {
      if d.Ascending? {
        TextTransitive(a.id, b.id, c.id);
      } else {
        TextTransitive(c.id, b.id, a.id);
      }
    }
  }

  /** Earlier, or at the same time with an identifier that comes first as text. */
  ghost predicate ByTimeThenId(a: Key, b: Key) {
    a.time < b.time || (a.time == b.time && exists i :: LessAt(a.id, b.id, i))
  }

  lemma PrecedesByTime(d: Direction, a: Key, b: Key)
    ensures Precedes(d, a, b) <==> if d.Ascending? then ByTimeThenId(a, b) else ByTimeThenId(b, a)
  {
    TextLessIff(a.id, b.id);
    TextLessIff(b.id, a.id);
  }

  // ---------- the sorted collection ----------

  ghost predicate InOrder(d: Direction, s: seq<Key>) {
    forall i, j :: 0 <= i < j < |s| ==> Precedes(d, s[i], s[j])
  }

  function Keys(s: seq<Key>): set<Key> {
    set i | 0 <= i < |s| :: s[i]
  }

  /** An enumeration of a collection, in order. */
  ghost predicate Sorts(d: Direction, s: seq<Key>, rows: set<Key>) {
    InOrder(d, s) && Keys(s) == rows
  }

  /** A row goes in after all that precede it. */
  function Insert(d: Direction, s: seq<Key>, k: Key): seq<Key> {
    if s != [] && Precedes(d, s[0], k) then [s[0]] + Insert(d, s[1..], k) else [k] + s
  }

  lemma {:induction false} InsertSorts(d: Direction, s: seq<Key>, k: Key)
    requires InOrder(d, s) && k !in Keys(s)
    ensures Sorts(d, Insert(d, s, k), Keys(s) + {k})
  {
    if s != [] && Precedes(d, s[0], k) {
      var rest := Insert(d, s[1..], k);
      KeysCons(s[0], s[1..]);
      assert s == [s[0]] + s[1..];
      InsertSorts(d, s[1..], k);
      forall x | x in Keys(rest) ensures Precedes(d, s[0], x) {
      }
      OrderCons(d, s[0], rest);
      KeysCons(s[0], rest);
    } else {
      KeysCons(k, s);
      forall x | x in Keys(s) ensures Precedes(d, k, x) {
        PrecedesTotal(d, s[0], k);
        if x != s[0] {
          PrecedesTransitive(d, k, s[0], x);
        }
      }
      OrderCons(d, k, s);
    }
  }

  lemma KeysCons(k: Key, s: seq<Key>)
    ensures Keys([k] + s) == {k} + Keys(s)
  {
    var t := [k] + s;
    forall x | x in {k} + Keys(s) ensures x in Keys(t) {
      if x != k {
        var i :| 0 <= i < |s| && s[i] == x;
        assert t[i + 1] == x;
      } else {
        assert t[0] == x;
      }
    }
  }

  lemma OrderCons(d: Direction, k: Key, s: seq<Key>)
    requires InOrder(d, s) && forall x :: x in Keys(s) ==> Precedes(d, k, x)
    ensures InOrder(d, [k] + s)
  {
    var t := [k] + s;
    forall i, j | 0 <= i < j < |t| ensures Precedes(d, t[i], t[j]) {
      assert t[j] == s[j - 1] && s[j - 1] in Keys(s);
    }
  }

  lemma {:induction false} SortExists(d: Direction, rows: set<Key>)
    ensures exists s :: Sorts(d, s, rows)
  {
    if rows == {} {
      assert Sorts(d, [], rows);
    } else {
      var k :| k in rows;
      SortExists(d, rows - {k});
      var s :| Sorts(d, s, rows - {k});
      InsertSorts(d, s, k);
      assert Keys(s) + {k} == rows;
    }
  }

  /** There is only one way to put a collection in order. */
  lemma {:induction false} SortUnique(d: Direction, s: seq<Key>, t: seq<Key>)
    requires InOrder(d, s) && InOrder(d, t) && Keys(s) == Keys(t)
    ensures s == t
  {
    assert t == [] || t[0] in Keys(t);
    assert s == [] || s[0] in Keys(s);
    if s != [] {
      FirstUnique(d, s, t);
      assert s == [s[0]] + s[1..] && t == [t[0]] + t[1..];
      RestKeys(d, s);
      RestKeys(d, t);
      SortUnique(d, s[1..], t[1..]);
    }
  }

  lemma FirstUnique(d: Direction, s: seq<Key>, t: seq<Key>)
    requires InOrder(d, s) && InOrder(d, t) && Keys(s) == Keys(t) && s != [] && t != []
    ensures s[0] == t[0]
  {
    assert s[0] in Keys(t) && t[0] in Keys(s);
    PrecedesTotal(d, s[0], t[0]);
  }

  lemma RestKeys(d: Direction, s: seq<Key>)
    requires InOrder(d, s) && s != []
    ensures Keys(s[1..]) == Keys(s) - {s[0]} && InOrder(d, s[1..])
  {
    KeysCons(s[0], s[1..]);
    assert s == [s[0]] + s[1..];
    forall x | x in Keys(s[1..]) ensures x != s[0] {
      PrecedesTotal(d, s[0], s[0]);
    }
  }

  // ---------- the query ----------

  /** timeIDCursorPredicateForColumn */
  predicate PastCursor(d: Direction, cursor: Option<Key>, k: Key) {
    cursor.Some? ==>
      if d.Ascending? then k.time > cursor.value.time || (k.time == cursor.value.time && TextLess(cursor.value.id, k.id))
      else k.time < cursor.value.time || (k.time == cursor.value.time && TextLess(k.id, cursor.value.id))
  }

  function Selected(d: Direction, rows: set<Key>, cursor: Option<Key>): set<Key> {
    set k | k in rows && PastCursor(d, cursor, k)
  }

  /** normalizePanelPageLimit: between 1 and 100 as asked for, 50 if nothing sensible is asked for, and at most 100. */
  function PageLimit(limit: int): (n: int)
    ensures 1 <= limit <= 100 ==> n == limit
    ensures limit > 100 ==> n == 100
    ensures limit <= 0 ==> n == 50
  {
    if limit <= 0 then 50 else if limit > 100 then 100 else limit
  }

  /** The sorted rows; the reference every page is compared with. */
  ghost function SortedRows(d: Direction, rows: set<Key>): (s: seq<Key>)
    ensures Sorts(d, s, rows)
  {
    SortExists(d, rows);
    var s :| Sorts(d, s, rows); s
  }

  function FirstRows(s: seq<Key>, n: nat): seq<Key> {
    if |s| <= n then s else s[..n]
  }

  /** finalizeTimeIDPage */
  function Finalize(fetched: seq<Key>, limit: nat): Page
    requires limit > 0
  {
    if |fetched| <= limit then Page(fetched, false, None) else Page(fetched[..limit], true, Some(fetched[limit - 1]))
  }

  /** One list query: WHERE past the cursor, ORDER BY, LIMIT one more than the page. */
  ghost function ListPage(d: Direction, rows: set<Key>, cursor: Option<Key>, limit: int): Page {
    Finalize(FirstRows(SortedRows(d, Selected(d, rows, cursor)), PageLimit(limit) + 1), PageLimit(limit))
  }

  // ---------- following the cursors ----------

  /** The rows past the i-th are what remains of the sorted rows after it. */
  lemma PastIsRest(d: Direction, rows: set<Key>, s: seq<Key>, i: nat)
    requires Sorts(d, s, rows) && 0 < i <= |s|
    ensures SortedRows(d, Selected(d, rows, Some(s[i - 1]))) == s[i..]
  {
    var selected := Selected(d, rows, Some(s[i - 1]));
    forall k | k in selected ensures k in Keys(s[i..]) {
      var j :| 0 <= j < |s| && s[j] == k;
      PrecedesTotal(d, s[i - 1], s[j]);
      assert j >= i;
      assert s[i..][j - i] == k;
    }
    forall k | k in Keys(s[i..]) ensures k in selected {
      var j :| 0 <= j < |s[i..]| && s[i..][j] == k;
      assert s[i + j] == k && k in Keys(s);
    }
    assert Keys(s[i..]) == selected;
    SortUnique(d, SortedRows(d, selected), s[i..]);
  }

  lemma StartIsAll(d: Direction, rows: set<Key>, s: seq<Key>)
    requires Sorts(d, s, rows)
    ensures SortedRows(d, Selected(d, rows, None)) == s
  {
    assert Selected(d, rows, None) == rows;
    SortUnique(d, SortedRows(d, rows), s);
  }

  /** The cursor after the first i rows. */
  function CursorAt(s: seq<Key>, i: nat): Option<Key>
    requires i <= |s|
  {
    if i == 0 then None else Some(s[i - 1])
  }

  /** A page asked for after the first i rows holds the next rows, and a cursor exactly when more remain. */
  lemma PageIsSlice(d: Direction, rows: set<Key>, s: seq<Key>, i: nat, limit: int)
    requires Sorts(d, s, rows) && i <= |s|
    ensures var page := ListPage(d, rows, CursorAt(s, i), limit);
            var end := Min(i + PageLimit(limit), |s|);
            && page.items == s[i..end]
            && page.hasMore == (end < |s|) == page.next.Some?
            && (page.next.Some? ==> page.next == CursorAt(s, end))
  {
    if i == 0 {
      StartIsAll(d, rows, s);
    } else {
      PastIsRest(d, rows, s, i);
    }
    assert SortedRows(d, Selected(d, rows, CursorAt(s, i))) == s[i..];
  }

  /** A cursor is a row of the page it came with, so fewer rows are past it. */
  lemma SelectionShrinks(d: Direction, rows: set<Key>, cursor: Option<Key>, limit: int)
    ensures var next := ListPage(d, rows, cursor, limit).next;
            next.Some? ==> |Selected(d, rows, next)| < |Selected(d, rows, cursor)|
  {
    var selected := Selected(d, rows, cursor);
    var s := SortedRows(d, selected);
    var next := ListPage(d, rows, cursor, limit).next;
    if next.Some? {
      assert next.value == s[PageLimit(limit) - 1] && next.value in Keys(s);
      forall k | k in Selected(d, rows, next) ensures k in selected - {next.value} {
        PrecedesTotal(d, next.value, k);
        if cursor.Some? {
          PrecedesTransitive(d, cursor.value, next.value, k);
        }
      }
      SubsetSize(Selected(d, rows, next), selected - {next.value});
    }
  }

  /** The client's loop: pages are asked for until one has no cursor. */
  ghost function Follow(d: Direction, rows: set<Key>, cursor: Option<Key>, limit: int): seq<Key>
    decreases |Selected(d, rows, cursor)|
  {
    SelectionShrinks(d, rows, cursor, limit);
    var page := ListPage(d, rows, cursor, limit);
    page.items + if page.next.Some? then Follow(d, rows, page.next, limit) else []
  }

  lemma {:induction false} FollowIsRest(d: Direction, rows: set<Key>, s: seq<Key>, i: nat, limit: int)
    requires Sorts(d, s, rows) && i <= |s|
    ensures Follow(d, rows, CursorAt(s, i), limit) == s[i..]
    decreases |s| - i
  {
    var page := ListPage(d, rows, CursorAt(s, i), limit);
    var end := Min(i + PageLimit(limit), |s|);
    assert page.items == s[i..end] && page.next == if end < |s| then CursorAt(s, end) else None by {
      PageIsSlice(d, rows, s, i, limit);
    }
    Halves(s, i, end);
    if end < |s| {
      FollowIsRest(d, rows, s, end, limit);
    }
  }

  lemma Halves(s: seq<Key>, i: nat, end: nat)
    requires i <= end <= |s|
    ensures s[i..] == s[i..end] + s[end..] && s[|s|..] == []
  {
  }

  /**
   For any collection, either direction and any requested limit, following the cursors from the start ends and
   gives every row once, in order.
   */
  lemma FollowingYieldsSorted(d: Direction, rows: set<Key>, limit: int)
    ensures Sorts(d, Follow(d, rows, None, limit), rows)
    ensures |Follow(d, rows, None, limit)| == |rows|
    ensures var s := Follow(d, rows, None, limit);
            forall i, j :: 0 <= i < j < |s| ==> ByTimeThenId(if d.Ascending? then s[i] else s[j], if d.Ascending? then s[j] else s[i])
  {
    var s := SortedRows(d, rows);
    SortedSize(d, s, rows);
    FollowIsRest(d, rows, s, 0, limit);
    assert s[0..] == s;
    forall i, j | 0 <= i < j < |s|
      ensures ByTimeThenId(if d.Ascending? then s[i] else s[j], if d.Ascending? then s[j] else s[i])
    {
      PrecedesByTime(d, s[i], s[j]);
    }
  }

  lemma {:induction false} SortedSize(d: Direction, s: seq<Key>, rows: set<Key>)
    requires Sorts(d, s, rows)
    ensures |s| == |rows|
  {
    if s != [] {
      RestKeys(d, s);
      assert s[0] in rows;
      SortedSize(d, s[1..], rows - {s[0]});
    }
  }
}
