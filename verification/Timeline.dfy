/** The household feed: shared rows, newest first, and the wake-up briefing built from it. */
module Timeline {
  import opened Scopes
  import opened StableSort
  import opened ChromaStore

  const FETCH_LIMIT := 1000
  const TIMELINE_MAX := 200
  const BRIEFING_EVENT_CAP := 50

  // ----- Python string order --------------------------------------------------------

  /** `a <= b` on strings: by code point, a prefix comes first. */
  predicate StrLe(a: string, b: string) {
    if a == "" then true
    else if b == "" then false
    else if a[0] == b[0] then StrLe(a[1..], b[1..])
    else a[0] < b[0]
  }

  lemma {:induction false} StrLeTotal(a: string, b: string)
    ensures StrLe(a, b) || StrLe(b, a)
  {
    if a != "" && b != "" && a[0] == b[0] {
      StrLeTotal(a[1..], b[1..]);
    }
  }

  lemma {:induction false} StrLeTransitive(a: string, b: string, c: string)
    requires StrLe(a, b) && StrLe(b, c)
    ensures StrLe(a, c)
  {
    if a != "" && a[0] == b[0] == c[0] {
      StrLeTransitive(a[1..], b[1..], c[1..]);
    }
  }

  /** In one sentence: equal up to some point, and then at an end or at a smaller character. */
  ghost predicate Precedes(a: string, b: string) {
    a <= b || exists i :: 0 <= i < |a| && i < |b| && a[..i] == b[..i] && a[i] < b[i]
  }

  lemma {:induction false} StrLeMeans(a: string, b: string)
    ensures StrLe(a, b) <==> Precedes(a, b)
  {
    if a != "" && b != "" && a[0] == b[0] {
      StrLeMeans(a[1..], b[1..]);
      assert a <= b <==> a[1..] <= b[1..];
      if Precedes(a, b) && !(a <= b) {
        var i :| 0 <= i < |a| && i < |b| && a[..i] == b[..i] && a[i] < b[i];
        assert i > 0 && a[1..][..i - 1] == a[..i][1..] == b[..i][1..] == b[1..][..i - 1];
        assert a[1..][i - 1] < b[1..][i - 1];
      }
      if Precedes(a[1..], b[1..]) && !(a[1..] <= b[1..]) {
        var i :| 0 <= i < |a[1..]| && i < |b[1..]| && a[1..][..i] == b[1..][..i] && a[1..][i] < b[1..][i];
        assert a[..i + 1] == [a[0]] + a[1..][..i] && b[..i + 1] == [b[0]] + b[1..][..i];
      }
    } else if a != "" && b != "" {
      assert a[..0] == b[..0];
    }
  }

  // ----- newest first ----------------------------------------------------------------

  /** A row's timestamp; a row without one sorts as the empty string. */
  function TsOf(r: Row): string {
    var meta := MetaOf(r);
    if "ts" in meta && meta["ts"].Str? then meta["ts"].s else ""
  }

  predicate NotOlder(a: Row, b: Row) {
    StrLe(TsOf(b), TsOf(a))
  }

  function NewestFirst(rows: seq<Row>, limit: int): seq<Row> {
    Take(Sort(rows, NotOlder), limit)
  }

  function SharedRows(rows: seq<Row>): seq<Row> {
    GetWhere(rows, KeyIs("scope", SHARED_SCOPE))
  }

  function Clamp(limit: int): nat {
    if limit < 1 then 1 else if limit > TIMELINE_MAX then TIMELINE_MAX else limit
  }

  /** The feed the timeline endpoint returns. */
  function Feed(rows: seq<Row>, limit: int): seq<Row> {
    NewestFirst(Take(SharedRows(rows), FETCH_LIMIT), Clamp(limit))
  }

  lemma NotOlderIsPreorder()
    ensures TotalPreorder(NotOlder)
  {
    forall a, b
      ensures NotOlder(a, b) || NotOlder(b, a)
    {
      StrLeTotal(TsOf(a), TsOf(b));
    }
    forall a, b, c | NotOlder(a, b) && NotOlder(b, c)
      ensures NotOlder(a, c)
    {
      StrLeTransitive(TsOf(c), TsOf(b), TsOf(a));
    }
  }

  /** What the feed leaves out of the rows it fetched. */
  function LeftOut(rows: seq<Row>, limit: int): seq<Row> {
    var sorted := Sort(Take(SharedRows(rows), FETCH_LIMIT), NotOlder);
    sorted[|Take(sorted, Clamp(limit))|..]
  }

  lemma SortedSplit(sorted: seq<Row>, n: nat)
    requires n <= |sorted| && Sorted(sorted, NotOlder)
    ensures Sorted(sorted[..n], NotOlder)
    ensures forall shown, hidden :: shown in sorted[..n] && hidden in sorted[n..] ==> NotOlder(shown, hidden)
  {
    forall shown, hidden | shown in sorted[..n] && hidden in sorted[n..]
      ensures NotOlder(shown, hidden)
    {
      var i :| 0 <= i < n && sorted[i] == shown;
      var j :| n <= j < |sorted| && sorted[j] == hidden;
    }
  }

  /** The feed is newest first, fills the clamped limit when it can, and nothing it fetched but
      left out is newer than anything it shows. */
  lemma FeedIsNewest(rows: seq<Row>, limit: int)
    ensures var feed, fetched, rest := Feed(rows, limit), Take(SharedRows(rows), FETCH_LIMIT), LeftOut(rows, limit);
            && Sorted(feed, NotOlder) && multiset(feed + rest) == multiset(fetched)
            && |feed| == (if |fetched| < Clamp(limit) then |fetched| else Clamp(limit))
            && forall shown, hidden :: shown in feed && hidden in rest ==> NotOlder(shown, hidden)
  {
    hide NotOlder, SharedRows, Sort;
    var fetched := Take(SharedRows(rows), FETCH_LIMIT);
    NotOlderIsPreorder();
    SortSorted(fetched, NotOlder);
    SortMultiset(fetched, NotOlder);
    var sorted := Sort(fetched, NotOlder);
    var n := |Take(sorted, Clamp(limit))|;
    SortedSplit(sorted, n);
    assert sorted == sorted[..n] + sorted[n..];
  }

  /** As many as are asked for, at least 1 and at most 200, if there are that many shared rows. */
  lemma FeedSize(rows: seq<Row>, limit: int)
    ensures var asked, shared := if limit < 1 then 1 else if limit > 200 then 200 else limit, |SharedRows(rows)|;
            |Feed(rows, limit)| == if shared < asked then shared else asked
  {
    hide SharedRows, Sort;
  }

  /** It shows shared rows only. */
  lemma FeedIsShared(rows: seq<Row>, limit: int, r: Row)
    requires r in Feed(rows, limit)
    ensures r in rows && InScopes(MetaOf(r), [SHARED_SCOPE])
  {
    FeedIsNewest(rows, limit);
    var fetched := Take(SharedRows(rows), FETCH_LIMIT);
    assert r in Feed(rows, limit) + LeftOut(rows, limit);
    assert r in multiset(fetched);
    assert r in SharedRows(rows);
  }
}
