/** The store's fetch limit of 1000 rows: exactly when a briefing can miss the newest event. */
module FetchLimit {
  import opened Text
  import opened Scopes
  import opened StableSort
  import opened ChromaStore
  import opened Timeline
  import opened EmbedderService
  import opened MemoryRuns
  import opened Briefing
  import Decimal

  /** What the briefing promises of a store, whatever the cutoff. */
  ghost predicate ShowsNewest(rows: seq<Row>) {
    forall cutoff :: HouseholdEvents(rows, cutoff) == NewestSince(rows, cutoff, BRIEFING_EVENT_CAP)
  }

  /** These requests leave `n` shared rows in a memory service that started empty. */
  ghost predicate Leaves(cfg: Config, ops: seq<Op>, n: nat) {
    (forall op :: op in ops ==> WellFormed(op)) && |SharedRows(AfterOps(cfg, [], ops))| == n
  }

  // ----- a busy household -------------------------------------------------------------

  const UUID := "000000000000"

  /** Event number `i`, from a source of its own. */
  function NthRequest(i: nat, ts: string): EventRequest {
    EventRequest("seen", Decimal.Print(i), ts, "")
  }

  function NthEvent(i: nat, ts: string): Op {
    Event(NthRequest(i, ts), UUID)
  }

  lemma StripDigits(i: nat)
    ensures Strip(Decimal.Print(i)) == Decimal.Print(i) != ""
  {
    var s := Decimal.Print(i);
    assert !IsSpace(s[0]) && !IsSpace(s[|s| - 1]);
    assert FirstInk(s, 0) == 0 && LastInk(s, |s|) == |s|;
    assert s[0..|s|] == s;
  }

  lemma EventAccepted(i: nat, ts: string)
    ensures EventAllowed(NthRequest(i, ts)) && WellFormed(NthEvent(i, ts))
  {
    StripDigits(i);
    assert !IsSpace("seen"[0]);
    assert !IsBlank("seen");
  }

  function NthRow(cfg: Config, i: nat, ts: string): (r: Row)
    ensures r.id == EventId(NthRequest(i, ts), UUID) && TsOf(r) == ts
    ensures MetaOf(r) == EventMetadata(Decimal.Print(i), ts, "").value
  {
    EventAccepted(i, ts);
    EventRow(cfg, NthRequest(i, ts), UUID)
  }

  lemma NthId(i: nat, ts: string)
    ensures EventId(NthRequest(i, ts), UUID) == "event:" + Decimal.Print(i) + ":" + UUID
  {
    hide Strip, Decimal.Print;
    StripDigits(i);
  }

  lemma NthIdsDiffer(i: nat, j: nat, ts: string, us: string)
    requires i != j
    ensures EventId(NthRequest(i, ts), UUID) != EventId(NthRequest(j, us), UUID)
  {
    hide Decimal.Print, Decimal.Parse, EventId;
    NthId(i, ts);
    NthId(j, us);
    Decimal.ParsePrint(i);
    Decimal.ParsePrint(j);
    Middle(Decimal.Print(i));
    Middle(Decimal.Print(j));
  }

  lemma Middle(s: string)
    ensures var id := "event:" + s + ":" + UUID;
            |id| == |s| + 19 && id[6..|id| - 13] == s
  {
    var id := "event:" + s + ":" + UUID;
    assert |UUID| == 12;
    assert id[6..|id| - 13] == s;
  }

  /** The first `k` events, all of one time, and their rows. */
  function OldEvents(k: nat): seq<Op> {
    seq(k, i requires 0 <= i < k => NthEvent(i, "0"))
  }

  function OldRows(cfg: Config, k: nat): (rows: seq<Row>)
    ensures |rows| == k
  {
    seq(k, i requires 0 <= i < k => NthRow(cfg, i, "0"))
  }

  /** `n` old events and then a new one. */
  function OldThenNew(n: nat): seq<Op> {
    OldEvents(n) + [NthEvent(n, "1")]
  }

  function OldThenNewRows(cfg: Config, n: nat): (rows: seq<Row>)
    ensures |rows| == n + 1
  {
    OldRows(cfg, n) + [NthRow(cfg, n, "1")]
  }

  /** Each event has an id of its own, so it is stored. */
  lemma EventIsAdded(cfg: Config, n: nat, ts: string)
    ensures AfterOp(cfg, OldRows(cfg, n), NthEvent(n, ts)) == OldRows(cfg, n) + [NthRow(cfg, n, ts)]
  {
    hide EventId, EventMetadata, EventAllowed, Strip;
    EventAccepted(n, ts);
    var rows, row := OldRows(cfg, n), NthRow(cfg, n, ts);
    forall r | r in rows
      ensures r.id != row.id
    {
      var j :| 0 <= j < n && rows[j] == r;
      NthIdsDiffer(j, n, "0", ts);
    }
    assert NewRows(cfg, NthEvent(n, ts)) == [row];
    AddNew(rows, row);
  }

  lemma AddNew(rows: seq<Row>, row: Row)
    requires forall r :: r in rows ==> r.id != row.id
    ensures Add(rows, [row]) == rows + [row]
  {
    assert [row][1..] == [];
  }

  lemma {:induction false} OldStore(cfg: Config, k: nat)
    ensures AfterOps(cfg, [], OldEvents(k)) == OldRows(cfg, k)
  {
    hide AfterOp, NthRow, NthEvent;
    if k > 0 {
      OldStore(cfg, k - 1);
      assert OldEvents(k)[..k - 1] == OldEvents(k - 1);
      EventIsAdded(cfg, k - 1, "0");
      assert OldRows(cfg, k) == OldRows(cfg, k - 1) + [NthRow(cfg, k - 1, "0")];
    }
  }

  /** The store those events leave. */
  lemma NewStore(cfg: Config, n: nat)
    ensures AfterOps(cfg, [], OldThenNew(n)) == OldThenNewRows(cfg, n)
  {
    hide AfterOp, NthRow, NthEvent, OldEvents, OldRows;
    OldStore(cfg, n);
    EventIsAdded(cfg, n, "1");
    var ops := OldThenNew(n);
    assert |ops| == |OldEvents(n)| + 1 && ops[..|ops| - 1] == OldEvents(n);
  }

  lemma NthIsShared(cfg: Config, i: nat, ts: string)
    ensures Matches(KeyIs("scope", SHARED_SCOPE), MetaOf(NthRow(cfg, i, ts)))
  {
    hide NthRow;
  }

  lemma AllShared(cfg: Config, n: nat)
    ensures SharedRows(OldThenNewRows(cfg, n)) == OldThenNewRows(cfg, n)
  {
    hide NthRow, EventMetadata, Matches;
    var p := (r: Row) => Matches(KeyIs("scope", SHARED_SCOPE), MetaOf(r));
    var rows := OldThenNewRows(cfg, n);
    forall r | r in rows
      ensures p(r)
    {
      var i :| 0 <= i <= n && rows[i] == r;
      NthIsShared(cfg, i, if i < n then "0" else "1");
    }
    FilterAll(rows, p);
  }

  lemma BusyHousehold(cfg: Config, n: nat)
    ensures Leaves(cfg, OldThenNew(n), n + 1)
  {
    NewStore(cfg, n);
    AllShared(cfg, n);
    forall op | op in OldThenNew(n)
      ensures WellFormed(op)
    {
      var i :| 0 <= i <= n && OldThenNew(n)[i] == op;
      EventAccepted(i, if i < n then "0" else "1");
    }
  }

  // ----- past the limit the newest event is missed ----------------------------------------

  lemma OldFeed(cfg: Config, n: nat)
    requires n >= FETCH_LIMIT
    ensures forall r :: r in HouseholdEvents(OldThenNewRows(cfg, n), "0") ==> TsOf(r) == "0"
  {
    hide EventMetadata, EventId, Sort, SharedRows;
    var rows := OldThenNewRows(cfg, n);
    AllShared(cfg, n);
    var fetched := Take(rows, FETCH_LIMIT);
    FeedIsNewest(rows, TIMELINE_MAX);
    forall r | r in HouseholdEvents(rows, "0")
      ensures TsOf(r) == "0"
    {
      assert r in Feed(rows, TIMELINE_MAX) + LeftOut(rows, TIMELINE_MAX);
      assert r in multiset(fetched);
      assert r in fetched;
    }
  }

  lemma OldAndNew()
    ensures StrLe("0", "0") && StrLe("0", "1") && !StrLe("1", "0")
  {
    assert "0"[1..] == "";
  }

  lemma AllSinceZero(cfg: Config, n: nat)
    ensures Filter(OldThenNewRows(cfg, n), AtOrAfter("0")) == OldThenNewRows(cfg, n)
  {
    hide EventMetadata, EventId;
    OldAndNew();
    assert forall r :: r in OldThenNewRows(cfg, n) ==> AtOrAfter("0")(r);
    FilterAll(OldThenNewRows(cfg, n), AtOrAfter("0"));
  }

  lemma RowTimes(cfg: Config, n: nat)
    ensures forall r :: r in OldThenNewRows(cfg, n) ==> TsOf(r) == "0" || TsOf(r) == "1"
    ensures NthRow(cfg, n, "1") in OldThenNewRows(cfg, n) && TsOf(NthRow(cfg, n, "1")) == "1"
  {
    hide NthRow, TsOf;
    assert OldThenNewRows(cfg, n)[n] == NthRow(cfg, n, "1");
  }

  lemma NewSortsFirst(cfg: Config, n: nat)
    ensures TsOf(Sort(OldThenNewRows(cfg, n), NotOlder)[0]) == "1"
  {
    hide Sort, NthRow, TsOf, OldThenNewRows, StrLe;
    var rows := OldThenNewRows(cfg, n);
    var sorted := Sort(rows, NotOlder);
    RowTimes(cfg, n);
    OldAndNew();
    NotOlderIsPreorder();
    SortSorted(rows, NotOlder);
    SortMultiset(rows, NotOlder);
    var newest := NthRow(cfg, n, "1");
    assert newest in multiset(rows);
    assert newest in multiset(sorted);
    var i :| 0 <= i < |sorted| && sorted[i] == newest;
    assert sorted[0] in multiset(rows);
    assert sorted[0] in rows;
    assert i > 0 ==> NotOlder(sorted[0], sorted[i]);
  }

  lemma NewFound(cfg: Config, n: nat)
    ensures exists r :: r in NewestSince(OldThenNewRows(cfg, n), "0", BRIEFING_EVENT_CAP) && TsOf(r) == "1"
  {
    hide Sort, Filter, SharedRows, AtOrAfter, OldThenNewRows, TsOf;
    AllShared(cfg, n);
    AllSinceZero(cfg, n);
    NewSortsFirst(cfg, n);
    var newest := NewestSince(OldThenNewRows(cfg, n), "0", BRIEFING_EVENT_CAP);
    assert newest[0] in newest && TsOf(newest[0]) == "1";
  }

  /** Past the limit, for every number of shared rows, a memory service that started empty can get
      into a state in which the newest event is not fetched; every id in it is unique. */
  lemma FetchLimitLosesNewest(cfg: Config, n: nat)
    requires n > FETCH_LIMIT
    ensures var rows := AfterOps(cfg, [], OldThenNew(n - 1));
            && Leaves(cfg, OldThenNew(n - 1), n) && StoreInv(rows)
            && HouseholdEvents(rows, "0") != NewestSince(rows, "0", BRIEFING_EVENT_CAP)
  {
    hide Sort, Filter, SharedRows, AtOrAfter, NewestSince, HouseholdEvents, StoreInv, AfterOps, OldThenNew, OldThenNewRows;
    NewStore(cfg, n - 1);
    BusyHousehold(cfg, n - 1);
    OldFeed(cfg, n - 1);
    NewFound(cfg, n - 1);
    EmptyStoreInv();
    RunKeepsInv(cfg, [], OldThenNew(n - 1));
  }

  /** The briefing shows the newest events in every reachable store with `n` shared rows if and only
      if the fetch limit is not exceeded. */
  lemma FetchLimitExact(cfg: Config, n: nat)
    ensures (forall ops :: Leaves(cfg, ops, n) ==> ShowsNewest(AfterOps(cfg, [], ops))) <==> n <= FETCH_LIMIT
  {
    hide HouseholdEvents, NewestSince, AfterOps, OldThenNew;
    if n <= FETCH_LIMIT {
      forall ops | Leaves(cfg, ops, n)
        ensures ShowsNewest(AfterOps(cfg, [], ops))
      {
        forall cutoff
          ensures HouseholdEvents(AfterOps(cfg, [], ops), cutoff)
               == NewestSince(AfterOps(cfg, [], ops), cutoff, BRIEFING_EVENT_CAP)
        {
          EventsAreNewestSince(AfterOps(cfg, [], ops), cutoff);
        }
      }
    } else {
      FetchLimitLosesNewest(cfg, n);
      assert !ShowsNewest(AfterOps(cfg, [], OldThenNew(n - 1)));
    }
  }
}
