/** The wake-up briefing: custody metadata of the queue plus the household events since sleep. */
module Briefing {
  import opened Wrappers
  import opened Scopes
  import opened StableSort
  import opened ChromaStore
  import opened Timeline
  import opened FamilyInbox

  // ----- household events -----------------------------------------------------------

  function AtOrAfter(cutoff: string): Row -> bool {
    r => StrLe(cutoff, TsOf(r))
  }

  /** What the briefing computes: the feed at its maximum, cut off, capped. */
  function HouseholdEvents(rows: seq<Row>, cutoff: string): seq<Row> {
    Take(Filter(Feed(rows, TIMELINE_MAX), AtOrAfter(cutoff)), BRIEFING_EVENT_CAP)
  }

  /** What it is for: the newest of all shared rows at or after the cutoff. */
  function NewestSince(rows: seq<Row>, cutoff: string, cap: nat): seq<Row> {
    Take(Sort(Filter(SharedRows(rows), AtOrAfter(cutoff)), NotOlder), cap)
  }

  /** In a newest-first list the rows since the cutoff are a prefix. */
  lemma RecentIsPrefix(sorted: seq<Row>, cutoff: string) returns (c: nat)
    requires Sorted(sorted, NotOlder)
    ensures c <= |sorted|
    ensures forall r :: r in sorted[..c] ==> AtOrAfter(cutoff)(r)
    ensures forall r :: r in sorted[c..] ==> !AtOrAfter(cutoff)(r)
  {
    c := |sorted|;
    while c > 0 && !AtOrAfter(cutoff)(sorted[c - 1])
      invariant c <= |sorted| && forall i :: c <= i < |sorted| ==> !AtOrAfter(cutoff)(sorted[i])
    {
      c := c - 1;
    }
    if c > 0 {
      forall i | 0 <= i < c
        ensures AtOrAfter(cutoff)(sorted[i])
      {
        if i < c - 1 {
          assert NotOlder(sorted[i], sorted[c - 1]);
          StrLeTransitive(cutoff, TsOf(sorted[c - 1]), TsOf(sorted[i]));
        }
      }
    }
  }

  lemma FilterPrefix(sorted: seq<Row>, p: Row -> bool, c: nat, n: nat)
    requires c <= |sorted| && n <= |sorted|
    requires forall r :: r in sorted[..c] ==> p(r)
    requires forall r :: r in sorted[c..] ==> !p(r)
    ensures Filter(sorted[..n], p) == sorted[..if n < c then n else c]
  {
    var k := if n < c then n else c;
    assert sorted[..n] == sorted[..k] + sorted[k..n];
    FilterAppend(sorted[..k], sorted[k..n], p);
    assert forall r :: r in sorted[..k] ==> r in sorted[..c];
    FilterAll(sorted[..k], p);
    forall r | r in sorted[k..n]
      ensures !p(r)
    {
      assert r in sorted[c..];
    }
    FilterAll(sorted[k..n], p);
  }

  /** Truncating to 200 before the cutoff, and capping at 50 after it, loses nothing: as long as
      the store's fetch limit is not exceeded, the briefing's events are the 50 newest shared rows
      at or after the cutoff. */
  lemma EventsAreNewestSince(rows: seq<Row>, cutoff: string)
    requires |SharedRows(rows)| <= FETCH_LIMIT
    ensures HouseholdEvents(rows, cutoff) == NewestSince(rows, cutoff, BRIEFING_EVENT_CAP)
  {
    hide NotOlder, SharedRows, Sort, Filter, AtOrAfter;
    var shared := SharedRows(rows);
    var sorted := Sort(shared, NotOlder);
    NotOlderIsPreorder();
    SortSorted(shared, NotOlder);
    SortFilter(shared, NotOlder, AtOrAfter(cutoff));
    var c := RecentIsPrefix(sorted, cutoff);
    var n := if |sorted| < TIMELINE_MAX then |sorted| else TIMELINE_MAX;
    assert Feed(rows, TIMELINE_MAX) == sorted[..n];
    FilterPrefix(sorted, AtOrAfter(cutoff), c, n);
    FilterPrefix(sorted, AtOrAfter(cutoff), c, |sorted|);
    assert sorted[..|sorted|] == sorted;
    var k := if n < c then n else c;
    assert Take(sorted[..k], BRIEFING_EVENT_CAP) == Take(sorted[..c], BRIEFING_EVENT_CAP);
  }

  /** A row of the household's shared scope. */
  predicate IsShared(r: Row) {
    "scope" in MetaOf(r) && MetaOf(r)["scope"] == Str("shared:household")
  }

  /** The newest since the cutoff: newest first, at most `cap`, all shared and at or after the cutoff, and
      a row that is left out had to give way to a full list of rows no older. */
  ghost predicate AreNewestSince(events: seq<Row>, rows: seq<Row>, cutoff: string, cap: nat) {
    && |events| <= cap
    && (forall i, j :: 0 <= i < j < |events| ==> Precedes(TsOf(events[j]), TsOf(events[i])))
    && (forall r :: r in events ==> r in rows && IsShared(r) && Precedes(cutoff, TsOf(r)))
    && (forall r :: r in rows && IsShared(r) && Precedes(cutoff, TsOf(r)) && r !in events ==>
          |events| == cap && forall e :: e in events ==> Precedes(TsOf(r), TsOf(e)))
    && multiset(events) <= multiset(rows)
  }

  lemma {:induction false} FilterIsPart<T(!new)>(s: seq<T>, p: T -> bool)
    ensures multiset(Filter(s, p)) <= multiset(s)
  {
    if s != [] {
      FilterIsPart(s[1..], p);
      assert s == [s[0]] + s[1..];
    }
  }

  lemma TakeIsPart<T>(s: seq<T>, n: int)
    ensures multiset(Take(s, n)) <= multiset(s)
  {
    if 0 < n < |s| {
      assert s == s[..n] + s[n..];
    }
  }

  lemma SharedMeans(rows: seq<Row>)
    ensures forall r :: r in SharedRows(rows) <==> r in rows && IsShared(r)
  {
  }

  lemma OrderMeans(cutoff: string)
    ensures forall a, b :: NotOlder(a, b) <==> Precedes(TsOf(b), TsOf(a))
    ensures forall r :: AtOrAfter(cutoff)(r) <==> Precedes(cutoff, TsOf(r))
  {
    hide StrLe, TsOf, Precedes;
    forall a, b
      ensures StrLe(a, b) <==> Precedes(a, b)
    {
      StrLeMeans(a, b);
    }
  }

  /** The first `cap` of a list that is newest first. */
  lemma TopOfSorted(sorted: seq<Row>, cap: nat)
    requires Sorted(sorted, NotOlder)
    ensures var events := Take(sorted, cap);
            && |events| <= cap && (forall r :: r in events ==> r in sorted)
            && (forall i, j :: 0 <= i < j < |events| ==> NotOlder(events[i], events[j]))
            && (forall r :: r in sorted && r !in events ==>
                  |events| == cap && forall e :: e in events ==> NotOlder(e, r))
  {
    hide NotOlder;
    var n := |Take(sorted, cap)|;
    assert Take(sorted, cap) == sorted[..n];
    SortedSplit(sorted, n);
    assert forall j :: 0 <= j < n ==> sorted[j] in sorted[..n];
    forall r | r in sorted && r !in sorted[..n]
      ensures n == cap && r in sorted[n..]
    {
      var i :| 0 <= i < |sorted| && sorted[i] == r;
      assert sorted[n..][i - n] == r;
    }
  }

  lemma NewestSinceMeans(rows: seq<Row>, cutoff: string, cap: nat)
    ensures AreNewestSince(NewestSince(rows, cutoff, cap), rows, cutoff, cap)
  {
    hide StrLe, TsOf, SharedRows, Sort, IsShared, Precedes, NotOlder, AtOrAfter, Take;
    var since := Filter(SharedRows(rows), AtOrAfter(cutoff));
    var sorted := Sort(since, NotOlder);
    OrderMeans(cutoff);
    SharedMeans(rows);
    NotOlderIsPreorder();
    SortSorted(since, NotOlder);
    SortMultiset(since, NotOlder);
    SinceMembers(since, sorted);
    TopOfSorted(sorted, cap);
    FilterIsPart(SharedRows(rows), AtOrAfter(cutoff));
    SharedIsPart(rows);
    TakeIsPart(sorted, cap);
  }

  lemma SinceMembers(since: seq<Row>, sorted: seq<Row>)
    requires multiset(sorted) == multiset(since)
    ensures forall r :: r in sorted <==> r in since
  {
    assert forall r :: r in sorted <==> r in multiset(sorted);
    assert forall r :: r in since <==> r in multiset(since);
  }

  lemma SharedIsPart(rows: seq<Row>)
    ensures multiset(SharedRows(rows)) <= multiset(rows)
  {
    FilterIsPart(rows, (r: Row) => Matches(KeyIs("scope", SHARED_SCOPE), MetaOf(r)));
  }

  // ----- custody ------------------------------------------------------------------------

  /** All the briefing says about a queued message. */
  datatype Custody = Custody(msgId: MsgId, person: string, queuedAt: Time)

  function CustodyOf(queue: Inbox): seq<Custody> {
    if queue == [] then []
    else [Custody(queue[0].letter.msgId, queue[0].letter.person, queue[0].letter.queuedAt)] + CustodyOf(queue[1..])
  }

  datatype Digest = Digest(memberId: MemberId, generatedAt: Time, presence: string, since: Time, sinceAsleep: bool,
                           queued: seq<Custody>, events: seq<Row>, eventsFailed: bool)

  /** `feed` is the timeline the memory service returned, if it did; `dayAgo` the fallback cutoff. */
  function BuildBriefing(f: Family, m: MemberId, feed: Option<seq<Row>>, now: Time, dayAgo: Time): Digest
    requires f.Knows(m)
  {
    var asleepSince := f.log[m].lastAsleepAt;
    var known := asleepSince.Some? && asleepSince.value != "";
    var cutoff := if known then asleepSince.value else dayAgo;
    var events := if feed.Some? then Take(Filter(feed.value, AtOrAfter(cutoff)), BRIEFING_EVENT_CAP) else [];
    Digest(m, now, f.presence[m], cutoff, known, CustodyOf(QueuedOf(f.inbox[m])), events, feed.None?)
  }

  /** What a briefing carries of the household feed: exactly the 50 newest shared rows since its cutoff,
      as long as the store's fetch limit is not exceeded. */
  lemma BriefingEvents(f: Family, m: MemberId, rows: seq<Row>, now: Time, dayAgo: Time)
    requires f.Knows(m) && |SharedRows(rows)| <= FETCH_LIMIT
    ensures var d := BuildBriefing(f, m, Some(Feed(rows, TIMELINE_MAX)), now, dayAgo);
            && d.events == NewestSince(rows, d.since, 50)
            && AreNewestSince(d.events, rows, d.since, 50)
            && !d.eventsFailed
  {
    hide Feed, NewestSince, AreNewestSince, SharedRows, Filter, CustodyOf, QueuedOf;
    var d := BuildBriefing(f, m, Some(Feed(rows, TIMELINE_MAX)), now, dayAgo);
    EventsAreNewestSince(rows, d.since);
    NewestSinceMeans(rows, d.since, 50);
  }

  lemma {:induction false} CustodyEach(queue: Inbox)
    ensures |CustodyOf(queue)| == |queue|
    ensures forall i :: 0 <= i < |queue| ==>
              CustodyOf(queue)[i] == Custody(queue[i].letter.msgId, queue[i].letter.person, queue[i].letter.queuedAt)
  {
    if queue != [] {
      CustodyEach(queue[1..]);
    }
  }

  /** What it carries of the inbox: id, sender and arrival of exactly the unanswered messages, in order. */
  lemma BriefingQueue(f: Family, m: MemberId, feed: Option<seq<Row>>, now: Time, dayAgo: Time, k: nat)
    requires f.Knows(m) && AnsweredUpTo(f.inbox[m], k)
    ensures var d, box := BuildBriefing(f, m, feed, now, dayAgo), f.inbox[m];
            && |d.queued| == |box| - k
            && (forall i :: 0 <= i < |d.queued| ==>
                  d.queued[i] == Custody(box[k + i].letter.msgId, box[k + i].letter.person, box[k + i].letter.queuedAt))
            && d.memberId == m && d.generatedAt == now && d.presence == f.presence[m] && d.eventsFailed == feed.None?
  {
    hide CustodyOf;
    var box := f.inbox[m];
    QueuedIsTail(box, k);
    CustodyEach(QueuedOf(box));
  }

  /** Two inboxes that differ at most in what the messages say. */
  ghost predicate SameCustody(a: Inbox, b: Inbox) {
    |a| == |b| && forall i :: 0 <= i < |a| ==> SameEnvelope(a[i], b[i])
  }

  predicate SameEnvelope(x: Message, y: Message) {
    && x.status == y.status && x.letter.msgId == y.letter.msgId
    && x.letter.person == y.letter.person && x.letter.queuedAt == y.letter.queuedAt
  }

  lemma CustodyCons(x: Message, rest: Inbox)
    ensures CustodyOf(QueuedOf([x] + rest))
         == (if x.status == Queued then [Custody(x.letter.msgId, x.letter.person, x.letter.queuedAt)] else [])
          + CustodyOf(QueuedOf(rest))
  {
    assert ([x] + rest)[1..] == rest;
    var queue := QueuedOf(rest);
    assert ([x] + queue)[1..] == queue;
    assert [] + queue == queue;
    assert QueuedOf([x] + rest) == if x.status == Queued then [x] + queue else queue;
  }

  lemma {:induction false} CustodyIgnoresContents(a: Inbox, b: Inbox)
    requires SameCustody(a, b)
    ensures CustodyOf(QueuedOf(a)) == CustodyOf(QueuedOf(b))
  {
    hide CustodyOf, QueuedOf;
    if a == [] {
      assert b == [];
    } else {
      assert SameEnvelope(a[0], b[0]);
      CustodyIgnoresContents(a[1..], b[1..]);
      CustodyCons(a[0], a[1..]);
      CustodyCons(b[0], b[1..]);
      assert a == [a[0]] + a[1..] && b == [b[0]] + b[1..];
    }
  }

  /** What queued messages say never reaches a briefing. */
  lemma BriefingHidesContents(f: Family, g: Family, m: MemberId, feed: Option<seq<Row>>, now: Time, dayAgo: Time)
    requires f.Knows(m) && g.Knows(m)
    requires f.presence[m] == g.presence[m] && f.log[m] == g.log[m] && SameCustody(f.inbox[m], g.inbox[m])
    ensures BuildBriefing(f, m, feed, now, dayAgo) == BuildBriefing(g, m, feed, now, dayAgo)
  {
    CustodyIgnoresContents(f.inbox[m], g.inbox[m]);
  }

  /** Its events come from shared rows alone. */
  lemma BriefingIsShared(f: Family, m: MemberId, rows: seq<Row>, now: Time, dayAgo: Time, r: Row)
    requires f.Knows(m) && r in BuildBriefing(f, m, Some(Feed(rows, TIMELINE_MAX)), now, dayAgo).events
    ensures r in rows && InScopes(MetaOf(r), [SHARED_SCOPE])
  {
    FeedIsShared(rows, TIMELINE_MAX, r);
  }
}
