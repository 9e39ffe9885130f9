/** Non-interference: what a member keeps to itself shows in no other member's query and no timeline,
    and otherwise only to whoever names the row in a promotion. */
module Isolation {
  import opened Wrappers
  import opened Text
  import opened Scopes
  import opened StableSort
  import opened ChromaStore
  import opened EmbedderService
  import opened MemoryRuns
  import Decimal
  import Migration
  import Timeline

  /** The run without the operations at the positions in `drop`. */
  function Kept(ops: seq<Op>, drop: set<nat>): seq<Op> {
    if ops == [] then []
    else Kept(ops[..|ops| - 1], drop) + if |ops| - 1 in drop then [] else [ops[|ops| - 1]]
  }

  ghost function DroppedIds(cfg: Config, ops: seq<Op>, drop: set<nat>): set<string> {
    set i, r | i in drop && i < |ops| && r in NewRows(cfg, ops[i]) :: r.id
  }

  /** Dropped are only writes of member `n` into its own private or experiential scope. */
  predicate OwnWrite(op: Op, n: string) {
    op.Write? && op.req.memberId == n && OwnScope(op.req.scope, n)
  }

  /** The ids of dropped rows are used by nobody else. */
  ghost predicate FreshIds(cfg: Config, rows: seq<Row>, ops: seq<Op>, drop: set<nat>) {
    var ids := DroppedIds(cfg, ops, drop);
    && (forall r :: r in rows ==> r.id !in ids)
    && (forall i, r :: 0 <= i < |ops| && i !in drop && r in NewRows(cfg, ops[i]) ==> r.id !in ids)
  }

  /** No promotion in the run copies a dropped row. */
  ghost predicate NeverPromoted(cfg: Config, rows: seq<Row>, ops: seq<Op>, drop: set<nat>) {
    forall j :: 0 <= j < |ops| && ops[j].Promote? && ops[j].id in DroppedIds(cfg, ops, drop) ==>
      PromotionRow(AfterOps(cfg, rows, ops[..j]), ops[j].member, ops[j].id, ops[j].person).None?
  }

  ghost predicate Removable(cfg: Config, rows: seq<Row>, ops: seq<Op>, drop: set<nat>, n: string) {
    && (forall op :: op in ops ==> WellFormed(op))
    && (forall i :: i in drop && i < |ops| ==> OwnWrite(ops[i], n))
    && FreshIds(cfg, rows, ops, drop)
    && NeverPromoted(cfg, rows, ops, drop)
  }

  // ----- stores that differ in the dropped rows only ---------------------------------

  function Outside(ids: set<string>): Row -> bool {
    (r: Row) => r.id !in ids
  }

  function Without(rows: seq<Row>, ids: set<string>): seq<Row> {
    Filter(rows, Outside(ids))
  }

  /** Every row with one of these ids lies in a scope only `n` can read. */
  ghost predicate HiddenRows(rows: seq<Row>, ids: set<string>, n: string) {
    forall r :: r in rows && r.id in ids ==> HiddenRow(r, n)
  }

  predicate HiddenRow(r: Row, n: string) {
    InScopes(MetaOf(r), [PrivateScope(n), ExperientialScope(n)])
  }

  lemma {:induction false} GetByIdWithout(rows: seq<Row>, ids: set<string>, id: string)
    ensures GetById(Without(rows, ids), id) == if id in ids then None else GetById(rows, id)
  {
    if rows != [] {
      GetByIdWithout(rows[1..], ids, id);
      assert rows == [rows[0]] + rows[1..];
      FilterHead(rows[0], rows[1..], Outside(ids));
      assert ([rows[0]] + Without(rows[1..], ids))[1..] == Without(rows[1..], ids);
    }
  }

  lemma HasIdWithout(rows: seq<Row>, ids: set<string>, id: string)
    requires id !in ids
    ensures HasId(Without(rows, ids), id) == HasId(rows, id)
  {
    if HasId(rows, id) {
      var r :| r in rows && r.id == id;
      assert r in Without(rows, ids);
    }
  }

  /** Adding rows with other ids commutes with leaving the dropped ones out. */
  lemma {:induction false} AddOthers(rows: seq<Row>, more: seq<Row>, ids: set<string>)
    requires forall r :: r in more ==> r.id !in ids
    ensures Without(Add(rows, more), ids) == Add(Without(rows, ids), more)
    decreases |more|
  {
    if more != [] {
      hide Filter;
      HasIdWithout(rows, ids, more[0].id);
      var next := if HasId(rows, more[0].id) then rows else rows + [more[0]];
      AddOthers(next, more[1..], ids);
      FilterAppend(rows, [more[0]], Outside(ids));
      FilterAll([more[0]], Outside(ids));
    }
  }

  /** Adding rows with dropped ids adds nothing that is left. */
  lemma {:induction false} AddDropped(rows: seq<Row>, more: seq<Row>, ids: set<string>)
    requires forall r :: r in more ==> r.id in ids
    ensures Without(Add(rows, more), ids) == Without(rows, ids)
    decreases |more|
  {
    if more != [] {
      hide Filter;
      var next := if HasId(rows, more[0].id) then rows else rows + [more[0]];
      AddDropped(next, more[1..], ids);
      FilterAppend(rows, [more[0]], Outside(ids));
      FilterAll([more[0]], Outside(ids));
    }
  }

  lemma {:induction false} BackfillWithout(rows: seq<Row>, ids: set<string>, m: string, participants: seq<string>)
    ensures Without(Migration.Backfilled(rows, m, participants), ids)
         == Migration.Backfilled(Without(rows, ids), m, participants)
  {
    if rows != [] {
      hide Filter, Migration.BackfilledRow;
      var x, rest := rows[0], rows[1..];
      var x' := Migration.BackfilledRow(x, m, participants);
      BackfillWithout(rest, ids, m, participants);
      BackfillHead(x, rest, m, participants);
      BackfillHead(x, Without(rest, ids), m, participants);
      FilterHead(x, rest, Outside(ids));
      FilterHead(x', Migration.Backfilled(rest, m, participants), Outside(ids));
      assert rows == [x] + rest;
    }
  }

  lemma BackfillHead(x: Row, rest: seq<Row>, m: string, participants: seq<string>)
    ensures Migration.Backfilled([x] + rest, m, participants)
         == [Migration.BackfilledRow(x, m, participants)] + Migration.Backfilled(rest, m, participants)
    ensures Migration.BackfilledRow(x, m, participants).id == x.id
  {
  }

  // ----- one step in both runs ----------------------------------------------------------

  lemma DroppedRowHidden(cfg: Config, op: Op, n: string, r: Row)
    requires OwnWrite(op, n) && r in NewRows(cfg, op)
    ensures HiddenRow(r, n)
  {
    hide ChunkMetadata, TurnChunks;
    var i :| 0 <= i < |NewRows(cfg, op)| && NewRows(cfg, op)[i] == r;
    var chunks := TurnChunks(cfg, op.req);
    assert r == ChunkRow(cfg, Strip(op.header.value), op.req, chunks, i);
    ChunkMetadataScope(Strip(op.header.value), op.req, i, |chunks|);
  }

  lemma HiddenAfterAdd(rows: seq<Row>, more: seq<Row>, ids: set<string>, n: string)
    requires HiddenRows(rows, ids, n) && forall r :: r in more && r.id in ids ==> HiddenRow(r, n)
    ensures HiddenRows(Add(rows, more), ids, n)
  {
    AddKeeps(rows, more);
  }

  lemma HiddenAfterBackfill(rows: seq<Row>, ids: set<string>, n: string, m: string, participants: seq<string>)
    requires HiddenRows(rows, ids, n)
    ensures HiddenRows(Migration.Backfilled(rows, m, participants), ids, n)
  {
    var after := Migration.Backfilled(rows, m, participants);
    forall r | r in after && r.id in ids
      ensures HiddenRow(r, n)
    {
      var i :| 0 <= i < |after| && after[i] == r;
      assert HiddenRow(rows[i], n);
    }
  }

  lemma PromotionWithout(cfg: Config, rows: seq<Row>, ids: set<string>, m: string, id: string, person: string)
    requires PromotedId(id) !in ids
    requires id in ids ==> PromotionRow(rows, m, id, person).None?
    ensures Promoted(Without(rows, ids), m, id, person) == Without(Promoted(rows, m, id, person), ids)
  {
    hide Filter, Add;
    GetByIdWithout(rows, ids, PromotedId(id));
    GetByIdWithout(rows, ids, id);
    assert PromotionRow(Without(rows, ids), m, id, person) == PromotionRow(rows, m, id, person);
    match PromotionRow(rows, m, id, person)
    case None =>
    case Some(row) => AddOthers(rows, [row], ids);
  }

  /** A kept operation does the same to the store with the dropped rows and without them. */
  lemma KeptStep(cfg: Config, rows: seq<Row>, ids: set<string>, n: string, op: Op)
    requires HiddenRows(rows, ids, n) && forall id :: id in ids ==> !IsPromotedId(id)
    requires forall r :: r in NewRows(cfg, op) ==> r.id !in ids
    requires op.Promote? && op.id in ids ==> PromotionRow(rows, op.member, op.id, op.person).None?
    ensures AfterOp(cfg, Without(rows, ids), op) == Without(AfterOp(cfg, rows, op), ids)
    ensures HiddenRows(AfterOp(cfg, rows, op), ids, n)
  {
    hide Filter, Add, NewRows, HiddenRow, IsPromotedId, Without, PromotionRow;
    match op
    case Promote(m, id, person) =>
      PromotedIdIsPromoted(id);
      PromotionWithout(cfg, rows, ids, m, id, person);
      PromotedRowId(rows, m, id, person);
      if PromotionRow(rows, m, id, person).Some? {
        HiddenAfterAdd(rows, [PromotionRow(rows, m, id, person).value], ids, n);
      }
    case Backfill(m, participants) =>
      BackfillWithout(rows, ids, m, participants);
      HiddenAfterBackfill(rows, ids, n, m, participants);
    case _ =>
      AddOthers(rows, NewRows(cfg, op), ids);
      HiddenAfterAdd(rows, NewRows(cfg, op), ids, n);
  }

  lemma PromotedRowId(rows: seq<Row>, m: string, id: string, person: string)
    ensures PromotionRow(rows, m, id, person).Some? ==> PromotionRow(rows, m, id, person).value.id == PromotedId(id)
  {
  }

  // ----- whole runs -------------------------------------------------------------------------

  lemma DroppedIdsNotPromoted(cfg: Config, ops: seq<Op>, drop: set<nat>)
    requires forall op :: op in ops ==> WellFormed(op)
    ensures forall id :: id in DroppedIds(cfg, ops, drop) ==> !IsPromotedId(id)
  {
    hide NewRows, IsPromotedId;
    forall i, r | i in drop && i < |ops| && r in NewRows(cfg, ops[i])
      ensures !IsPromotedId(r.id)
    {
      NewIdsNotPromoted(cfg, ops[i], r);
    }
  }

  /** After every prefix the two stores differ in the dropped rows only, and those are hidden. */
  lemma {:induction false} StoresAgree(cfg: Config, rows: seq<Row>, ops: seq<Op>, drop: set<nat>, n: string, i: nat)
    requires Removable(cfg, rows, ops, drop, n) && i <= |ops|
    ensures var ids, full := DroppedIds(cfg, ops, drop), AfterOps(cfg, rows, ops[..i]);
            && AfterOps(cfg, rows, Kept(ops[..i], drop)) == Without(full, ids)
            && HiddenRows(full, ids, n)
    decreases i
  {
    hide Filter, Without, NewRows, AfterOp, HiddenRow, WellFormed, OwnWrite, IsPromotedId;
    var ids := DroppedIds(cfg, ops, drop);
    if i == 0 {
      assert ops[..0] == [];
      NothingDropped(rows, ids);
    } else {
      var op := ops[i - 1];
      assert ops[..i][..i - 1] == ops[..i - 1] && ops[..i][i - 1] == op;
      StoresAgree(cfg, rows, ops, drop, n, i - 1);
      var full := AfterOps(cfg, rows, ops[..i - 1]);
      var kept := Kept(ops[..i - 1], drop);
      if i - 1 in drop {
        assert Kept(ops[..i], drop) == kept;
        DroppedStep(cfg, rows, ops, drop, n, i - 1);
      } else {
        assert Kept(ops[..i], drop) == kept + [op];
        assert (kept + [op])[..|kept|] == kept;
        DroppedIdsNotPromoted(cfg, ops, drop);
        KeptStep(cfg, full, ids, n, op);
      }
    }
  }

  lemma NothingDropped(rows: seq<Row>, ids: set<string>)
    requires forall r :: r in rows ==> r.id !in ids
    ensures Without(rows, ids) == rows
  {
    FilterAll(rows, Outside(ids));
  }

  lemma DroppedStep(cfg: Config, rows: seq<Row>, ops: seq<Op>, drop: set<nat>, n: string, j: nat)
    requires Removable(cfg, rows, ops, drop, n) && j < |ops| && j in drop
    requires HiddenRows(AfterOps(cfg, rows, ops[..j]), DroppedIds(cfg, ops, drop), n)
    ensures var ids, full := DroppedIds(cfg, ops, drop), AfterOps(cfg, rows, ops[..j]);
            && Without(AfterOp(cfg, full, ops[j]), ids) == Without(full, ids)
            && HiddenRows(AfterOp(cfg, full, ops[j]), ids, n)
  {
    hide Filter, Without, NewRows, HiddenRow, Add;
    var ids, full := DroppedIds(cfg, ops, drop), AfterOps(cfg, rows, ops[..j]);
    assert OwnWrite(ops[j], n);
    forall r | r in NewRows(cfg, ops[j])
      ensures r.id in ids && HiddenRow(r, n)
    {
      DroppedRowHidden(cfg, ops[j], n, r);
    }
    AddDropped(full, NewRows(cfg, ops[j]), ids);
    HiddenAfterAdd(full, NewRows(cfg, ops[j]), ids, n);
  }

  /** A filter no hidden row passes sees the same rows in both stores. */
  lemma SameView(rows: seq<Row>, ids: set<string>, n: string, w: Where)
    requires HiddenRows(rows, ids, n)
    requires forall r :: HiddenRow(r, n) ==> !Matches(w, MetaOf(r))
    ensures GetWhere(Without(rows, ids), w) == GetWhere(rows, w)
  {
    hide HiddenRow;
    FilterFilter(rows, Outside(ids), (r: Row) => Matches(w, MetaOf(r)));
  }

  lemma HiddenFromOthers(n: string, m: string, session: Option<string>, excludeTurn: Option<string>, r: Row)
    requires n != m && HiddenRow(r, n)
    ensures !Matches(BuildWhere(m, session, excludeTurn), MetaOf(r))
    ensures !Matches(KeyIs("scope", SHARED_SCOPE), MetaOf(r))
  {
    WhereMeaning(m, session, excludeTurn, MetaOf(r));
    OwnScopesAreDisjoint(MetaOf(r)["scope"].s, n, m);
  }

  /** Whole runs: take out any of member `n`'s own-scope writes that nothing ever promotes, and
      no query by another member and no timeline in the run changes its answer. */
  lemma NonInterference(cfg: Config, rows: seq<Row>, ops: seq<Op>, drop: set<nat>, n: string, i: nat)
    requires Removable(cfg, rows, ops, drop, n) && i < |ops|
    ensures var with, without := AfterOps(cfg, rows, ops[..i]), AfterOps(cfg, rows, Kept(ops[..i], drop));
            && (ops[i].Query? && ops[i].query.memberId != n ==>
                  QueryAnswer(cfg, with, ops[i].query) == QueryAnswer(cfg, without, ops[i].query))
            && (ops[i].ReadTimeline? ==> Timeline.Feed(with, ops[i].limit) == Timeline.Feed(without, ops[i].limit))
  {
    hide Removable, Without, HiddenRow, GetWhere, AfterOps, DroppedIds, Kept;
    StoresAgree(cfg, rows, ops, drop, n, i);
    var ids, full := DroppedIds(cfg, ops, drop), AfterOps(cfg, rows, ops[..i]);
    if ops[i].Query? && ops[i].query.memberId != n {
      var q := ops[i].query;
      forall r | HiddenRow(r, n)
        ensures !Matches(BuildWhere(q.memberId, q.session, q.excludeTurn), MetaOf(r))
      {
        HiddenFromOthers(n, q.memberId, q.session, q.excludeTurn, r);
      }
      SameView(full, ids, n, BuildWhere(q.memberId, q.session, q.excludeTurn));
    }
    if ops[i].ReadTimeline? {
      forall r | HiddenRow(r, n)
        ensures !Matches(KeyIs("scope", SHARED_SCOPE), MetaOf(r))
      {
        HiddenFromOthers(n, n + "x", None, None, r);
      }
      SameView(full, ids, n, KeyIs("scope", SHARED_SCOPE));
    }
  }

  // ----- every response of the service -----------------------------------------------------

  /** What a request is answered, as far as that depends on the store. */
  datatype Response =
    | FromRequest
    | Matched(matches: seq<Match>)
    | Shown(events: seq<Row>)
    | Promoting(answer: Result<PromoteResponse, HttpError>)

  function ResponseTo(cfg: Config, rows: seq<Row>, op: Op): Response {
    match op
    case Query(q) => Matched(QueryAnswer(cfg, rows, q))
    case ReadTimeline(limit) => Shown(Timeline.Feed(rows, limit))
    case Promote(m, id, person) => Promoting(PromoteAnswer(rows, m, id, person))
    case _ => FromRequest
  }

  /** A promotion that names a dropped row while it is stored, and no copy of it. */
  predicate Probes(rows: seq<Row>, op: Op, ids: set<string>) {
    op.Promote? && op.id in ids && GetById(rows, op.id).Some? && GetById(rows, PromotedId(op.id)).None?
  }

  /** With the row the promotion is refused, without it the row is not found. */
  lemma PromotionTells(rows: seq<Row>, ids: set<string>, m: string, id: string, person: string)
    requires PromotedId(id) !in ids && (id in ids ==> PromotionRow(rows, m, id, person).None?)
    ensures PromoteAnswer(Without(rows, ids), m, id, person) == PromoteAnswer(rows, m, id, person)
       <==> !(id in ids && GetById(rows, id).Some? && GetById(rows, PromotedId(id)).None?)
  {
    hide Without, GetById, PromotionMetadata;
    GetByIdWithout(rows, ids, PromotedId(id));
    GetByIdWithout(rows, ids, id);
  }

  /** Whole runs: take out any of member `n`'s own-scope writes that nothing ever promotes. The answer
      to any request but `n`'s own queries stays the same, unless the request is a promotion that names
      one of the rows taken out: then, and only then, 400 becomes 404. */
  lemma ResponsesUnchangedIff(cfg: Config, rows: seq<Row>, ops: seq<Op>, drop: set<nat>, n: string, i: nat)
    requires Removable(cfg, rows, ops, drop, n) && i < |ops|
    requires ops[i].Query? ==> ops[i].query.memberId != n
    ensures var with, without := AfterOps(cfg, rows, ops[..i]), AfterOps(cfg, rows, Kept(ops[..i], drop));
            ResponseTo(cfg, with, ops[i]) == ResponseTo(cfg, without, ops[i])
            <==> !Probes(with, ops[i], DroppedIds(cfg, ops, drop))
  {
    hide Without, AfterOps, DroppedIds, Kept, QueryAnswer, Timeline.Feed, HiddenRows, PromoteAnswer, FreshIds, IsPromotedId;
    if ops[i].Promote? {
      var op, ids := ops[i], DroppedIds(cfg, ops, drop);
      StoresAgree(cfg, rows, ops, drop, n, i);
      DroppedIdsNotPromoted(cfg, ops, drop);
      PromotedIdIsPromoted(op.id);
      PromotionTells(AfterOps(cfg, rows, ops[..i]), ids, op.member, op.id, op.person);
    } else {
      NonInterference(cfg, rows, ops, drop, n, i);
    }
  }

  // ----- where fresh ids come from ------------------------------------------------------------

  lemma ChunkIdInjective(s1: string, t1: int, i1: nat, s2: string, t2: int, i2: nat)
    ensures ChunkId(s1, t1, i1) == ChunkId(s2, t2, i2) ==> s1 == s2 && t1 == t2 && i1 == i2
  {
    SuffixAfterColon(ParentTurnId(s1, t1), Decimal.Print(i1), ParentTurnId(s2, t2), Decimal.Print(i2));
    SuffixAfterColon(s1, Decimal.PrintInt(t1), s2, Decimal.PrintInt(t2));
    Decimal.PrintIntInjective(t1, t2);
    Decimal.PrintIntInjective(i1, i2);
  }

  /** Turns written under different (session, turn index) pairs never share a row id. */
  lemma DistinctTurnsFresh(cfg: Config, s1: string, r1: WriteRequest, i1: nat, s2: string, r2: WriteRequest, i2: nat)
    requires i1 < |WriteRows(cfg, s1, r1)| && i2 < |WriteRows(cfg, s2, r2)|
    requires (s1, r1.turnIdx) != (s2, r2.turnIdx)
    ensures WriteRows(cfg, s1, r1)[i1].id != WriteRows(cfg, s2, r2)[i2].id
  {
    hide ChunkMetadata, TurnChunks, ChunkId;
    ChunkIdInjective(s1, r1.turnIdx, i1, s2, r2.turnIdx, i2);
  }

  /** The chunks of one turn have ids of their own. */
  lemma WriteRowsUnique(cfg: Config, session: string, req: WriteRequest)
    ensures Migration.UniqueRows(WriteRows(cfg, session, req))
  {
    hide ChunkMetadata, TurnChunks, ChunkId;
    var rows := WriteRows(cfg, session, req);
    forall i, j | 0 <= i < j < |rows|
      ensures rows[i].id != rows[j].id
    {
      ChunkIdInjective(session, req.turnIdx, i, session, req.turnIdx, j);
    }
  }

  /** A session name that cannot be taken for the start of an event id. */
  predicate PlainSession(session: string) {
    session != "event" && !("event:" <= session)
  }

  /** Chunks of such a session are never events. */
  lemma EventIdNotChunk(req: EventRequest, uuid: string, session: string, turnIdx: int, idx: nat)
    requires PlainSession(session)
    ensures EventId(req, uuid) != ChunkId(session, turnIdx, idx)
  {
    hide Decimal.Print, Decimal.PrintInt, Strip;
    var tail := ":" + Decimal.PrintInt(turnIdx) + ":" + Decimal.Print(idx);
    assert ChunkId(session, turnIdx, idx) == session + tail;
    assert EventId(req, uuid)[..6] == "event:";
    NotEventPrefix(session, tail);
  }

  lemma NotEventPrefix(session: string, tail: string)
    requires PlainSession(session) && |tail| >= 2 && tail[0] == ':'
    ensures |session + tail| >= 6 ==> (session + tail)[..6] != "event:"
  {
    var s := session + tail;
    if |session| >= 6 {
      assert s[..6] == session[..6];
    } else if |session| == 5 {
      assert s[..6][..5] == session;
      assert "event:"[..5] == "event";
    } else if |s| >= 6 {
      assert s[..6][|session|] == ':';
    }
  }

  /** Each turn is written once: no two accepted writes share session and turn index. */
  ghost predicate DistinctTurns(ops: seq<Op>) {
    forall i, j :: 0 <= i < j < |ops| && TurnWrite(ops[i]) && TurnWrite(ops[j]) ==> TurnOf(ops[i]) != TurnOf(ops[j])
  }

  predicate TurnWrite(op: Op) {
    op.Write? && WriteAllowed(op.header, op.req)
  }

  function TurnOf(op: Op): (string, int)
    requires TurnWrite(op)
  {
    (Strip(op.header.value), op.req.turnIdx)
  }

  /** Two different turns, or a turn and an event, add no common id. */
  lemma OpsShareNoId(cfg: Config, a: Op, b: Op, r: Row, x: Row)
    requires TurnWrite(a) && PlainSession(TurnOf(a).0) && (TurnWrite(b) ==> TurnOf(a) != TurnOf(b))
    requires r in NewRows(cfg, a) && x in NewRows(cfg, b)
    ensures r.id != x.id
  {
    hide ChunkMetadata, TurnChunks, ChunkId, EventId, PlainSession, Strip, WriteAllowed;
    var i :| 0 <= i < |NewRows(cfg, a)| && NewRows(cfg, a)[i] == r;
    var j :| 0 <= j < |NewRows(cfg, b)| && NewRows(cfg, b)[j] == x;
    match b
    case Write(header, req) =>
      DistinctTurnsFresh(cfg, TurnOf(a).0, a.req, i, TurnOf(b).0, req, j);
    case Event(req, uuid) =>
      EventIdNotChunk(req, uuid, TurnOf(a).0, a.req.turnIdx, i);
  }

  /** So a run in which each turn is written once needs no assumption about ids. */
  lemma DistinctTurnsGiveFreshIds(cfg: Config, ops: seq<Op>, drop: set<nat>, n: string)
    requires DistinctTurns(ops) && forall i :: i in drop && i < |ops| ==> OwnWrite(ops[i], n)
    requires forall op :: op in ops && TurnWrite(op) ==> PlainSession(TurnOf(op).0)
    ensures FreshIds(cfg, [], ops, drop)
  {
    hide NewRows, TurnWrite, TurnOf, PlainSession;
    forall i, j, r, x | 0 <= i < |ops| && i !in drop && r in NewRows(cfg, ops[i])
                     && j in drop && j < |ops| && x in NewRows(cfg, ops[j])
      ensures r.id != x.id
    {
      DroppedIsTurn(cfg, ops[j], n, x);
      assert ops[j] in ops;
      OpsShareNoId(cfg, ops[j], ops[i], x, r);
    }
  }

  lemma DroppedIsTurn(cfg: Config, op: Op, n: string, r: Row)
    requires OwnWrite(op, n) && r in NewRows(cfg, op)
    ensures TurnWrite(op)
  {
  }
}
