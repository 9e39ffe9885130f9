/** Runs of the memory service, and what every reachable store keeps. */
module MemoryRuns {
  import opened Wrappers
  import opened Text
  import opened Scopes
  import opened ChromaStore
  import opened EmbedderService
  import Migration
  import Decimal

  datatype Op =
    | Write(header: Option<string>, req: WriteRequest)
    | Event(event: EventRequest, uuid: string)
    | Promote(member: string, id: string, person: string)
    | Query(query: QueryRequest)
    | ReadTimeline(limit: int)
    | Backfill(into: string, participants: seq<string>)

  /** The rows an operation asks the store to add (a promotion's depends on the store). */
  function NewRows(cfg: Config, op: Op): seq<Row> {
    match op
    case Write(header, req) => if WriteAllowed(header, req) then WriteRows(cfg, Strip(header.value), req) else []
    case Event(req, uuid) => if EventAllowed(req) then [EventRow(cfg, req, uuid)] else []
    case _ => []
  }

  function AfterOp(cfg: Config, rows: seq<Row>, op: Op): seq<Row> {
    match op
    case Promote(m, id, person) => Promoted(rows, m, id, person)
    case Backfill(m, participants) => Migration.Backfilled(rows, m, participants)
    case _ => Add(rows, NewRows(cfg, op))
  }

  function AfterOps(cfg: Config, rows: seq<Row>, ops: seq<Op>): seq<Row>
    decreases |ops|
  {
    if ops == [] then rows
    else AfterOp(cfg, AfterOps(cfg, rows, ops[..|ops| - 1]), ops[|ops| - 1])
  }

  // ----- adding rows -----------------------------------------------------------------

  lemma {:induction false} AddKeeps(rows: seq<Row>, more: seq<Row>)
    ensures |rows| <= |Add(rows, more)| && Add(rows, more)[..|rows|] == rows
    ensures forall r :: r in Add(rows, more) ==> r in rows || r in more
    ensures Migration.UniqueRows(rows) ==> Migration.UniqueRows(Add(rows, more))
    decreases |more|
  {
    if more != [] {
      var next := if HasId(rows, more[0].id) then rows else rows + [more[0]];
      AddKeeps(next, more[1..]);
      if !HasId(rows, more[0].id) {
        assert next[..|rows|] == rows;
        assert Add(rows, more)[..|rows|] == Add(rows, more)[..|next|][..|rows|];
      }
    }
  }

  /** Of rows with distinct ids, one gets in exactly when nothing holds its id yet (or it is there). */
  lemma {:induction false} AddRowIff(rows: seq<Row>, more: seq<Row>, i: nat)
    requires i < |more| && Migration.UniqueRows(more)
    ensures more[i] in Add(rows, more) <==> more[i] in rows || !HasId(rows, more[i].id)
    decreases |more|
  {
    var head, rest := more[0], more[1..];
    var next := if HasId(rows, head.id) then rows else rows + [head];
    AddKeeps(next, rest);
    if i == 0 {
      if !HasId(rows, head.id) {
        assert head in next && head in Add(next, rest)[..|next|];
      }
    } else {
      assert rest[i - 1] == more[i];
      AddRowIff(next, rest, i - 1);
      IdsAfterOne(rows, head, more[i].id);
    }
  }

  lemma IdsAfterOne(rows: seq<Row>, r: Row, id: string)
    requires r.id != id
    ensures HasId(rows + [r], id) == HasId(rows, id)
  {
    if HasId(rows, id) {
      var x :| x in rows && x.id == id;
      assert x in rows + [r];
    }
  }

  /** All of them get in, and nothing else, exactly when all their ids are new. */
  lemma {:induction false} AddAllIff(rows: seq<Row>, more: seq<Row>)
    requires Migration.UniqueRows(more)
    ensures |Add(rows, more)| <= |rows| + |more|
    ensures |Add(rows, more)| == |rows| + |more| <==> forall r :: r in more ==> !HasId(rows, r.id)
    ensures |Add(rows, more)| == |rows| + |more| <==> Add(rows, more) == rows + more
    decreases |more|
  {
    if more == [] {
      assert rows + more == rows;
    } else {
      var head, rest := more[0], more[1..];
      var next := if HasId(rows, head.id) then rows else rows + [head];
      AddAllIff(next, rest);
      assert more == [head] + rest;
      if !HasId(rows, head.id) {
        assert next + rest == rows + more;
        forall r | r in rest
          ensures HasId(next, r.id) == HasId(rows, r.id)
        {
          IdsAfterOne(rows, head, r.id);
        }
      }
    }
  }

  // ----- promotion ---------------------------------------------------------------------

  predicate EndsWith(s: string, suffix: string) {
    |suffix| <= |s| && s[|s| - |suffix|..] == suffix
  }

  predicate IsPromotedId(id: string) {
    EndsWith(id, "::promoted")
  }

  /** Twelve hexadecimal digits, as `uuid4().hex[:12]` gives them. */
  predicate IsUuid(uuid: string) {
    |uuid| == 12 && forall i :: 0 <= i < 12 ==> '0' <= uuid[i] <= '9' || 'a' <= uuid[i] <= 'f'
  }

  predicate WellFormed(op: Op) {
    op.Event? ==> IsUuid(op.uuid)
  }

  /** No chunk id can be mistaken for a promoted id. */
  lemma ChunkIdNotPromoted(session: string, turnIdx: int, idx: nat)
    ensures !IsPromotedId(ChunkId(session, turnIdx, idx))
  {
    var id, digits := ChunkId(session, turnIdx, idx), Decimal.Print(idx);
    assert id[|id| - 1] == digits[|digits| - 1];
    assert "::promoted"[9] == 'd';
    assert |id| >= 10 ==> id[|id| - 10..][9] == id[|id| - 1];
  }

  /** Nor any event id. */
  lemma EventIdNotPromoted(req: EventRequest, uuid: string)
    requires IsUuid(uuid)
    ensures !IsPromotedId(EventId(req, uuid))
  {
    var id := EventId(req, uuid);
    assert id[|id| - 12..] == uuid;
    assert "::promoted"[0] == ':';
    assert id[|id| - 10..][0] == id[|id| - 10] == uuid[2];
  }

  lemma NewIdsNotPromoted(cfg: Config, op: Op, r: Row)
    requires WellFormed(op) && r in NewRows(cfg, op)
    ensures !IsPromotedId(r.id) && HasScope(MetaOf(r))
  {
    hide ChunkMetadata, TurnChunks, ChunkId, EventId, IsPromotedId, PromotionMetadata, Strip;
    match op
    case Write(header, req) =>
      var i :| 0 <= i < |NewRows(cfg, op)| && NewRows(cfg, op)[i] == r;
      ChunkIdNotPromoted(Strip(header.value), req.turnIdx, i);
      ChunkMetadataScope(Strip(header.value), req, i, |NewRows(cfg, op)|);
      assert req.scope in ReadableScopes(req.memberId);
    case Event(req, uuid) =>
      EventIdNotPromoted(req, uuid);
  }

  /** `copy` is the shared copy of the private row `source`, with its paper trail. */
  predicate IsCopy(copy: Row, source: Row) {
    && copy.id == PromotedId(source.id) && copy.document == source.document && copy.embedding == source.embedding
    && Says(copy, "scope", SHARED_SCOPE) && Says(copy, "member_id", HOUSEHOLD_MEMBER_ID)
    && Says(copy, "origin", "promotion") && Says(copy, "promoted_from", source.id)
    && "promoted_from_member" in MetaOf(copy) && MetaOf(copy)["promoted_from_member"].Str?
    && Says(source, "scope", PrivateScope(MetaOf(copy)["promoted_from_member"].s))
    && (forall key :: key in MetaOf(source) && key !in PAPER_TRAIL ==>
          key in MetaOf(copy) && MetaOf(copy)[key] == MetaOf(source)[key])
  }

  predicate Says(r: Row, key: string, value: string) {
    key in MetaOf(r) && MetaOf(r)[key] == Str(value)
  }

  /** The keys a promotion rewrites; every other key of the source carries over. */
  const PAPER_TRAIL: set<string> :=
    {"scope", "member_id", "origin", "promoted_from", "promoted_from_member", "promoted_by"}

  ghost predicate HasSource(rows: seq<Row>, copy: Row) {
    exists source :: source in rows && IsCopy(copy, source)
  }

  /** Ids are unique, and every promoted row's source is still there, as it was when promoted. */
  ghost predicate StoreInv(rows: seq<Row>) {
    && Migration.UniqueRows(rows)
    && forall r :: r in rows && IsPromotedId(r.id) ==> HasSource(rows, r)
  }

  /** Rows that carry a scope are never changed or removed. */
  ghost predicate ScopedKept(before: seq<Row>, after: seq<Row>) {
    forall r :: r in before && HasScope(MetaOf(r)) ==> r in after
  }

  lemma HasSourceKept(before: seq<Row>, after: seq<Row>, r: Row)
    requires HasSource(before, r) && ScopedKept(before, after)
    ensures HasSource(after, r)
  {
    var source :| source in before && IsCopy(r, source);
    assert HasScope(MetaOf(source));
  }

  lemma AddScopedKept(rows: seq<Row>, more: seq<Row>)
    ensures ScopedKept(rows, Add(rows, more))
  {
    AddKeeps(rows, more);
    var after := Add(rows, more);
    forall r | r in rows
      ensures r in after
    {
      assert r in after[..|rows|];
    }
  }

  lemma AddKeepsInv(rows: seq<Row>, more: seq<Row>)
    requires StoreInv(rows)
    requires forall r :: r in more && IsPromotedId(r.id) ==> HasSource(rows, r)
    ensures StoreInv(Add(rows, more))
  {
    hide HasSource, IsPromotedId;
    AddKeeps(rows, more);
    AddScopedKept(rows, more);
    forall r | r in Add(rows, more) && IsPromotedId(r.id)
      ensures HasSource(Add(rows, more), r)
    {
      HasSourceKept(rows, Add(rows, more), r);
    }
  }

  lemma PromotedIdIsPromoted(id: string)
    ensures IsPromotedId(PromotedId(id))
  {
    assert PromotedId(id)[|PromotedId(id)| - 10..] == "::promoted";
  }

  lemma PromotionIsCopyOf(rows: seq<Row>, m: string, id: string, person: string)
    requires PromotionRow(rows, m, id, person).Some?
    ensures IsCopy(PromotionRow(rows, m, id, person).value, GetById(rows, id).value)
    ensures Says(PromotionRow(rows, m, id, person).value, "promoted_by", person)
  {
    assert PromotionLabels(m, person, id).Keys == PAPER_TRAIL;
  }

  lemma PromotionIsCopy(rows: seq<Row>, m: string, id: string, person: string)
    requires PromotionRow(rows, m, id, person).Some?
    ensures HasSource(rows, PromotionRow(rows, m, id, person).value)
  {
    PromotionIsCopyOf(rows, m, id, person);
  }

  lemma BackfillScopedKept(rows: seq<Row>, m: string, participants: seq<string>)
    ensures ScopedKept(rows, Migration.Backfilled(rows, m, participants))
  {
    var after := Migration.Backfilled(rows, m, participants);
    forall r | r in rows && HasScope(MetaOf(r))
      ensures r in after
    {
      var i :| 0 <= i < |rows| && rows[i] == r;
      assert after[i] == r;
    }
  }

  /** A copy carries the shared scope, so no backfill touches it. */
  lemma CopyHasScope(copy: Row, source: Row)
    requires IsCopy(copy, source)
    ensures HasScope(MetaOf(copy))
  {
  }

  lemma BackfillKeepsInv(rows: seq<Row>, m: string, participants: seq<string>)
    requires StoreInv(rows)
    ensures StoreInv(Migration.Backfilled(rows, m, participants))
  {
    hide IsCopy, IsPromotedId;
    var after := Migration.Backfilled(rows, m, participants);
    BackfillScopedKept(rows, m, participants);
    forall r | r in after && IsPromotedId(r.id)
      ensures HasSource(after, r)
    {
      var i :| 0 <= i < |after| && after[i] == r;
      assert rows[i].id == r.id && HasSource(rows, rows[i]);
      var source :| source in rows && IsCopy(rows[i], source);
      CopyHasScope(rows[i], source);
      HasSourceKept(rows, after, rows[i]);
    }
  }

  /** Every operation keeps the store's invariant, and every scoped row exactly as it is. */
  lemma OpKeepsInv(cfg: Config, rows: seq<Row>, op: Op)
    requires StoreInv(rows) && WellFormed(op)
    ensures StoreInv(AfterOp(cfg, rows, op)) && ScopedKept(rows, AfterOp(cfg, rows, op))
  {
    hide StoreInv, ScopedKept, Add, NewRows;
    match op
    case Promote(m, id, person) =>
      if PromotionRow(rows, m, id, person).Some? {
        var copy := PromotionRow(rows, m, id, person).value;
        PromotionIsCopy(rows, m, id, person);
        AddKeepsInv(rows, [copy]);
        AddScopedKept(rows, [copy]);
      } else {
        NothingChanged(rows);
      }
    case Backfill(m, participants) =>
      BackfillKeepsInv(rows, m, participants);
      BackfillScopedKept(rows, m, participants);
    case _ =>
      forall r | r in NewRows(cfg, op)
        ensures !IsPromotedId(r.id)
      {
        NewIdsNotPromoted(cfg, op, r);
      }
      AddKeepsInv(rows, NewRows(cfg, op));
      AddScopedKept(rows, NewRows(cfg, op));
  }

  lemma NothingChanged(rows: seq<Row>)
    ensures ScopedKept(rows, rows)
  {
  }

  /** In every reachable store each promoted row still has its private source, unmodified, with the
      same document and embedding. */
  lemma {:induction false} RunKeepsInv(cfg: Config, rows: seq<Row>, ops: seq<Op>)
    requires StoreInv(rows) && forall op :: op in ops ==> WellFormed(op)
    ensures StoreInv(AfterOps(cfg, rows, ops)) && ScopedKept(rows, AfterOps(cfg, rows, ops))
    decreases |ops|
  {
    hide StoreInv, AfterOp;
    if ops != [] {
      var init, last := ops[..|ops| - 1], ops[|ops| - 1];
      RunKeepsInv(cfg, rows, init);
      OpKeepsInv(cfg, AfterOps(cfg, rows, init), last);
    }
  }

  lemma EmptyStoreInv()
    ensures StoreInv([])
  {
  }

  lemma {:induction false} GetByIdUnique(rows: seq<Row>, r: Row)
    requires Migration.UniqueRows(rows) && r in rows
    ensures GetById(rows, r.id) == Some(r)
  {
    if rows[0] != r {
      var i :| 0 <= i < |rows| && rows[i] == r;
      GetByIdUnique(rows[1..], r);
    }
  }

  /** Promotion copies: afterwards the source is untouched and exactly one shared copy exists;
      promoting the row again, by anyone, changes nothing and reports it. */
  lemma PromoteOnce(rows: seq<Row>, m: string, id: string, person: string, m2: string, person2: string)
    requires StoreInv(rows)
    requires PromoteAnswer(rows, m, id, person).Ok? && !PromoteAnswer(rows, m, id, person).value.alreadyPromoted
    ensures var once := Promoted(rows, m, id, person);
            && |once| == |rows| + 1 && once[..|rows|] == rows
            && IsCopy(once[|rows|], GetById(rows, id).value) && Says(once[|rows|], "promoted_by", person)
            && GetById(once, id) == GetById(rows, id)
            && Promoted(once, m2, id, person2) == once
            && PromoteAnswer(once, m2, id, person2) == Ok(PromoteResponse(PromotedId(id), id, true))
  {
    var copy := PromotedRow(GetById(rows, id).value, m, person);
    var once := Promoted(rows, m, id, person);
    assert !HasId(rows, copy.id);
    assert Add(rows, [copy]) == rows + [copy] by {
      assert [copy][1..] == [];
    }
    PromotionIsCopyOf(rows, m, id, person);
    AddKeeps(rows, [copy]);
    assert copy in once && GetById(rows, id).value in once;
    GetByIdUnique(once, copy);
    GetByIdUnique(once, GetById(rows, id).value);
  }
}
