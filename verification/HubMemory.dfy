/** Custody ends in the store: when a reply that claims to be remembered really is. */
module HubMemory {
  import opened Wrappers
  import opened Text
  import opened Scopes
  import opened ChromaStore
  import opened EmbedderService
  import opened MemoryRuns
  import opened Isolation
  import opened FamilyInbox
  import opened Brainstem
  import opened HubRuns
  import opened HubTurns
  import opened HubCustody
  import HubSessions
  import ChunkTurn

  // ----- the memory service's history ------------------------------------------------

  /** What a turn's write carries besides the exchange. */
  datatype Call = Call(ts: string, modelUsed: string, userTokens: int, assistantTokens: int)

  /** What the memory service served: a turn of the hub (`acked` says whether the hub learnt of it), or
      anything else. */
  datatype Entry = FromHub(write: MemoryWrite, call: Call, acked: bool) | FromElsewhere(op: Op)

  /** The request the hub sends for a turn: the member's private scope, the sender as participant. */
  function RequestOf(w: MemoryWrite, c: Call): WriteRequest {
    WriteRequest(w.userText, w.assistantText, w.turnIdx, c.ts, c.modelUsed, c.userTokens, c.assistantTokens,
                 "brainstem_4070", false, PrivateScope(w.memberId), w.memberId, "conversation", [w.person])
  }

  function OpOf(e: Entry): Op {
    match e
    case FromHub(w, c, _) => Write(Some(w.sessionId), RequestOf(w, c))
    case FromElsewhere(op) => op
  }

  function Ops(history: seq<Entry>): (ops: seq<Op>)
    ensures |ops| == |history|
  {
    seq(|history|, i requires 0 <= i < |history| => OpOf(history[i]))
  }

  /** The writes the hub knows were accepted, in order. */
  function Accepted(history: seq<Entry>): seq<MemoryWrite> {
    if history == [] then []
    else
      var last := history[|history| - 1];
      Accepted(history[..|history| - 1]) + if Acked(last) then [last.write] else []
  }

  predicate Acked(e: Entry) {
    e.FromHub? && e.acked
  }

  /** No write of the hub landed without the hub knowing. */
  ghost predicate AllAcked(history: seq<Entry>) {
    forall i :: 0 <= i < |history| && history[i].FromHub? ==> history[i].acked
  }

  /** The form of the session ids the hub mints. */
  predicate HubSession(sid: string) {
    |sid| == 17 && sid[..5] == "sess_" && IsUuid(sid[5..])
  }

  /** Others write under their own sessions; promotions, events, backfills and queries are free. */
  predicate KeepsOff(op: Op) {
    WellFormed(op) && (TurnWrite(op) ==> !HubSession(TurnOf(op).0))
  }

  predicate GoodEntry(e: Entry) {
    match e
    case FromHub(w, _, _) => HubSession(w.sessionId)
    case FromElsewhere(op) => KeepsOff(op)
  }

  /** The clock moves on between the hub's turns. */
  ghost predicate GoodHistory(history: seq<Entry>) {
    && (forall i :: 0 <= i < |history| ==> GoodEntry(history[i]))
    && (forall i, j :: 0 <= i < j < |history| && history[i].FromHub? && history[j].FromHub? ==>
          history[i].call.ts != history[j].call.ts)
  }

  function StoreAfter(cfg: Config, history: seq<Entry>, n: nat): seq<Row>
    requires n <= |history|
  {
    AfterOps(cfg, [], Ops(history)[..n])
  }

  /** The whole exchange of entry `k` is in the final store, chunk by chunk. */
  ghost predicate Stored(cfg: Config, history: seq<Entry>, k: nat)
    requires k < |history| && history[k].FromHub?
  {
    var w := history[k].write;
    forall r :: r in WriteRows(cfg, w.sessionId, RequestOf(w, history[k].call)) ==>
      r in StoreAfter(cfg, history, |history|)
  }

  /** An earlier turn was written under the session and turn index of entry `k`. */
  predicate UsedBefore(history: seq<Entry>, k: nat)
    requires k < |history| && history[k].FromHub?
  {
    exists j :: 0 <= j < k && SameTurn(history[j], history[k])
  }

  predicate SameTurn(a: Entry, b: Entry) {
    a.FromHub? && b.FromHub? && a.write.sessionId == b.write.sessionId && a.write.turnIdx == b.write.turnIdx
  }

  // ----- the rows of a turn -------------------------------------------------------------

  lemma HubSessionPlain(sid: string)
    requires HubSession(sid)
    ensures Strip(sid) == sid && PlainSession(sid)
  {
    assert sid[0] == sid[..5][0] == 's';
    assert sid[16] == sid[5..][11];
    assert FirstInk(sid, 0) == 0 && LastInk(sid, 17) == 17;
    assert sid[0..17] == sid;
    assert "event:"[0] == "event"[0] == 'e';
  }

  lemma HubWriteAllowed(w: MemoryWrite, c: Call, acked: bool)
    requires HubSession(w.sessionId)
    ensures TurnWrite(OpOf(FromHub(w, c, acked))) && TurnOf(OpOf(FromHub(w, c, acked))) == (w.sessionId, w.turnIdx)
    ensures PlainSession(w.sessionId)
  {
    HubSessionPlain(w.sessionId);
    assert ORIGINS[0] == "conversation";
    assert ReadableScopes(w.memberId)[0] == PrivateScope(w.memberId);
  }

  lemma HubRows(cfg: Config, w: MemoryWrite, c: Call, acked: bool)
    requires HubSession(w.sessionId)
    ensures NewRows(cfg, OpOf(FromHub(w, c, acked))) == WriteRows(cfg, w.sessionId, RequestOf(w, c)) != []
    ensures WellFormed(OpOf(FromHub(w, c, acked)))
  {
    hide WriteAllowed, ChunkTurn.Chunks, ChunkMetadata, ChunkId;
    HubWriteAllowed(w, c, acked);
    HubSessionPlain(w.sessionId);
    ChunkTurn.TurnAlwaysChunks(w.userText, w.assistantText, cfg.tok, cfg.threshold, cfg.target, cfg.overlap);
  }

  /** Each row of a turn carries the time of the turn, a scope, and an id that is no promoted id. */
  lemma HubRowMarks(cfg: Config, w: MemoryWrite, c: Call, r: Row)
    requires HubSession(w.sessionId) && r in WriteRows(cfg, w.sessionId, RequestOf(w, c))
    ensures Says(r, "ts", c.ts) && HasScope(MetaOf(r)) && !IsPromotedId(r.id)
  {
    hide ChunkId, IsPromotedId, WriteAllowed, TurnChunks, HubSession, HasScope, NewRows;
    HubRows(cfg, w, c, true);
    NewIdsNotPromoted(cfg, OpOf(FromHub(w, c, true)), r);
  }

  // ----- where stored rows come from ----------------------------------------------------

  lemma PrefixOps(history: seq<Entry>, n: nat)
    requires n < |history|
    ensures Ops(history)[..n + 1][..n] == Ops(history)[..n] && Ops(history)[..n + 1][n] == OpOf(history[n])
  {
  }

  lemma StoreStep(cfg: Config, history: seq<Entry>, n: nat)
    requires n < |history|
    ensures StoreAfter(cfg, history, n + 1) == AfterOp(cfg, StoreAfter(cfg, history, n), OpOf(history[n]))
  {
    hide AfterOp;
    PrefixOps(history, n);
  }

  lemma EntryWellFormed(e: Entry)
    requires GoodEntry(e)
    ensures WellFormed(OpOf(e))
  {
  }

  lemma {:induction false} StoreKeepsInv(cfg: Config, history: seq<Entry>, n: nat)
    requires GoodHistory(history) && n <= |history|
    ensures StoreInv(StoreAfter(cfg, history, n))
  {
    hide StoreInv, AfterOp, GoodEntry;
    if n == 0 {
      assert Ops(history)[..0] == [];
      EmptyStoreInv();
    } else {
      StoreKeepsInv(cfg, history, n - 1);
      StoreStep(cfg, history, n - 1);
      EntryWellFormed(history[n - 1]);
      OpKeepsInv(cfg, StoreAfter(cfg, history, n - 1), OpOf(history[n - 1]));
    }
  }

  /** A scoped row, once stored, is there at the end. */
  lemma {:induction false} StaysStored(cfg: Config, history: seq<Entry>, k: nat, n: nat, r: Row)
    requires GoodHistory(history) && k <= n <= |history|
    requires r in StoreAfter(cfg, history, k) && HasScope(MetaOf(r))
    ensures r in StoreAfter(cfg, history, n)
    decreases n
  {
    hide StoreInv, AfterOp, GoodEntry;
    if k < n {
      StaysStored(cfg, history, k, n - 1, r);
      StoreKeepsInv(cfg, history, n - 1);
      StoreStep(cfg, history, n - 1);
      EntryWellFormed(history[n - 1]);
      OpKeepsInv(cfg, StoreAfter(cfg, history, n - 1), OpOf(history[n - 1]));
    }
  }

  /** What one operation leaves in the store was there before, is new, or is a promoted copy. */
  lemma RowOrigin(cfg: Config, rows: seq<Row>, op: Op, r: Row) returns (was: Row)
    requires r in AfterOp(cfg, rows, op) && !IsPromotedId(r.id)
    ensures r in NewRows(cfg, op) || (was in rows && was.id == r.id && (HasScope(MetaOf(was)) ==> was == r))
  {
    hide NewRows, IsPromotedId, Add, HasScope;
    was := r;
    match op
    case Promote(m, id, person) =>
      PromotedRowId(rows, m, id, person);
      if PromotionRow(rows, m, id, person).Some? {
        PromotedIdIsPromoted(id);
        AddKeeps(rows, [PromotionRow(rows, m, id, person).value]);
      }
    case Backfill(m, participants) =>
      var i :| 0 <= i < |rows| && AfterOp(cfg, rows, op)[i] == r;
      was := rows[i];
    case _ => AddKeeps(rows, NewRows(cfg, op));
  }

  lemma EmptyAtFirst(cfg: Config, history: seq<Entry>)
    ensures StoreAfter(cfg, history, 0) == []
  {
    assert Ops(history)[..0] == [];
  }

  /** Every stored row that is not a promoted copy was brought by some entry, just as it is. */
  lemma {:induction false} StoredRowOrigin(cfg: Config, history: seq<Entry>, n: nat, r: Row) returns (j: nat)
    requires GoodHistory(history) && n <= |history|
    requires r in StoreAfter(cfg, history, n) && !IsPromotedId(r.id)
    ensures j < n && r in NewRows(cfg, OpOf(history[j]))
    decreases n
  {
    hide NewRows, AfterOp, GoodEntry, HasScope, IsPromotedId, OpOf;
    EmptyAtFirst(cfg, history);
    if n == 0 {
      assert false;
    } else {
      StoreStep(cfg, history, n - 1);
      var op := OpOf(history[n - 1]);
      var was := RowOrigin(cfg, StoreAfter(cfg, history, n - 1), op, r);
      if r in NewRows(cfg, op) {
        j := n - 1;
      } else {
        j := StoredRowOrigin(cfg, history, n - 1, was);
        EntryWellFormed(history[j]);
        NewIdsNotPromoted(cfg, OpOf(history[j]), was);
      }
    }
  }

  /** Whoever holds an id of turn `k` is a turn of the hub with the same session and index. */
  lemma IdHolder(cfg: Config, history: seq<Entry>, k: nat, j: nat, r: Row, x: Row)
    requires GoodHistory(history) && k < |history| && history[k].FromHub? && j < |history|
    requires r in NewRows(cfg, OpOf(history[k])) && x in NewRows(cfg, OpOf(history[j])) && x.id == r.id
    ensures SameTurn(history[j], history[k])
  {
    hide NewRows, HubSession, PlainSession, TurnWrite, TurnOf;
    assert GoodEntry(history[k]) && GoodEntry(history[j]);
    HubWriteAllowed(history[k].write, history[k].call, history[k].acked);
    if history[j].FromHub? {
      HubWriteAllowed(history[j].write, history[j].call, history[j].acked);
    }
    if !SameTurn(history[j], history[k]) {
      OpsShareNoId(cfg, OpOf(history[k]), OpOf(history[j]), r, x);
      assert false;
    }
  }

  // ----- exactly when a turn is stored ----------------------------------------------------

  lemma IdFree(cfg: Config, history: seq<Entry>, k: nat, r: Row)
    requires GoodHistory(history) && k < |history| && history[k].FromHub? && !UsedBefore(history, k)
    requires r in NewRows(cfg, OpOf(history[k])) && !IsPromotedId(r.id)
    ensures !HasId(StoreAfter(cfg, history, k), r.id)
  {
    hide NewRows, IsPromotedId, StoreAfter, GoodEntry, SameTurn;
    if HasId(StoreAfter(cfg, history, k), r.id) {
      var x :| x in StoreAfter(cfg, history, k) && x.id == r.id;
      var j := StoredRowOrigin(cfg, history, k, x);
      IdHolder(cfg, history, k, j, r, x);
      assert false;
    }
  }

  lemma TurnIsHub(history: seq<Entry>, k: nat)
    requires GoodHistory(history) && k < |history| && history[k].FromHub?
    ensures HubSession(history[k].write.sessionId)
  {
    assert GoodEntry(history[k]);
  }

  lemma UnusedRowStored(cfg: Config, history: seq<Entry>, k: nat, i: nat)
    requires GoodHistory(history) && k < |history| && history[k].FromHub? && !UsedBefore(history, k)
    requires i < |WriteRows(cfg, history[k].write.sessionId, RequestOf(history[k].write, history[k].call))|
    ensures WriteRows(cfg, history[k].write.sessionId, RequestOf(history[k].write, history[k].call))[i]
         in StoreAfter(cfg, history, |history|)
  {
    hide *;
    TurnIsHub(history, k);
    var w, c, before := history[k].write, history[k].call, StoreAfter(cfg, history, k);
    var rows := WriteRows(cfg, w.sessionId, RequestOf(w, c));
    HubRows(cfg, w, c, history[k].acked);
    WriteRowsUnique(cfg, w.sessionId, RequestOf(w, c));
    StoreStep(cfg, history, k);
    HubRowMarks(cfg, w, c, rows[i]);
    IdFree(cfg, history, k, rows[i]);
    AddRowIff(before, rows, i);
    assert AfterOp(cfg, before, OpOf(history[k])) == Add(before, rows) by {
      HubAfter(cfg, before, w, c, history[k].acked);
    }
    StaysStored(cfg, history, k + 1, |history|, rows[i]);
  }

  lemma HubAfter(cfg: Config, rows: seq<Row>, w: MemoryWrite, c: Call, acked: bool)
    requires HubSession(w.sessionId)
    ensures AfterOp(cfg, rows, OpOf(FromHub(w, c, acked))) == Add(rows, WriteRows(cfg, w.sessionId, RequestOf(w, c)))
  {
    hide NewRows, WriteRows;
    HubRows(cfg, w, c, acked);
  }

  lemma UnusedIsStored(cfg: Config, history: seq<Entry>, k: nat)
    requires GoodHistory(history) && k < |history| && history[k].FromHub? && !UsedBefore(history, k)
    ensures Stored(cfg, history, k)
  {
    hide GoodHistory, UsedBefore, StoreAfter, WriteRows;
    var w := history[k].write;
    var rows := WriteRows(cfg, w.sessionId, RequestOf(w, history[k].call));
    forall i | 0 <= i < |rows|
      ensures rows[i] in StoreAfter(cfg, history, |history|)
    {
      UnusedRowStored(cfg, history, k, i);
    }
  }

  /** After an earlier turn under the same session and index, its first chunk holds the id. */
  lemma UsedIsLost(cfg: Config, history: seq<Entry>, k: nat, j: nat)
    requires GoodHistory(history) && j < k < |history| && SameTurn(history[j], history[k])
    ensures !Stored(cfg, history, k)
  {
    hide IsPromotedId, Add, HasScope, StoreInv, ChunkMetadata, TurnChunks, ChunkId;
    assert GoodEntry(history[k]) && GoodEntry(history[j]);
    var w, c := history[k].write, history[k].call;
    var r := WriteRows(cfg, w.sessionId, RequestOf(w, c));
    HubRows(cfg, w, c, history[k].acked);
    HubRowMarks(cfg, w, c, r[0]);
    var x, p := Holder(cfg, history, k, j);
    HubRowMarks(cfg, history[p].write, history[p].call, x);
    StaysStored(cfg, history, j + 1, |history|, x);
    StoreKeepsInv(cfg, history, |history|);
    OnePerId(StoreAfter(cfg, history, |history|), x, r[0]);
    assert r[0] in r;
  }

  lemma OnePerId(rows: seq<Row>, x: Row, r: Row)
    requires StoreInv(rows) && x in rows && x.id == r.id && x != r
    ensures r !in rows
  {
  }

  /** The row that holds the id of turn `k`'s first chunk, and the earlier turn that brought it. */
  lemma Holder(cfg: Config, history: seq<Entry>, k: nat, j: nat) returns (x: Row, p: nat)
    requires GoodHistory(history) && j < k < |history| && SameTurn(history[j], history[k])
    requires HubSession(history[k].write.sessionId)
    ensures var w := history[k].write;
            && WriteRows(cfg, w.sessionId, RequestOf(w, history[k].call)) != []
            && x.id == WriteRows(cfg, w.sessionId, RequestOf(w, history[k].call))[0].id
            && x in StoreAfter(cfg, history, j + 1)
            && p < k && history[p].FromHub? && HubSession(history[p].write.sessionId)
            && x in WriteRows(cfg, history[p].write.sessionId, RequestOf(history[p].write, history[p].call))
  {
    hide NewRows, IsPromotedId, Add, StoreAfter, ChunkMetadata, TurnChunks, ChunkId;
    var v, w := history[j].write, history[k].write;
    HubRows(cfg, v, history[j].call, history[j].acked);
    HubRows(cfg, w, history[k].call, history[k].acked);
    var mine, theirs := WriteRows(cfg, w.sessionId, RequestOf(w, history[k].call)),
                        WriteRows(cfg, v.sessionId, RequestOf(v, history[j].call));
    assert mine[0].id == theirs[0].id == ChunkId(w.sessionId, w.turnIdx, 0);
    StoreStep(cfg, history, j);
    AddHasAll(StoreAfter(cfg, history, j), theirs);
    assert theirs[0] in theirs && mine[0] in mine;
    x :| x in StoreAfter(cfg, history, j + 1) && x.id == theirs[0].id;
    HubRowMarks(cfg, w, history[k].call, mine[0]);
    p := StoredRowOrigin(cfg, history, j + 1, x);
    IdHolder(cfg, history, k, p, mine[0], x);
    assert GoodEntry(history[p]);
    HubRows(cfg, history[p].write, history[p].call, history[p].acked);
  }

  /** The memory service answers 200 either way, but a turn's exchange ends up in the store exactly
      when no earlier turn was written under its session and turn index. */
  lemma StoredIff(cfg: Config, history: seq<Entry>, k: nat)
    requires GoodHistory(history) && k < |history| && history[k].FromHub?
    ensures Stored(cfg, history, k) <==> !UsedBefore(history, k)
  {
    hide Stored, SameTurn;
    if UsedBefore(history, k) {
      var j :| 0 <= j < k && SameTurn(history[j], history[k]);
      UsedIsLost(cfg, history, k, j);
    } else {
      UnusedIsStored(cfg, history, k);
    }
  }

  /** So a write that lands although its acknowledgement is lost costs the next turn its place. */
  lemma LostAckLosesTurn(cfg: Config, w: MemoryWrite, c: Call, next: MemoryWrite, d: Call)
    requires HubSession(w.sessionId) && c.ts != d.ts
    requires next.sessionId == w.sessionId && next.turnIdx == w.turnIdx
    ensures var history := [FromHub(w, c, false), FromHub(next, d, true)];
            Accepted(history) == [next] && Stored(cfg, history, 0) && !Stored(cfg, history, 1)
  {
    hide Stored;
    var history := [FromHub(w, c, false), FromHub(next, d, true)];
    AcceptedStep(history, 0);
    AcceptedStep(history, 1);
    NoneAccepted(history);
    assert history[..2] == history;
    StoredIff(cfg, history, 0);
    assert SameTurn(history[0], history[1]);
    StoredIff(cfg, history, 1);
  }

  lemma {:induction false} AddHasAll(rows: seq<Row>, more: seq<Row>)
    ensures forall r :: r in more ==> HasId(Add(rows, more), r.id)
    decreases |more|
  {
    if more != [] {
      var next := if HasId(rows, more[0].id) then rows else rows + [more[0]];
      assert HasId(next, more[0].id) by {
        if !HasId(rows, more[0].id) {
          assert more[0] in next;
        }
      }
      AddHasAll(next, more[1..]);
      AddKeeps(next, more[1..]);
      var known :| known in next && known.id == more[0].id;
      assert known in Add(next, more[1..])[..|next|];
    }
  }

  // ----- the hub's log and the history ----------------------------------------------------

  /** Where entry `k` stands among the hub's writes. */
  function RankOfEntry(history: seq<Entry>, k: nat): nat
    requires k <= |history|
  {
    |Accepted(history[..k])|
  }

  lemma AcceptedStep(history: seq<Entry>, n: nat)
    requires n < |history|
    ensures Accepted(history[..n + 1])
         == Accepted(history[..n]) + if Acked(history[n]) then [history[n].write] else []
  {
    assert history[..n + 1][..n] == history[..n];
  }

  /** An acknowledged entry is the write at its rank, and later ones rank higher. */
  lemma {:induction false} EntryAtRank(history: seq<Entry>, k: nat, n: nat)
    requires k < n <= |history| && Acked(history[k])
    ensures RankOfEntry(history, k) < |Accepted(history[..n])|
    ensures Accepted(history[..n])[RankOfEntry(history, k)] == history[k].write
    decreases n
  {
    AcceptedStep(history, n - 1);
    if k < n - 1 {
      EntryAtRank(history, k, n - 1);
    }
  }

  lemma NoneAccepted(history: seq<Entry>)
    ensures Accepted(history[..0]) == []
  {
    assert history[..0] == [];
  }

  /** Every write in the hub's log is an entry. */
  lemma {:induction false} EntryOfWrite(history: seq<Entry>, n: nat, i: nat) returns (k: nat)
    requires n <= |history| && i < |Accepted(history[..n])|
    ensures k < n && Acked(history[k]) && RankOfEntry(history, k) == i
    ensures history[k].write == Accepted(history[..n])[i]
    decreases n
  {
    NoneAccepted(history);
    if n == 0 {
      assert false;
    } else {
      AcceptedStep(history, n - 1);
      if i < |Accepted(history[..n - 1])| {
        k := EntryOfWrite(history, n - 1, i);
      } else {
        k := n - 1;
      }
    }
  }

  /** While the books balance, no turn of the hub repeats an earlier one. */
  lemma BooksNeverRepeat(h: Hub, history: seq<Entry>, k: nat)
    requires Books(h) && Accepted(history) == h.written && AllAcked(history) && k < |history| && history[k].FromHub?
    ensures !UsedBefore(history, k)
  {
    hide Books, Accepted;
    assert history[..|history|] == history;
    forall j | 0 <= j < k
      ensures !SameTurn(history[j], history[k])
    {
      if history[j].FromHub? {
        EntryAtRank(history, j, k);
        EntryAtRank(history, j, |history|);
        EntryAtRank(history, k, |history|);
        if history[j].write.sessionId == history[k].write.sessionId {
          NoTurnWrittenTwice(h, RankOfEntry(history, j), RankOfEntry(history, k));
        }
      }
    }
  }

  // ----- custody ends in the store -----------------------------------------------------------

  /** The exchange behind a polled reply is in the store: the sender's prompt and exactly this answer,
      under the session and turn index the reply names. */
  ghost predicate ReplyStored(cfg: Config, history: seq<Entry>, m: MemberId, letter: Letter, reply: Reply) {
    && reply.turnIdx.Some?
    && exists k :: 0 <= k < |history| && IsExchange(history[k], m, letter, reply) && Stored(cfg, history, k)
  }

  predicate IsExchange(e: Entry, m: MemberId, letter: Letter, reply: Reply)
    requires reply.turnIdx.Some?
  {
    e.FromHub? && e.write == MemoryWrite(reply.sessionId, reply.turnIdx.value, letter.person, m, letter.prompt, reply.text)
  }

  /** In plain words: rows of the final store, private to `m` and labelled with the reply's session and
      turn, whose documents hold prompt and answer word for word. */
  ghost predicate WordForWord(store: seq<Row>, m: MemberId, letter: Letter, reply: Reply) {
    exists rows :: rows != [] && (forall r :: r in rows ==> r in store && FromReply(MetaOf(r), m, reply))
                   && ChunkTurn.HoldTurn(Documents(rows), letter.prompt, reply.text)
  }

  predicate FromReply(meta: Metadata, m: MemberId, reply: Reply) {
    && Labelled(meta, "scope", Str("private:" + m)) && Labelled(meta, "session_id", Str(reply.sessionId))
    && reply.turnIdx.Some? && Labelled(meta, "turn_idx", Num(reply.turnIdx.value))
    && Labelled(meta, "member_id", Str(m)) && Labelled(meta, "origin", Str("conversation"))
  }

  lemma StoredWordForWord(cfg: Config, history: seq<Entry>, m: MemberId, letter: Letter, reply: Reply, k: nat)
    requires GoodHistory(history) && reply.turnIdx.Some? && k < |history|
    requires IsExchange(history[k], m, letter, reply) && Stored(cfg, history, k)
    ensures WordForWord(StoreAfter(cfg, history, |history|), m, letter, reply)
  {
    hide StoreAfter, WriteRows, GoodHistory, HubSession, ChunkTurn.HoldTurn, RowLabels, NewRows;
    TurnIsHub(history, k);
    var w, c := history[k].write, history[k].call;
    var req := RequestOf(w, c);
    var rows := WriteRows(cfg, w.sessionId, req);
    HubRows(cfg, w, c, history[k].acked);
    RowsHoldTurn(cfg, w.sessionId, req);
    forall i | 0 <= i < |rows|
      ensures FromReply(MetaOf(rows[i]), m, reply)
    {
      RowsKnowTheirTurn(cfg, w.sessionId, req, i);
      LabelsOfReply(MetaOf(rows[i]), w.sessionId, req, i, |rows|);
    }
  }

  lemma LabelsOfReply(meta: Metadata, session: string, req: WriteRequest, i: nat, n: nat)
    requires RowLabels(meta, session, req, i, n)
    ensures Labelled(meta, "scope", Str(req.scope)) && Labelled(meta, "session_id", Str(session))
    ensures Labelled(meta, "turn_idx", Num(req.turnIdx))
    ensures Labelled(meta, "member_id", Str(req.memberId)) && Labelled(meta, "origin", Str(req.origin))
  {
  }

  lemma BackedHasEntry(history: seq<Entry>, m: MemberId, letter: Letter, reply: Reply) returns (k: nat)
    requires Backed(Accepted(history), m, letter, reply) && reply.memoryWritten
    ensures reply.turnIdx.Some? && k < |history| && IsExchange(history[k], m, letter, reply)
  {
    hide Accepted;
    var w := MemoryWrite(reply.sessionId, reply.turnIdx.value, letter.person, m, letter.prompt, reply.text);
    var i :| 0 <= i < |Accepted(history)| && Accepted(history)[i] == w;
    assert history[..|history|] == history;
    k := EntryOfWrite(history, |history|, i);
  }

  /** Whole runs of hub and memory service, any overlap of drains, any lost flush before the last
      restart: as long as each restart finds the session file up to date, a polled reply that claims
      to be remembered is in the store, word for word and under its own turn. */
  lemma RunKeepsCustody(s: System, steps: seq<Step>, cfg: Config, history: seq<Entry>, m: MemberId, i: nat)
    requires Inv(s) && CustodyInv(s) && Books(s.hub) && FreshRun(s, steps) && GoodRun(s, steps)
    requires GoodHistory(history) && AllAcked(history) && Accepted(history) == Run(s, steps).hub.written
    requires i < |BoxOf(Run(s, steps), m)|
    requires BoxOf(Run(s, steps), m)[i].result.Some? && BoxOf(Run(s, steps), m)[i].result.value.memoryWritten
    ensures var message := BoxOf(Run(s, steps), m)[i];
            && ReplyStored(cfg, history, m, message.letter, message.result.value)
            && WordForWord(StoreAfter(cfg, history, |history|), m, message.letter, message.result.value)
  {
    hide *;
    RunKeepsLog(s, steps);
    RunKeepsBooks(s, steps);
    var t := Run(s, steps);
    var message := BoxOf(t, m)[i];
    RepliesBacked(t, m, i);
    var k := BackedHasEntry(history, m, message.letter, message.result.value);
    ExchangeIsHub(history[k], m, message.letter, message.result.value);
    BooksNeverRepeat(t.hub, history, k);
    StoredIff(cfg, history, k);
    ExchangeStored(cfg, history, m, message.letter, message.result.value, k);
    StoredWordForWord(cfg, history, m, message.letter, message.result.value, k);
  }

  lemma ExchangeIsHub(e: Entry, m: MemberId, letter: Letter, reply: Reply)
    requires reply.turnIdx.Some? && IsExchange(e, m, letter, reply)
    ensures e.FromHub?
  {
  }

  lemma ExchangeStored(cfg: Config, history: seq<Entry>, m: MemberId, letter: Letter, reply: Reply, k: nat)
    requires reply.turnIdx.Some? && k < |history| && IsExchange(history[k], m, letter, reply) && Stored(cfg, history, k)
    ensures ReplyStored(cfg, history, m, letter, reply)
  {
  }

  lemma RepliesBacked(t: System, m: MemberId, i: nat)
    requires CustodyInv(t) && i < |BoxOf(t, m)| && BoxOf(t, m)[i].result.Some?
    ensures Backed(t.hub.written, m, BoxOf(t, m)[i].letter, BoxOf(t, m)[i].result.value)
  {
    assert BoxBacked(t.hub.written, m, t.hub.family.inbox[m]);
  }

  // ----- the run where it fails -----------------------------------------------------------------

  /** A chat whose counter does not reach the disk, a restart, then a wake that answers one letter. */
  function LossySteps(person: string, m: MemberId, prompt: string, io: TurnIo, again: TurnIo,
                      members: set<MemberId>, presence: string, now: Time): seq<Step> {
    [Chat(person, m, prompt, io), Restart(members, presence), StartDrain(0, m), DrainTurn(0, again),
     CompleteDrained(0, now, true)]
  }

  /** Where such runs start: `m` has one queued letter from `person`, whose session is on disk. */
  predicate LossyStart(s: System, person: string, m: MemberId, letter: Letter) {
    && letter.person == person && s.hub.written == [] && s.hub.counters == map[]
    && LoadedInbox(s.hub.family.file, m) == [Message(letter, Queued, None, None)]
    && HubSessions.Key(person, m) in s.hub.sessions.entries
    && s.hub.sessions.file == HubSessions.Saved(s.hub.sessions.entries)
  }

  lemma RunFive(s: System, steps: seq<Step>)
    requires |steps| == 5
    ensures Run(s, steps) == Next(Next(Next(Next(Next(s, steps[0]), steps[1]), steps[2]), steps[3]), steps[4])
  {
    hide Next;
    RunTwoMore(s, steps[0], steps[1], steps[2..]);
    assert [steps[0], steps[1]] + steps[2..] == steps;
    var t := Next(Next(s, steps[0]), steps[1]);
    RunTwoMore(t, steps[2], steps[3], [steps[4]]);
    assert [steps[2], steps[3]] + [steps[4]] == steps[2..];
    RunOne(Next(Next(t, steps[2]), steps[3]), steps[4]);
  }

  /** A chat, and a restart that finds the session as it was before. */
  lemma LostChat(s: System, person: string, m: MemberId, prompt: string, letter: Letter, io: TurnIo,
                 members: set<MemberId>, presence: string)
    requires LossyStart(s, person, m, letter) && m in members
    requires io.cortex.Some? && io.memoryOk && !io.recordOk
    ensures var e := s.hub.sessions.entries[HubSessions.Key(person, m)];
            var t := Next(Next(s, Chat(person, m, prompt, io)), Restart(members, presence));
            && t.hub.written == [MemoryWrite(e.sessionId, e.turnIdx, person, m, prompt, io.cortex.value.text)]
            && t.hub.counters == map[] && t.hub.sessions == s.hub.sessions && t.drains == map[]
            && t.hub.family.Knows(m) && t.hub.family.inbox[m] == [Message(letter, Queued, None, None)]
  {
    TurnLeavesFamily(s.hub, person, m, prompt, io);
  }

  /** A wake that answers the one queued letter at the index its session stands at. */
  lemma WakeOne(t: System, m: MemberId, letter: Letter, again: TurnIo, now: Time)
    requires t.hub.family.Knows(m) && t.hub.family.inbox[m] == [Message(letter, Queued, None, None)]
    requires t.drains == map[] && t.hub.counters == map[]
    requires HubSessions.Key(letter.person, m) in t.hub.sessions.entries && again.cortex.Some? && again.memoryOk
    ensures var e := t.hub.sessions.entries[HubSessions.Key(letter.person, m)];
            var u := Next(Next(Next(t, StartDrain(0, m)), DrainTurn(0, again)), CompleteDrained(0, now, true));
            var reply := Reply(again.cortex.value.text, again.cortex.value.model, e.sessionId, Some(e.turnIdx), true);
            && u.hub.written == t.hub.written
                 + [MemoryWrite(e.sessionId, e.turnIdx, letter.person, m, letter.prompt, again.cortex.value.text)]
            && BoxOf(u, m) == [AnsweredMessage(Message(letter, Queued, None, None), reply, now)]
  {
    var message := Message(letter, Queued, None, None);
    assert [message][1..] == [];
    assert QueuedOf([message]) == [message];
    var t1 := Next(t, StartDrain(0, m));
    assert t1.drains[0] == Drain(m, [message], 0, None);
    TurnLeavesFamily(t1.hub, letter.person, m, letter.prompt, again);
  }

  /** Both turns are accepted at one index, and the polled reply says it is remembered. */
  lemma LossyRun(s: System, person: string, m: MemberId, prompt: string, letter: Letter, io: TurnIo, again: TurnIo,
                 members: set<MemberId>, presence: string, now: Time)
    requires LossyStart(s, person, m, letter) && m in members
    requires io.cortex.Some? && io.memoryOk && !io.recordOk && again.cortex.Some? && again.memoryOk
    ensures var e := s.hub.sessions.entries[HubSessions.Key(person, m)];
            var u := Run(s, LossySteps(person, m, prompt, io, again, members, presence, now));
            var reply := Reply(again.cortex.value.text, again.cortex.value.model, e.sessionId, Some(e.turnIdx), true);
            && u.hub.written == [MemoryWrite(e.sessionId, e.turnIdx, person, m, prompt, io.cortex.value.text),
                                 MemoryWrite(e.sessionId, e.turnIdx, person, m, letter.prompt, again.cortex.value.text)]
            && BoxOf(u, m) == [AnsweredMessage(Message(letter, Queued, None, None), reply, now)]
  {
    hide Next, Run;
    RunFive(s, LossySteps(person, m, prompt, io, again, members, presence, now));
    LostChat(s, person, m, prompt, letter, io, members, presence);
    WakeOne(Next(Next(s, Chat(person, m, prompt, io)), Restart(members, presence)), m, letter, again, now);
  }

  /** Then the reply that says it is remembered is not: the store kept the earlier exchange. */
  lemma LostRecordLosesReply(s: System, person: string, m: MemberId, prompt: string, letter: Letter,
                             io: TurnIo, again: TurnIo, members: set<MemberId>, presence: string, now: Time,
                             cfg: Config, history: seq<Entry>)
    requires LossyStart(s, person, m, letter) && m in members && letter.prompt != prompt
    requires io.cortex.Some? && io.memoryOk && !io.recordOk && again.cortex.Some? && again.memoryOk
    requires GoodHistory(history) && AllAcked(history)
    requires Accepted(history) == Run(s, LossySteps(person, m, prompt, io, again, members, presence, now)).hub.written
    ensures var u := Run(s, LossySteps(person, m, prompt, io, again, members, presence, now));
            && |BoxOf(u, m)| == 1 && BoxOf(u, m)[0].result.Some? && BoxOf(u, m)[0].result.value.memoryWritten
            && !ReplyStored(cfg, history, m, letter, BoxOf(u, m)[0].result.value)
  {
    hide Run, Accepted, Stored, GoodHistory, LossyStart;
    LossyRun(s, person, m, prompt, letter, io, again, members, presence, now);
    var u := Run(s, LossySteps(person, m, prompt, io, again, members, presence, now));
    var reply := BoxOf(u, m)[0].result.value;
    assert history[..|history|] == history;
    var j := EntryOfWrite(history, |history|, 0);
    forall k | 0 <= k < |history| && IsExchange(history[k], m, letter, reply)
      ensures !Stored(cfg, history, k)
    {
      EntryAtRank(history, k, |history|);
      if k < j {
        EntryAtRank(history, k, j);
      }
      assert SameTurn(history[j], history[k]);
      StoredIff(cfg, history, k);
    }
  }
}
