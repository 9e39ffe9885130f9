/** What a memory query returns: exactly the nearest rows the member may read. */
module Retrieval {
  import opened Wrappers
  import opened Text
  import opened Scopes
  import opened StableSort
  import opened ChromaStore
  import opened EmbedderService
  import opened Isolation
  import opened MemoryRuns
  import Decimal
  import Timeline

  function Closer(cfg: Config, q: Vector): (Row, Row) -> bool {
    (a: Row, b: Row) => cfg.dist(q, a.embedding) <= cfg.dist(q, b.embedding)
  }

  /** The rows the query's filter admits, nearest first. */
  function Ranked(cfg: Config, rows: seq<Row>, req: QueryRequest): seq<Row> {
    Sort(GetWhere(rows, BuildWhere(req.memberId, req.session, req.excludeTurn)), Closer(cfg, cfg.embed(req.text)))
  }

  lemma AnswerIsRanked(cfg: Config, rows: seq<Row>, req: QueryRequest)
    requires req.k > 0
    ensures var answer, ranked := QueryAnswer(cfg, rows, req), Ranked(cfg, rows, req);
            && |answer| == (if |ranked| < req.k then |ranked| else req.k)
            && forall i :: 0 <= i < |answer| ==>
                 answer[i] == Match(ranked[i].id, ranked[i].document, MetaOf(ranked[i]),
                                    cfg.dist(cfg.embed(req.text), ranked[i].embedding))
  {
    var q := cfg.embed(req.text);
    var w := BuildWhere(req.memberId, req.session, req.excludeTurn);
    SortPointwise(GetWhere(rows, w), (a: Row, b: Row) => cfg.dist(q, a.embedding) <= cfg.dist(q, b.embedding), Closer(cfg, q));
  }

  lemma {:induction false} InsertPointwise(x: Row, s: seq<Row>, f: (Row, Row) -> bool, g: (Row, Row) -> bool)
    requires forall a, b :: f(a, b) == g(a, b)
    ensures Insert(x, s, f) == Insert(x, s, g)
  {
    if s != [] {
      InsertPointwise(x, s[1..], f, g);
    }
  }

  lemma {:induction false} SortPointwise(s: seq<Row>, f: (Row, Row) -> bool, g: (Row, Row) -> bool)
    requires forall a, b :: f(a, b) == g(a, b)
    ensures Sort(s, f) == Sort(s, g)
  {
    if s != [] {
      SortPointwise(s[1..], f, g);
      InsertPointwise(s[0], Sort(s[1..], g), f, g);
    }
  }

  /** Every match is a stored row whose scope the member may read. */
  lemma QueryReadsOwnScopes(cfg: Config, rows: seq<Row>, req: QueryRequest, i: nat)
    requires req.k > 0 && i < |QueryAnswer(cfg, rows, req)|
    ensures var answer := QueryAnswer(cfg, rows, req)[i];
            InScopes(answer.meta, ReadableScopes(req.memberId))
            && exists r :: r in rows && r.id == answer.id && r.document == answer.text && MetaOf(r) == answer.meta
  {
    hide Matches;
    AnswerIsRanked(cfg, rows, req);
    var w := BuildWhere(req.memberId, req.session, req.excludeTurn);
    var r := Ranked(cfg, rows, req)[i];
    SortMultiset(GetWhere(rows, w), Closer(cfg, cfg.embed(req.text)));
    assert r in multiset(Ranked(cfg, rows, req));
    assert r in GetWhere(rows, w);
    WhereMeaning(req.memberId, req.session, req.excludeTurn, MetaOf(r));
  }

  /** The rows a query is about: in a scope the member may read, of the session asked for, and not of
      the turn excluded. */
  predicate Wanted(meta: Metadata, req: QueryRequest) {
    && (|| Labelled(meta, "scope", Str("private:" + req.memberId)) || Labelled(meta, "scope", Str("shared:household"))
        || Labelled(meta, "scope", Str("experiential:" + req.memberId)))
    && (req.session.Some? && req.session.value != "" ==> Labelled(meta, "session_id", Str(req.session.value)))
    && (req.excludeTurn.Some? && req.excludeTurn.value != "" ==>
          !Labelled(meta, "parent_turn_id", Str(req.excludeTurn.value)))
  }

  lemma WantedIsAdmitted(meta: Metadata, req: QueryRequest)
    ensures Wanted(meta, req) <==> Matches(BuildWhere(req.memberId, req.session, req.excludeTurn), meta)
  {
    hide Matches, BuildWhere;
    WhereMeaning(req.memberId, req.session, req.excludeTurn, meta);
    var scopes := ReadableScopes(req.memberId);
    assert scopes == ["private:" + req.memberId, "shared:household", "experiential:" + req.memberId];
  }

  lemma {:induction false} FilterCounts(rows: seq<Row>, p: Row -> bool, r: Row)
    ensures multiset(Filter(rows, p))[r] == if p(r) then multiset(rows)[r] else 0
  {
    if rows != [] {
      FilterCounts(rows[1..], p, r);
      assert rows == [rows[0]] + rows[1..];
    }
  }

  /** A query ranks each wanted row of the store, each as often as it is stored, and no other. */
  lemma RankedIsWanted(cfg: Config, rows: seq<Row>, req: QueryRequest, r: Row)
    ensures multiset(Ranked(cfg, rows, req))[r] == if Wanted(MetaOf(r), req) then multiset(rows)[r] else 0
  {
    hide Matches, BuildWhere, Wanted, Sort, Filter;
    var w := BuildWhere(req.memberId, req.session, req.excludeTurn);
    SortMultiset(GetWhere(rows, w), Closer(cfg, cfg.embed(req.text)));
    WantedIsAdmitted(MetaOf(r), req);
    FilterCounts(rows, (r: Row) => Matches(w, MetaOf(r)), r);
  }

  /** Matches come nearest first, and no ranked row that was left out is nearer than one returned. */
  lemma QueryIsExact(cfg: Config, rows: seq<Row>, req: QueryRequest, i: nat, j: nat)
    requires req.k > 0 && i < |QueryAnswer(cfg, rows, req)| && i < j < |Ranked(cfg, rows, req)|
    ensures QueryAnswer(cfg, rows, req)[i].distance
         <= cfg.dist(cfg.embed(req.text), Ranked(cfg, rows, req)[j].embedding)
    ensures multiset(Ranked(cfg, rows, req))
         == multiset(GetWhere(rows, BuildWhere(req.memberId, req.session, req.excludeTurn)))
  {
    var q := cfg.embed(req.text);
    var visible := GetWhere(rows, BuildWhere(req.memberId, req.session, req.excludeTurn));
    AnswerIsRanked(cfg, rows, req);
    SortMultiset(visible, Closer(cfg, q));
    SortSorted(visible, Closer(cfg, q));
    assert Closer(cfg, q)(Ranked(cfg, rows, req)[i], Ranked(cfg, rows, req)[j]);
  }

  /** What a member writes it can read back, from any session; the shared scope everyone can. */
  lemma WrittenIsReadable(cfg: Config, session: string, req: WriteRequest, m: string, i: nat)
    requires WritableScope(req.scope, req.memberId) && (m == req.memberId || req.scope == SHARED_SCOPE)
    requires i < |WriteRows(cfg, session, req)|
    ensures Matches(BuildWhere(m, None, None), MetaOf(WriteRows(cfg, session, req)[i]))
  {
    hide ChunkMetadata, TurnChunks, ChunkId, Matches;
    ChunkMetadataScope(session, req, i, |TurnChunks(cfg, req)|);
    WhereMeaning(m, None, None, MetaOf(WriteRows(cfg, session, req)[i]));
  }

  /** A write answers 200 whatever the store holds: a chunk's row is in the store afterwards exactly
      when its id was new, or that very row was there already. */
  lemma WrittenIsStored(cfg: Config, rows: seq<Row>, session: string, req: WriteRequest, i: nat)
    requires i < |WriteRows(cfg, session, req)|
    ensures var row := WriteRows(cfg, session, req)[i];
            && row.id == ChunkId(session, req.turnIdx, i) && row.document == TurnChunks(cfg, req)[i]
            && (row in Add(rows, WriteRows(cfg, session, req)) <==> row in rows || !HasId(rows, row.id))
  {
    hide ChunkMetadata, ChunkId, Add, HasId;
    WriteRowsUnique(cfg, session, req);
    AddRowIff(rows, WriteRows(cfg, session, req), i);
  }

  /** The store grows by one row per chunk exactly when none of the turn's ids is taken. */
  lemma WriteAddsEachChunk(cfg: Config, rows: seq<Row>, session: string, req: WriteRequest)
    ensures var written := WriteRows(cfg, session, req);
            && (|Add(rows, written)| == |rows| + |TurnChunks(cfg, req)|
                <==> forall i :: 0 <= i < |written| ==> !HasId(rows, ChunkId(session, req.turnIdx, i)))
            && (|Add(rows, written)| == |rows| + |written| ==> Add(rows, written) == rows + written)
  {
    hide ChunkMetadata, ChunkId, TurnChunks, Add, HasId;
    var written := WriteRows(cfg, session, req);
    WriteRowsUnique(cfg, session, req);
    AddAllIff(rows, written);
    assert forall i :: 0 <= i < |written| ==> written[i].id == ChunkId(session, req.turnIdx, i);
    assert forall i :: 0 <= i < |written| ==> written[i] in written;
  }

  /** Excluding the current turn hides exactly its own chunks: a chunk passes the refinement iff
      it was written under another turn. */
  lemma ExcludedTurn(cfg: Config, session: string, req: WriteRequest, m: string, s2: string, t2: int, i: nat)
    requires WritableScope(req.scope, req.memberId) && m == req.memberId
    requires i < |WriteRows(cfg, session, req)|
    ensures Matches(BuildWhere(m, None, Some(ParentTurnId(s2, t2))), MetaOf(WriteRows(cfg, session, req)[i]))
       <==> (session, req.turnIdx) != (s2, t2)
  {
    hide ChunkMetadata, TurnChunks, ChunkId, Matches, Decimal.PrintInt;
    var meta := MetaOf(WriteRows(cfg, session, req)[i]);
    ChunkMetadataScope(session, req, i, |TurnChunks(cfg, req)|);
    WhereMeaning(m, None, Some(ParentTurnId(s2, t2)), meta);
    SuffixAfterColon(session, Decimal.PrintInt(req.turnIdx), s2, Decimal.PrintInt(t2));
    Decimal.PrintIntInjective(req.turnIdx, t2);
  }

  /** A query for one session finds that session's chunks only. */
  lemma SessionOnly(cfg: Config, session: string, req: WriteRequest, m: string, s2: string, i: nat)
    requires WritableScope(req.scope, req.memberId) && m == req.memberId && s2 != ""
    requires i < |WriteRows(cfg, session, req)|
    ensures Matches(BuildWhere(m, Some(s2), None), MetaOf(WriteRows(cfg, session, req)[i])) <==> session == s2
  {
    hide WriteRows, Matches, BuildWhere;
    var meta := MetaOf(WriteRows(cfg, session, req)[i]);
    RowsKnowTheirTurn(cfg, session, req, i);
    WhereMeaning(m, Some(s2), None, meta);
  }

  /** Sensor events are born shared: every member can read them, and they carry their own time, text
      and sensor. */
  lemma EventIsShared(cfg: Config, req: EventRequest, uuid: string, m: string)
    requires EventAllowed(req)
    ensures Matches(BuildWhere(m, None, None), MetaOf(EventRow(cfg, req, uuid)))
    ensures EventRow(cfg, req, uuid) in Timeline.SharedRows([EventRow(cfg, req, uuid)])
    ensures Timeline.TsOf(EventRow(cfg, req, uuid)) == req.ts
  {
    WhereMeaning(m, None, None, MetaOf(EventRow(cfg, req, uuid)));
  }

  /** Its row: the trimmed summary, embedded, under the trimmed sensor's name. */
  lemma EventSaysWho(cfg: Config, req: EventRequest, uuid: string)
    requires EventAllowed(req)
    ensures var row := EventRow(cfg, req, uuid);
            && IsTrim(row.document, req.summary) && row.document != "" && row.embedding == cfg.embed(row.document)
            && Labelled(MetaOf(row), "scope", Str("shared:household")) && Labelled(MetaOf(row), "member_id", Str("household"))
            && Labelled(MetaOf(row), "origin", Str("sensor")) && Labelled(MetaOf(row), "ts", Str(req.ts))
            && Labelled(MetaOf(row), "reported_by", Str(req.reportedBy))
            && exists sensor :: IsTrim(sensor, req.sensorSource) && sensor != "" && row.id == "event:" + sensor + ":" + uuid
                 && Labelled(MetaOf(row), "sensor_source", Str(sensor))
  {
    hide IsTrim, Strip;
    StripIsTrim(req.summary);
    StripIsTrim(req.sensorSource);
  }

  /** And events with a blank summary or sensor are refused. */
  lemma EventNeedsText(req: EventRequest)
    ensures EventAllowed(req) <==> !IsBlank(req.summary) && !IsBlank(req.sensorSource)
  {
  }
}
