/** The memory service's endpoints: write, query, event, timeline, promote. */
module EmbedderService {
  import opened Wrappers
  import opened Text
  import opened Scopes
  import opened ChromaStore
  import ChunkTurn
  import Decimal
  import Splitter
  import Timeline

  datatype WriteRequest = WriteRequest(userText: string, assistantText: string, turnIdx: int, ts: string,
                                       modelUsed: string, userTokens: int, assistantTokens: int,
                                       sourceService: string, toolCalls: bool,
                                       scope: string, memberId: string, origin: string, participants: seq<string>)

  datatype EventRequest = EventRequest(summary: string, sensorSource: string, ts: string, reportedBy: string)

  datatype QueryRequest = QueryRequest(text: string, k: int, memberId: string,
                                       session: Option<string>, excludeTurn: Option<string>)

  datatype HttpError = HttpError(status: nat)

  datatype WriteResponse = WriteResponse(ids: seq<string>, chunks: nat, parentTurnId: string)

  datatype PromoteResponse = PromoteResponse(promotedId: string, promotedFrom: string, alreadyPromoted: bool)

  /** Settings, and the foreign code the service calls: tokenizer, encoder and vector distance. */
  datatype Config = Config(tok: Splitter.TokenCount, threshold: int, target: int, overlap: int,
                           embed: string -> Vector, dist: (Vector, Vector) -> real)

  // ----- memory/write -------------------------------------------------------------

  function ParentTurnId(session: string, turnIdx: int): string {
    session + ":" + Decimal.PrintInt(turnIdx)
  }

  function ChunkId(session: string, turnIdx: int, idx: nat): string {
    ParentTurnId(session, turnIdx) + ":" + Decimal.Print(idx)
  }

  function ChunkMetadata(session: string, req: WriteRequest, idx: nat, total: nat): Metadata {
    map["session_id" := Str(session), "turn_idx" := Num(req.turnIdx), "ts" := Str(req.ts),
        "model_used" := Str(req.modelUsed), "user_token_count" := Num(req.userTokens),
        "assistant_token_count" := Num(req.assistantTokens), "source_service" := Str(req.sourceService),
        "tool_calls_present" := Flag(req.toolCalls), "chunk_idx" := Num(idx), "chunk_total" := Num(total),
        "parent_turn_id" := Str(ParentTurnId(session, req.turnIdx)),
        "scope" := Str(req.scope), "member_id" := Str(req.memberId), "origin" := Str(req.origin),
        "participants" := Str(ParticipantsToMeta(req.participants))]
  }

  function TurnChunks(cfg: Config, req: WriteRequest): seq<string> {
    ChunkTurn.Chunks(ChunkTurn.ConcatenateTurn(req.userText, req.assistantText),
                     cfg.tok, cfg.threshold, cfg.target, cfg.overlap)
  }

  function ChunkRow(cfg: Config, session: string, req: WriteRequest, chunks: seq<string>, idx: nat): Row
    requires idx < |chunks|
  {
    Row(ChunkId(session, req.turnIdx, idx), chunks[idx], cfg.embed(chunks[idx]),
        Some(ChunkMetadata(session, req, idx, |chunks|)))
  }

  lemma ChunkMetadataScope(session: string, req: WriteRequest, idx: nat, total: nat)
    ensures "scope" in ChunkMetadata(session, req, idx, total)
    ensures ChunkMetadata(session, req, idx, total)["scope"] == Str(req.scope)
    ensures "parent_turn_id" in ChunkMetadata(session, req, idx, total)
    ensures ChunkMetadata(session, req, idx, total)["parent_turn_id"] == Str(ParentTurnId(session, req.turnIdx))
  {
  }

  /** The rows a turn becomes. */
  function WriteRows(cfg: Config, session: string, req: WriteRequest): (rows: seq<Row>)
    ensures |rows| == |TurnChunks(cfg, req)|
  {
    var chunks := TurnChunks(cfg, req);
    seq(|chunks|, i requires 0 <= i < |chunks| => ChunkRow(cfg, session, req, chunks, i))
  }

  /** The rows of a write hold the turn: whole in one row when it is within the threshold, else split
      where needed and packed greedily to the target with the overlap. */
  lemma RowsHoldTurn(cfg: Config, session: string, req: WriteRequest)
    ensures var documents := Documents(WriteRows(cfg, session, req));
            && ChunkTurn.HoldTurn(documents, req.userText, req.assistantText)
            && forall text :: ChunkTurn.IsTurnText(text, req.userText, req.assistantText) ==>
                 if cfg.tok(text) <= cfg.threshold then documents == [text]
                 else ChunkTurn.WellChunked(documents, text, cfg.tok, cfg.target, cfg.overlap)
  {
    hide ChunkTurn.WellChunked, ChunkTurn.Chunks, ChunkTurn.HoldTurn, ChunkTurn.IsTurnText, ChunkTurn.ConcatenateTurn, ChunkMetadata, ChunkId;
    assert Documents(WriteRows(cfg, session, req)) == TurnChunks(cfg, req);
    ChunkTurn.TurnIsHeld(req.userText, req.assistantText, cfg.tok, cfg.threshold, cfg.target, cfg.overlap);
    forall text | ChunkTurn.IsTurnText(text, req.userText, req.assistantText)
      ensures text == ChunkTurn.ConcatenateTurn(req.userText, req.assistantText)
    {
      ChunkTurn.TurnTextUnique(text, req.userText, req.assistantText);
    }
    ChunkTurn.ChunksAreWell(ChunkTurn.ConcatenateTurn(req.userText, req.assistantText), cfg.tok, cfg.threshold,
                            cfg.target, cfg.overlap);
  }

  /** `meta[key] == value`. */
  predicate Labelled(meta: Metadata, key: string, value: MetaValue) {
    key in meta && meta[key] == value
  }

  /** Each row knows whose it is, where it comes from and its place in the turn. */
  lemma RowsKnowTheirTurn(cfg: Config, session: string, req: WriteRequest, i: nat)
    requires i < |WriteRows(cfg, session, req)|
    ensures var rows := WriteRows(cfg, session, req);
            && rows[i].embedding == cfg.embed(rows[i].document)
            && rows[i].id == session + ":" + Decimal.PrintInt(req.turnIdx) + ":" + Decimal.Print(i)
            && RowLabels(MetaOf(rows[i]), session, req, i, |rows|)
  {
    hide TurnChunks, ChunkMetadata, RowLabels, Decimal.PrintInt, Decimal.Print;
    ChunkLabels(session, req, i, |TurnChunks(cfg, req)|);
  }

  lemma ChunkLabels(session: string, req: WriteRequest, idx: nat, total: nat)
    ensures RowLabels(ChunkMetadata(session, req, idx, total), session, req, idx, total)
  {
    hide ParticipantsToMeta, Decimal.PrintInt;
  }

  predicate RowLabels(meta: Metadata, session: string, req: WriteRequest, i: nat, n: nat) {
    && Labelled(meta, "session_id", Str(session)) && Labelled(meta, "turn_idx", Num(req.turnIdx))
    && Labelled(meta, "parent_turn_id", Str(session + ":" + Decimal.PrintInt(req.turnIdx)))
    && Labelled(meta, "chunk_idx", Num(i)) && Labelled(meta, "chunk_total", Num(n))
    && Labelled(meta, "scope", Str(req.scope)) && Labelled(meta, "member_id", Str(req.memberId))
    && Labelled(meta, "origin", Str(req.origin)) && Labelled(meta, "ts", Str(req.ts))
    && Labelled(meta, "participants", Str(ParticipantsToMeta(req.participants)))
    && Labelled(meta, "model_used", Str(req.modelUsed)) && Labelled(meta, "source_service", Str(req.sourceService))
    && Labelled(meta, "user_token_count", Num(req.userTokens))
    && Labelled(meta, "assistant_token_count", Num(req.assistantTokens))
    && Labelled(meta, "tool_calls_present", Flag(req.toolCalls))
  }

  /** Which writes the service accepts. */
  lemma AllowedMeans(header: Option<string>, req: WriteRequest)
    ensures WriteAllowed(header, req)
       <==> && header.Some? && !IsBlank(header.value)
            && req.scope in {"private:" + req.memberId, "experiential:" + req.memberId, "shared:household"}
            && req.origin in {"conversation", "sensor", "promotion", "vector_platform", "delegated_task"}
  {
    hide Strip, IsBlank;
    MemberScopes(req.scope, req.memberId);
    assert ORIGINS == ["conversation", "sensor", "promotion", "vector_platform", "delegated_task"];
  }

  predicate WriteAllowed(header: Option<string>, req: WriteRequest) {
    && header.Some? && Strip(header.value) != ""
    && WritableScope(req.scope, req.memberId) && req.origin in ORIGINS
  }

  // ----- memory/event --------------------------------------------------------------

  function EventId(req: EventRequest, uuid: string): string {
    "event:" + Strip(req.sensorSource) + ":" + uuid
  }

  predicate EventAllowed(req: EventRequest) {
    Strip(req.summary) != "" && Strip(req.sensorSource) != ""
  }

  function EventRow(cfg: Config, req: EventRequest, uuid: string): Row
    requires EventAllowed(req)
  {
    Row(EventId(req, uuid), Strip(req.summary), cfg.embed(Strip(req.summary)),
        Some(EventMetadata(req.sensorSource, req.ts, req.reportedBy).value))
  }

  // ----- memory/promote --------------------------------------------------------------

  function PromotedRow(source: Row, m: string, person: string): Row {
    Row(PromotedId(source.id), source.document, source.embedding,
        Some(MetaOf(source) + PromotionLabels(m, person, source.id)))
  }

  /** The row a promotion adds, if it adds one. */
  function PromotionRow(rows: seq<Row>, m: string, id: string, person: string): Option<Row> {
    if GetById(rows, PromotedId(id)).Some? then None
    else match GetById(rows, id)
      case None => None
      case Some(source) =>
        if PromotionMetadata(MetaOf(source), m, person, id).Ok? then Some(PromotedRow(source, m, person)) else None
  }

  function PromoteAnswer(rows: seq<Row>, m: string, id: string, person: string): Result<PromoteResponse, HttpError> {
    if GetById(rows, PromotedId(id)).Some? then Ok(PromoteResponse(PromotedId(id), id, true))
    else match GetById(rows, id)
      case None => Err(HttpError(404))
      case Some(source) =>
        if PromotionMetadata(MetaOf(source), m, person, id).Ok?
        then Ok(PromoteResponse(PromotedId(id), id, false))
        else Err(HttpError(400))
  }

  /** Which answer a promotion gets: the copy exists, the row is unknown, the row is not the member's
      own, or it is copied. */
  lemma PromotionOutcome(rows: seq<Row>, m: string, id: string, person: string)
    ensures var answer, source := PromoteAnswer(rows, m, id, person), GetById(rows, id);
            && (HasId(rows, id + "::promoted") ==> answer == Ok(PromoteResponse(id + "::promoted", id, true)))
            && (!HasId(rows, id + "::promoted") && !HasId(rows, id) ==> answer == Err(HttpError(404)))
            && (!HasId(rows, id + "::promoted") && HasId(rows, id) ==>
                  && source.Some?
                  && answer == if Labelled(MetaOf(source.value), "scope", Str("private:" + m))
                               then Ok(PromoteResponse(id + "::promoted", id, false)) else Err(HttpError(400)))
            && (PromotionRow(rows, m, id, person).Some? <==> answer == Ok(PromoteResponse(id + "::promoted", id, false)))
  {
    hide HasId;
    FoundIff(rows, id);
    FoundIff(rows, id + "::promoted");
  }

  lemma FoundIff(rows: seq<Row>, id: string)
    ensures GetById(rows, id).Some? <==> HasId(rows, id)
  {
  }

  /** The copy: same text, same vector, same labels, except that it is shared and says where it comes from. */
  lemma PromotedRowSays(source: Row, m: string, person: string)
    ensures var copy := PromotedRow(source, m, person);
            && copy.id == source.id + "::promoted"
            && copy.document == source.document && copy.embedding == source.embedding
            && Labelled(MetaOf(copy), "scope", Str("shared:household")) && Labelled(MetaOf(copy), "member_id", Str("household"))
            && Labelled(MetaOf(copy), "origin", Str("promotion")) && Labelled(MetaOf(copy), "promoted_from", Str(source.id))
            && Labelled(MetaOf(copy), "promoted_from_member", Str(m)) && Labelled(MetaOf(copy), "promoted_by", Str(person))
            && forall key :: key in MetaOf(source) && key !in {"scope", "member_id", "origin", "promoted_from",
                                                               "promoted_from_member", "promoted_by"} ==>
                 Labelled(MetaOf(copy), key, MetaOf(source)[key])
  {
  }

  function Promoted(rows: seq<Row>, m: string, id: string, person: string): seq<Row> {
    match PromotionRow(rows, m, id, person)
    case None => rows
    case Some(row) => Add(rows, [row])
  }

  // ----- memory/query ------------------------------------------------------------------

  function QueryAnswer(cfg: Config, rows: seq<Row>, req: QueryRequest): seq<Match> {
    Nearest(rows, BuildWhere(req.memberId, req.session, req.excludeTurn), cfg.embed(req.text), req.k, cfg.dist)
  }

  // ----- the service ---------------------------------------------------------------------

  class Embedder {
    const cfg: Config
    const store: Collection

    constructor (cfg: Config, store: Collection)
      ensures this.cfg == cfg && this.store == store
    {
      this.cfg := cfg;
      this.store := store;
    }

    method MemoryWrite(header: Option<string>, req: WriteRequest) returns (r: Result<WriteResponse, HttpError>)
      modifies store
      ensures if WriteAllowed(header, req) then
                var rows := WriteRows(cfg, Strip(header.value), req);
                && store.rows == Add(old(store.rows), rows)
                && r.Ok? && r.value.chunks == |rows| >= 1
                && r.value.parentTurnId == ParentTurnId(Strip(header.value), req.turnIdx)
                && r.value.ids == RowIds(rows)
                && ChunkTurn.HoldTurn(Documents(rows), req.userText, req.assistantText)
              else r == Err(HttpError(400)) && store.rows == old(store.rows)
    {
      if header.None? || Strip(header.value) == "" {
        return Err(HttpError(400));
      }
      var session := Strip(header.value);
      if !WritableScope(req.scope, req.memberId) || req.origin !in ORIGINS {
        return Err(HttpError(400));
      }
      hide ChunkTurn.Chunks, ChunkTurn.ConcatenateTurn, ChunkTurn.HoldTurn, WriteRows, Add;
      var body := ChunkTurn.ConcatenateTurn(req.userText, req.assistantText);
      var chunks := ChunkTurn.Chunk(body, cfg.tok, cfg.threshold, cfg.target, cfg.overlap);
      ChunkTurn.TurnAlwaysChunks(req.userText, req.assistantText, cfg.tok, cfg.threshold, cfg.target, cfg.overlap);
      if chunks == [] {
        assert false;  // "empty document after chunking" cannot happen
      }
      var ids, rows := BuildRows(session, req, chunks);
      store.AddDocuments(rows);
      assert ChunkTurn.HoldTurn(Documents(rows), req.userText, req.assistantText) by {
        RowsHoldTurn(cfg, session, req);
      }
      r := Ok(WriteResponse(ids, |chunks|, ParentTurnId(session, req.turnIdx)));
    }

    method BuildRows(session: string, req: WriteRequest, chunks: seq<string>) returns (ids: seq<string>, rows: seq<Row>)
      requires chunks == TurnChunks(cfg, req)
      ensures rows == WriteRows(cfg, session, req) && ids == RowIds(rows)
    {
      hide TurnChunks, ChunkMetadata, ChunkId;
      ids, rows := [], [];
      for idx := 0 to |chunks|
        invariant rows == WriteRows(cfg, session, req)[..idx]
        invariant ids == RowIds(rows)
      {
        var chunkId := ChunkId(session, req.turnIdx, idx);
        ids := ids + [chunkId];
        rows := rows + [Row(chunkId, chunks[idx], cfg.embed(chunks[idx]),
                            Some(ChunkMetadata(session, req, idx, |chunks|)))];
      }
    }

    method MemoryQuery(req: QueryRequest) returns (r: Result<seq<Match>, HttpError>)
      ensures r == if req.k <= 0 then Err(HttpError(500)) else Ok(QueryAnswer(cfg, store.rows, req))
    {
      if req.k <= 0 {
        return Err(HttpError(500));
      }
      r := Ok(Nearest(store.rows, BuildWhere(req.memberId, req.session, req.excludeTurn),
                      cfg.embed(req.text), req.k, cfg.dist));
    }

    method MemoryEvent(req: EventRequest, uuid: string) returns (r: Result<string, HttpError>)
      modifies store
      ensures if EventAllowed(req)
              then r == Ok(EventId(req, uuid)) && store.rows == Add(old(store.rows), [EventRow(cfg, req, uuid)])
              else r == Err(HttpError(400)) && store.rows == old(store.rows)
    {
      var summary := Strip(req.summary);
      if summary == "" {
        return Err(HttpError(400));
      }
      var meta := EventMetadata(req.sensorSource, req.ts, req.reportedBy);
      if meta.Err? {
        return Err(HttpError(400));
      }
      store.AddDocuments([Row(EventId(req, uuid), summary, cfg.embed(summary), Some(meta.value))]);
      r := Ok(EventId(req, uuid));
    }

    method MemoryTimeline(limit: int) returns (events: seq<Row>)
      ensures events == Timeline.Feed(store.rows, limit)
    {
      events := Timeline.Feed(store.rows, limit);
    }

    /** `vectorBack` says whether the store's answer for the row carries its embedding. */
    method MemoryPromote(m: string, id: string, person: string, vectorBack: bool)
      returns (r: Result<PromoteResponse, HttpError>)
      modifies store
      ensures if PromotionRow(old(store.rows), m, id, person).Some? && !vectorBack
              then r == Err(HttpError(500)) && store.rows == old(store.rows)
              else && store.rows == Promoted(old(store.rows), m, id, person)
                   && r == PromoteAnswer(old(store.rows), m, id, person)
    {
      var target := PromotedId(id);
      if GetById(store.rows, target).Some? {
        return Ok(PromoteResponse(target, id, true));
      }
      var source := GetById(store.rows, id);
      if source.None? {
        return Err(HttpError(404));
      }
      var meta := PromotionMetadata(MetaOf(source.value), m, person, id);
      if meta.Err? {
        return Err(HttpError(400));
      }
      if !vectorBack {
        return Err(HttpError(500));
      }
      store.AddDocuments([Row(target, source.value.document, source.value.embedding, Some(meta.value))]);
      r := Ok(PromoteResponse(target, id, false));
    }
  }
}
