/** Memory scopes and provenance: who may read and write what, and how rows are re-labelled. */
module Scopes {
  import opened Wrappers
  import opened Text

  datatype MetaValue = Str(s: string) | Num(n: int) | Flag(b: bool)

  /** Row metadata; values are scalars. */
  type Metadata = map<string, MetaValue>

  datatype ScopeError = NotWritable | UnknownOrigin | BlankSource | WrongScope

  const SHARED_SCOPE := "shared:household"
  const HOUSEHOLD_MEMBER_ID := "household"
  const ORIGINS: seq<string> := ["conversation", "sensor", "promotion", "vector_platform", "delegated_task"]

  function PrivateScope(m: string): string {
    "private:" + m
  }

  function ExperientialScope(m: string): string {
    "experiential:" + m
  }

  function ReadableScopes(m: string): seq<string> {
    [PrivateScope(m), SHARED_SCOPE, ExperientialScope(m)]
  }

  predicate WritableScope(scope: string, m: string) {
    scope in ReadableScopes(m)
  }

  /** A member reads and may write its own two scopes and the shared one, and nothing else. */
  lemma MemberScopes(scope: string, m: string)
    ensures WritableScope(scope, m) <==> scope in ReadableScopes(m)
    ensures WritableScope(scope, m) <==> scope in {"private:" + m, "experiential:" + m, "shared:household"}
  {
    var scopes := ReadableScopes(m);
    assert scopes[0] == "private:" + m && scopes[1] == "shared:household" && scopes[2] == "experiential:" + m;
  }

  /** A scope only its owner can read. */
  predicate OwnScope(scope: string, m: string) {
    scope == PrivateScope(m) || scope == ExperientialScope(m)
  }

  /** Another member's own scopes are never readable, whatever the two are called. */
  lemma OwnScopesAreDisjoint(scope: string, n: string, m: string)
    requires n != m && OwnScope(scope, n)
    ensures scope !in ReadableScopes(m) && scope != SHARED_SCOPE
  {
    assert PrivateScope(n)[0] == PrivateScope(m)[0] == 'p';
    assert ExperientialScope(n)[0] == ExperientialScope(m)[0] == 'e';
    assert SHARED_SCOPE[0] == 's';
    assert PrivateScope(n)[8..] == n && PrivateScope(m)[8..] == m;
    assert ExperientialScope(n)[13..] == n && ExperientialScope(m)[13..] == m;
  }

  // ----- the query filter --------------------------------------------------------

  datatype Where =
    | ScopeIn(scopes: seq<string>)
    | KeyIs(key: string, value: string)
    | KeyIsNot(key: string, value: string)
    | AllOf(conds: seq<Where>)

  predicate InScopes(meta: Metadata, scopes: seq<string>) {
    "scope" in meta && meta["scope"].Str? && meta["scope"].s in scopes
  }

  /** What the store's metadata filter means; a missing key passes only the "is not" test. */
  predicate Matches(w: Where, meta: Metadata) {
    match w
    case ScopeIn(scopes) => InScopes(meta, scopes)
    case KeyIs(key, value) => key in meta && meta[key] == Str(value)
    case KeyIsNot(key, value) => !(key in meta && meta[key] == Str(value))
    case AllOf(conds) => forall c :: c in conds ==> Matches(c, meta)
  }

  predicate Given(s: Option<string>) {
    s.Some? && s.value != ""
  }

  function BuildWhere(m: string, session: Option<string>, excludeTurn: Option<string>): Where {
    var conds := [ScopeIn(ReadableScopes(m))]
                 + (if Given(session) then [KeyIs("session_id", session.value)] else [])
                 + (if Given(excludeTurn) then [KeyIsNot("parent_turn_id", excludeTurn.value)] else []);
    if |conds| == 1 then conds[0] else AllOf(conds)
  }

  /** However a query is refined, the filter admits a row exactly when its scope is readable and
      the given refinements hold; no caller can widen it. */
  lemma WhereMeaning(m: string, session: Option<string>, excludeTurn: Option<string>, meta: Metadata)
    ensures Matches(BuildWhere(m, session, excludeTurn), meta)
       <==> && InScopes(meta, ReadableScopes(m))
            && (session.Some? && session.value != "" ==>
                  "session_id" in meta && meta["session_id"] == Str(session.value))
            && (excludeTurn.Some? && excludeTurn.value != "" ==>
                  !("parent_turn_id" in meta && meta["parent_turn_id"] == Str(excludeTurn.value)))
  {
    var first := ScopeIn(ReadableScopes(m));
    var second := if Given(session) then [KeyIs("session_id", session.value)] else [];
    var third := if Given(excludeTurn) then [KeyIsNot("parent_turn_id", excludeTurn.value)] else [];
    var conds := [first] + second + third;
    assert forall c :: c in conds <==> c == first || c in second || c in third;
    assert conds[0] == first;
    assert Matches(first, meta) <==> InScopes(meta, ReadableScopes(m));
    if Given(session) {
      assert KeyIs("session_id", session.value) in conds;
    }
    if Given(excludeTurn) {
      assert KeyIsNot("parent_turn_id", excludeTurn.value) in conds;
    }
  }

  // ----- labels ------------------------------------------------------------------

  function StripAll(names: seq<string>): seq<string> {
    if names == [] then [] else [Strip(names[0])] + StripAll(names[1..])
  }

  function ParticipantsToMeta(participants: seq<string>): string {
    Join(NonEmpty(StripAll(participants)), ",")
  }

  /** `names` are the trimmed texts of the participants that are not blank, in order; `at` says where
      they stand. */
  ghost predicate NamesAt(names: seq<string>, at: seq<nat>, participants: seq<string>) {
    && |names| == |at|
    && (forall j :: 0 <= j < |at| ==> NameAt(names[j], at[j], participants))
    && (forall i, j :: 0 <= i < j < |at| ==> at[i] < at[j])
    && (forall i :: 0 <= i < |participants| && !IsBlank(participants[i]) ==> i in at)
  }

  ghost predicate NameAt(name: string, i: nat, participants: seq<string>) {
    i < |participants| && name != "" && IsTrim(name, participants[i])
  }

  lemma {:induction false} NamesOf(participants: seq<string>) returns (at: seq<nat>)
    ensures NamesAt(NonEmpty(StripAll(participants)), at, participants)
  {
    hide IsTrim, Strip, IsBlank, NonEmpty;
    if participants == [] {
      at := [];
      assert NonEmpty([]) == [];
    } else {
      var first, rest, names := Strip(participants[0]), participants[1..], NonEmpty(StripAll(participants[1..]));
      var later := NamesOf(rest);
      StripIsTrim(participants[0]);
      assert StripAll(participants) == [first] + StripAll(rest);
      NonEmptyFirst(first, StripAll(rest));
      var moved := NamesMoved(names, later, participants);
      at := NamesFirst(names, moved, participants);
    }
  }

  lemma NonEmptyFirst(first: string, rest: seq<string>)
    ensures NonEmpty([first] + rest) == (if first == "" then [] else [first]) + NonEmpty(rest)
  {
    assert ([first] + rest)[1..] == rest;
  }

  /** `at` without the first participant. */
  ghost predicate LaterNames(names: seq<string>, at: seq<nat>, participants: seq<string>) {
    && |names| == |at|
    && (forall j :: 0 <= j < |at| ==> at[j] > 0 && NameAt(names[j], at[j], participants))
    && (forall i, j :: 0 <= i < j < |at| ==> at[i] < at[j])
    && (forall i :: 0 < i < |participants| && !IsBlank(participants[i]) ==> i in at)
  }

  lemma NamesMoved(names: seq<string>, later: seq<nat>, participants: seq<string>) returns (moved: seq<nat>)
    requires participants != [] && NamesAt(names, later, participants[1..])
    ensures LaterNames(names, moved, participants)
  {
    hide IsTrim, IsBlank;
    moved := seq(|later|, j requires 0 <= j < |later| => later[j] + 1);
    forall j | 0 <= j < |moved|
      ensures NameAt(names[j], moved[j], participants)
    {
      assert NameAt(names[j], later[j], participants[1..]);
    }
    forall i | 0 < i < |participants| && !IsBlank(participants[i])
      ensures i in moved
    {
      assert participants[1..][i - 1] == participants[i];
      var j :| 0 <= j < |later| && later[j] == i - 1;
      assert moved[j] == i;
    }
  }

  lemma NamesFirst(names: seq<string>, later: seq<nat>, participants: seq<string>) returns (at: seq<nat>)
    requires participants != [] && LaterNames(names, later, participants)
    ensures NamesAt((if Strip(participants[0]) == "" then [] else [Strip(participants[0])]) + names, at, participants)
  {
    hide IsTrim, Strip, IsBlank;
    var first := Strip(participants[0]);
    StripIsTrim(participants[0]);
    if first == "" {
      at := later;
      assert [] + names == names;
    } else {
      at := [0] + later;
      assert NameAt(first, 0, participants);
      hide NameAt;
      forall i | 0 <= i < |participants| && !IsBlank(participants[i])
        ensures i in at
      {
        assert at[0] == 0;
      }
    }
  }

  /** From the stored label the participants can be read back, unless a name holds a comma. */
  lemma ParticipantsReadBack(participants: seq<string>)
    requires forall p :: p in participants ==> ',' !in p
    ensures exists names, at :: NamesAt(names, at, participants)
              && (names == [] <==> ParticipantsToMeta(participants) == "")
              && (names != [] ==> Split(ParticipantsToMeta(participants), ",") == names)
  {
    hide IsTrim, IsBlank;
    var at := NamesOf(participants);
    var names := NonEmpty(StripAll(participants));
    if names != [] {
      forall j | 0 <= j < |names|
        ensures ',' !in names[j]
      {
        assert NameAt(names[j], at[j], participants);
        TrimIsPart(names[j], participants[at[j]]);
        assert participants[at[j]] in participants;
      }
      JoinSplits(names);
      assert names[0] != "";
    }
  }

  lemma TrimIsPart(t: string, s: string)
    requires IsTrim(t, s)
    ensures forall c :: c in t ==> c in s
  {
  }

  lemma JoinSplits(names: seq<string>)
    requires names != [] && forall j :: 0 <= j < |names| ==> ',' !in names[j]
    ensures Split(Join(names, ","), ",") == names
  {
    forall j | 0 <= j < |names|
      ensures CutsAfter(names[j], ",") && !Contains(names[j], ",")
    {
      NoCommaInside(names[j]);
    }
    SplitUnique(names, Join(names, ","), ",");
  }

  lemma NoCommaInside(s: string)
    requires ',' !in s
    ensures CutsAfter(s, ",") && !Contains(s, ",")
  {
    assert OccursAt(s + ",", ",", |s|);
    forall j: nat | OccursAt(s + ",", ",", j)
      ensures j == |s|
    {
      assert (s + ",")[j..j + 1][0] == ',';
    }
    forall j: nat | j < |s|
      ensures !OccursAt(s, ",", j)
    {
      assert s[j] in s && s[j..j + 1][0] == s[j];
    }
  }

  function EventMetadata(sensorSource: string, ts: string, reportedBy: string): Result<Metadata, ScopeError> {
    if Strip(sensorSource) == "" then Err(BlankSource)
    else Ok(map["scope" := Str(SHARED_SCOPE), "member_id" := Str(HOUSEHOLD_MEMBER_ID), "origin" := Str("sensor"),
                "sensor_source" := Str(Strip(sensorSource)), "reported_by" := Str(reportedBy),
                "participants" := Str(""), "ts" := Str(ts)])
  }

  function PromotedId(sourceId: string): string {
    sourceId + "::promoted"
  }

  lemma PromotedIdInjective(a: string, b: string)
    ensures PromotedId(a) == PromotedId(b) ==> a == b
  {
    assert PromotedId(a)[..|PromotedId(a)| - 10] == a;
    assert PromotedId(b)[..|PromotedId(b)| - 10] == b;
  }

  /** The paper trail a promotion adds. */
  function PromotionLabels(m: string, person: string, sourceId: string): Metadata {
    map["scope" := Str(SHARED_SCOPE), "member_id" := Str(HOUSEHOLD_MEMBER_ID), "origin" := Str("promotion"),
        "promoted_from" := Str(sourceId), "promoted_from_member" := Str(m), "promoted_by" := Str(person)]
  }

  function PromotionMetadata(source: Metadata, m: string, person: string, sourceId: string): Result<Metadata, ScopeError> {
    if !("scope" in source && source["scope"] == Str(PrivateScope(m))) then Err(WrongScope)
    else Ok(source + PromotionLabels(m, person, sourceId))
  }

  // ----- backfill ----------------------------------------------------------------

  /** `meta.get("scope")` is truthy. */
  predicate HasScope(meta: Metadata) {
    "scope" in meta && match meta["scope"] case Str(s) => s != "" case Num(n) => n != 0 case Flag(b) => b
  }

  lemma HasScopeMeans(meta: Metadata)
    ensures HasScope(meta) <==> "scope" in meta && meta["scope"] !in {Str(""), Num(0), Flag(false)}
  {
  }

  function BackfillLabels(m: string, participants: seq<string>): Metadata {
    map["scope" := Str(PrivateScope(m)), "member_id" := Str(m), "origin" := Str("conversation"),
        "participants" := Str(ParticipantsToMeta(participants))]
  }

  function OrEmpty(meta: Option<Metadata>): Metadata {
    if meta.Some? then meta.value else map[]
  }

  /** The rows a backfill updates, in order, with their merged metadata. */
  function BackfillPlan(ids: seq<string>, metas: seq<Option<Metadata>>, m: string, participants: seq<string>)
    : seq<(string, Metadata)>
  {
    if ids == [] || metas == [] then []
    else
      (if HasScope(OrEmpty(metas[0])) then [] else [(ids[0], OrEmpty(metas[0]) + BackfillLabels(m, participants))])
      + BackfillPlan(ids[1..], metas[1..], m, participants)
  }

  lemma {:induction false} BackfillPlanAppend(ids: seq<string>, metas: seq<Option<Metadata>>, id: string, meta: Option<Metadata>,
                           m: string, participants: seq<string>)
    requires |ids| == |metas|
    ensures BackfillPlan(ids + [id], metas + [meta], m, participants)
         == BackfillPlan(ids, metas, m, participants)
          + if HasScope(OrEmpty(meta)) then [] else [(id, OrEmpty(meta) + BackfillLabels(m, participants))]
  {
    hide HasScope, OrEmpty;
    if ids == [] {
      assert ([id])[1..] == [] && ([meta])[1..] == [];
      assert ids + [id] == [id] && metas + [meta] == [meta];
    } else {
      assert (ids + [id])[1..] == ids[1..] + [id];
      assert (metas + [meta])[1..] == metas[1..] + [meta];
      BackfillPlanAppend(ids[1..], metas[1..], id, meta, m, participants);
    }
  }

  function Ids(plan: seq<(string, Metadata)>): seq<string> {
    seq(|plan|, i requires 0 <= i < |plan| => plan[i].0)
  }

  function Metas(plan: seq<(string, Metadata)>): seq<Metadata> {
    seq(|plan|, i requires 0 <= i < |plan| => plan[i].1)
  }

  /** `zip` stops at the shorter list. */
  lemma {:induction false} PlanStopsAtShorter(ids: seq<string>, metas: seq<Option<Metadata>>, n: nat, m: string,
                                              participants: seq<string>)
    requires n <= |ids| && n <= |metas| && (n == |ids| || n == |metas|)
    ensures BackfillPlan(ids[..n], metas[..n], m, participants) == BackfillPlan(ids, metas, m, participants)
  {
    hide HasScope, OrEmpty;
    if n > 0 {
      assert ids[..n][1..] == ids[1..][..n - 1] && metas[..n][1..] == metas[1..][..n - 1];
      PlanStopsAtShorter(ids[1..], metas[1..], n - 1, m, participants);
    }
  }

  lemma PlanOneMore(ids: seq<string>, metas: seq<Option<Metadata>>, i: nat, m: string, participants: seq<string>)
    requires i < |ids| && i < |metas|
    ensures BackfillPlan(ids[..i + 1], metas[..i + 1], m, participants)
         == BackfillPlan(ids[..i], metas[..i], m, participants)
          + if HasScope(OrEmpty(metas[i])) then [] else [(ids[i], OrEmpty(metas[i]) + BackfillLabels(m, participants))]
  {
    hide HasScope, OrEmpty, BackfillPlan;
    assert ids[..i + 1] == ids[..i] + [ids[i]] && metas[..i + 1] == metas[..i] + [metas[i]];
    BackfillPlanAppend(ids[..i], metas[..i], ids[i], metas[i], m, participants);
  }

  /** The planner as it runs: two parallel lists grown row by row. */
  method PlanScopeBackfill(ids: seq<string>, metas: seq<Option<Metadata>>, m: string, participants: seq<string>)
    returns (updateIds: seq<string>, updateMetas: seq<Metadata>)
    ensures var plan := BackfillPlan(ids, metas, m, participants);
            updateIds == Ids(plan) && updateMetas == Metas(plan)
  {
    hide BackfillPlan;
    updateIds, updateMetas := [], [];
    var n := if |ids| < |metas| then |ids| else |metas|;
    ghost var plan := [];
    assert BackfillPlan(ids[..0], metas[..0], m, participants) == [] by {
      PlanOfNoRows(ids[..0], metas[..0], m, participants);
    }
    for i := 0 to n
      invariant plan == BackfillPlan(ids[..i], metas[..i], m, participants)
      invariant updateIds == Ids(plan) && updateMetas == Metas(plan)
    {
      PlanOneMore(ids, metas, i, m, participants);
      var meta := OrEmpty(metas[i]);
      if !HasScope(meta) {
        meta := meta + BackfillLabels(m, participants);
        updateIds := updateIds + [ids[i]];
        updateMetas := updateMetas + [meta];
        plan := plan + [(ids[i], meta)];
      }
    }
    PlanStopsAtShorter(ids, metas, n, m, participants);
  }

  lemma PlanOfNoRows(ids: seq<string>, metas: seq<Option<Metadata>>, m: string, participants: seq<string>)
    requires ids == []
    ensures BackfillPlan(ids, metas, m, participants) == []
  {
  }
}
