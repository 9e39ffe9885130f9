/** The scope migration: page through the collection and backfill rows that lack a scope. */
module Migration {
  import opened Wrappers
  import opened Scopes
  import opened ChromaStore

  ghost predicate UniqueRows(rows: seq<Row>) {
    forall i, j :: 0 <= i < j < |rows| ==> rows[i].id != rows[j].id
  }

  /** A row after the migration. */
  function BackfilledRow(r: Row, m: string, participants: seq<string>): Row {
    if HasScope(MetaOf(r)) then r else r.(meta := Some(MetaOf(r) + BackfillLabels(m, participants)))
  }

  /** The first `k` rows migrated. */
  function BackfilledTo(rows: seq<Row>, k: nat, m: string, participants: seq<string>): (r: seq<Row>)
    ensures |r| == |rows|
  {
    seq(|rows|, i requires 0 <= i < |rows| => if i < k then BackfilledRow(rows[i], m, participants) else rows[i])
  }

  function Backfilled(rows: seq<Row>, m: string, participants: seq<string>): seq<Row> {
    BackfilledTo(rows, |rows|, m, participants)
  }

  function Unscoped(rows: seq<Row>): (n: nat)
    ensures n <= |rows|
  {
    if rows == [] then 0 else (if HasScope(MetaOf(rows[0])) then 0 else 1) + Unscoped(rows[1..])
  }

  /** One call of the planner over these rows. */
  function Plan(rows: seq<Row>, m: string, participants: seq<string>): seq<(string, Metadata)> {
    BackfillPlan(RowIds(rows), RowMetas(rows), m, participants)
  }

  lemma PlanCons(r: Row, rest: seq<Row>, m: string, participants: seq<string>)
    ensures Plan([r] + rest, m, participants)
         == (if HasScope(MetaOf(r)) then [] else [(r.id, MetaOf(r) + BackfillLabels(m, participants))])
          + Plan(rest, m, participants)
  {
    var all := [r] + rest;
    assert RowIds(all)[1..] == RowIds(rest) && RowMetas(all)[1..] == RowMetas(rest);
  }

  lemma {:induction false} PlanLength(rows: seq<Row>, m: string, participants: seq<string>)
    ensures |Plan(rows, m, participants)| == Unscoped(rows)
  {
    if rows != [] {
      hide Plan;
      assert rows == [rows[0]] + rows[1..];
      PlanCons(rows[0], rows[1..], m, participants);
      PlanLength(rows[1..], m, participants);
    } else {
      assert RowIds(rows) == [];
    }
  }

  lemma {:induction false} UnscopedAppend(a: seq<Row>, b: seq<Row>)
    ensures Unscoped(a + b) == Unscoped(a) + Unscoped(b)
  {
    if a == [] {
      assert a + b == b;
    } else {
      assert (a + b)[1..] == a[1..] + b;
      UnscopedAppend(a[1..], b);
    }
  }

  /** Updating row `k` by its id migrates that row and no other. */
  lemma UpdateOne(rows: seq<Row>, k: nat, m: string, participants: seq<string>)
    requires UniqueRows(rows) && k < |rows| && !HasScope(MetaOf(rows[k]))
    ensures UpdateAll(BackfilledTo(rows, k, m, participants), rows[k].id,
                      MetaOf(rows[k]) + BackfillLabels(m, participants))
         == BackfilledTo(rows, k + 1, m, participants)
  {
    var before, after := BackfilledTo(rows, k, m, participants), BackfilledTo(rows, k + 1, m, participants);
    var meta := MetaOf(rows[k]) + BackfillLabels(m, participants);
    forall i | 0 <= i < |rows|
      ensures Updated(before[i], rows[k].id, meta) == after[i]
    {
      if i == k {
        assert MetaOf(rows[k]) + meta == meta;
      } else {
        assert rows[i].id != rows[k].id;
      }
    }
  }

  /** Applying the plan of one page migrates that page. */
  lemma {:induction false} ApplyPage(rows: seq<Row>, k: nat, e: nat, m: string, participants: seq<string>)
    requires UniqueRows(rows) && k <= e <= |rows|
    ensures var plan := Plan(rows[k..e], m, participants);
            UpdatedRows(BackfilledTo(rows, k, m, participants), Ids(plan), Metas(plan))
            == BackfilledTo(rows, e, m, participants)
    decreases e - k
  {
    hide Plan, UniqueRows, HasScope;
    var plan := Plan(rows[k..e], m, participants);
    if k == e {
      assert rows[k..e] == [];
      PlanOfNothing(m, participants);
    } else {
      assert rows[k..e] == [rows[k]] + rows[k + 1..e];
      PlanCons(rows[k], rows[k + 1..e], m, participants);
      var rest := Plan(rows[k + 1..e], m, participants);
      ApplyPage(rows, k + 1, e, m, participants);
      if HasScope(MetaOf(rows[k])) {
        assert plan == rest;
        assert BackfilledTo(rows, k, m, participants) == BackfilledTo(rows, k + 1, m, participants);
      } else {
        assert Ids(plan)[1..] == Ids(rest) && Metas(plan)[1..] == Metas(rest);
        UpdateOne(rows, k, m, participants);
      }
    }
  }

  lemma PlanOfNothing(m: string, participants: seq<string>)
    ensures Plan([], m, participants) == []
  {
  }

  /** The next page of a half-migrated collection is as it was before the migration. */
  lemma PageIsOriginal(rows: seq<Row>, k: nat, batch: nat, m: string, participants: seq<string>)
    requires k <= |rows|
    ensures PageOf(BackfilledTo(rows, k, m, participants), batch, k) == PageOf(rows, batch, k)
  {
  }

  lemma PageIsSlice(rows: seq<Row>, k: nat, batch: nat)
    requires k <= |rows|
    ensures PageOf(rows, batch, k) == rows[k..k + |PageOf(rows, batch, k)|]
    ensures |PageOf(rows, batch, k)| == if k + batch < |rows| then batch else |rows| - k
  {
  }

  /** The part of the count a page contributes. */
  lemma UnscopedPage(rows: seq<Row>, k: nat, e: nat)
    requires k <= e <= |rows|
    ensures Unscoped(rows[..e]) == Unscoped(rows[..k]) + Unscoped(rows[k..e])
  {
    UnscopedAppend(rows[..k], rows[k..e]);
    assert rows[..e] == rows[..k] + rows[k..e];
  }

  /** One page: fetch, plan and, with `apply`, write. */
  method MigratePage(coll: Collection, batch: nat, offset: nat, m: string, participants: seq<string>, apply: bool,
                     ghost rows: seq<Row>)
    returns (read: nat, changed: nat)
    requires UniqueRows(rows) && offset <= |rows|
    requires coll.rows == if apply then BackfilledTo(rows, offset, m, participants) else rows
    modifies coll
    ensures read == (if offset + batch < |rows| then batch else |rows| - offset)
    ensures changed == Unscoped(rows[offset..offset + read])
    ensures coll.rows == if apply then BackfilledTo(rows, offset + read, m, participants) else rows
  {
    hide UniqueRows, HasScope, BackfilledTo, PageOf, BackfillPlan;
    var ids, metas := coll.Page(batch, offset);
    read := |ids|;
    ghost var next := offset + read;
    PageIsOriginal(rows, offset, batch, m, participants);
    PageIsSlice(rows, offset, batch);
    assert ids == RowIds(rows[offset..next]) && metas == RowMetas(rows[offset..next]);
    var updateIds, updateMetas := PlanScopeBackfill(ids, metas, m, participants);
    changed := |updateIds|;
    PlanLength(rows[offset..next], m, participants);
    ApplyPage(rows, offset, next, m, participants);
    if updateIds != [] && apply {
      coll.Update(updateIds, updateMetas);
    }
  }

  /** The migration script: page after page of `batch` rows. */
  method Migrate(coll: Collection, batch: nat, m: string, participants: seq<string>, apply: bool)
    returns (total: nat, already: nat, updated: nat)
    requires batch > 0 && UniqueRows(coll.rows)
    modifies coll
    ensures coll.rows == if apply then Backfilled(old(coll.rows), m, participants) else old(coll.rows)
    ensures total == |old(coll.rows)| && already + updated == total
    ensures updated == Unscoped(old(coll.rows))
  {
    total, already, updated := |coll.rows|, 0, 0;
    var offset := 0;
    ghost var rows := coll.rows;
    assert BackfilledTo(rows, 0, m, participants) == rows;
    while offset < total
      invariant offset <= total == |rows| && already + updated == offset
      invariant updated == Unscoped(rows[..offset])
      invariant coll.rows == if apply then BackfilledTo(rows, offset, m, participants) else rows
    {
      var read, changed := MigratePage(coll, batch, offset, m, participants, apply, rows);
      UnscopedPage(rows, offset, offset + read);
      if read == 0 {
        break;
      }
      offset := offset + read;
      already := already + (read - changed);
      updated := updated + changed;
    }
    assert rows[..total] == rows;
  }

  // ----- what the migration promises -------------------------------------------------

  /** Afterwards every row has a scope; scoped rows and all other metadata keys are untouched. */
  lemma BackfillScopesEverything(rows: seq<Row>, m: string, participants: seq<string>, i: nat)
    requires i < |rows|
    ensures var r, r' := rows[i], Backfilled(rows, m, participants)[i];
            && HasScope(MetaOf(r')) && (HasScope(MetaOf(r)) ==> r' == r)
            && (!HasScope(MetaOf(r)) ==>
                  && {"scope", "member_id", "origin", "participants"} <= MetaOf(r').Keys
                  && MetaOf(r')["scope"] == Str("private:" + m) && MetaOf(r')["member_id"] == Str(m)
                  && MetaOf(r')["origin"] == Str("conversation")
                  && MetaOf(r')["participants"] == Str(ParticipantsToMeta(participants)))
            && r'.id == r.id && r'.document == r.document && r'.embedding == r.embedding
            && (forall key :: key in MetaOf(r) && key !in {"scope", "member_id", "origin", "participants"} ==>
                  key in MetaOf(r') && MetaOf(r')[key] == MetaOf(r)[key])
  {
  }

  lemma {:induction false} UnscopedZero(rows: seq<Row>)
    requires forall i :: 0 <= i < |rows| ==> HasScope(MetaOf(rows[i]))
    ensures Unscoped(rows) == 0
  {
    if rows != [] {
      UnscopedZero(rows[1..]);
    }
  }

  /** A second run finds nothing to update and changes nothing. */
  lemma BackfillIdempotent(rows: seq<Row>, m: string, participants: seq<string>, n: string, others: seq<string>)
    ensures var once := Backfilled(rows, m, participants);
            Unscoped(once) == 0 && Backfilled(once, n, others) == once
  {
    var once := Backfilled(rows, m, participants);
    forall i | 0 <= i < |once|
      ensures HasScope(MetaOf(once[i]))
    {
      BackfillScopesEverything(rows, m, participants, i);
    }
    UnscopedZero(once);
  }
}
