/** The vector store behind the memory service: one collection of rows in insertion order. */
module ChromaStore {
  import opened Wrappers
  import opened Scopes
  import opened StableSort

  type Vector = seq<real>

  datatype Row = Row(id: string, document: string, embedding: Vector, meta: Option<Metadata>)

  datatype Match = Match(id: string, text: string, meta: Metadata, distance: real)

  function MetaOf(r: Row): Metadata {
    OrEmpty(r.meta)
  }

  predicate HasId(rows: seq<Row>, id: string) {
    exists r :: r in rows && r.id == id
  }

  /** `get(ids=[id])`. */
  function GetById(rows: seq<Row>, id: string): (r: Option<Row>)
    ensures r.Some? ==> r.value in rows && r.value.id == id
    ensures r.None? ==> !HasId(rows, id)
  {
    if rows == [] then None
    else if rows[0].id == id then Some(rows[0])
    else GetById(rows[1..], id)
  }

  /** `add`: rows whose id the collection already holds are ignored, the rest are appended. */
  function Add(rows: seq<Row>, more: seq<Row>): seq<Row>
    decreases |more|
  {
    if more == [] then rows
    else Add(if HasId(rows, more[0].id) then rows else rows + [more[0]], more[1..])
  }

  /** `get(where=...)`, in insertion order. */
  function GetWhere(rows: seq<Row>, w: Where): seq<Row> {
    Filter(rows, (r: Row) => Matches(w, MetaOf(r)))
  }

  function Take<T>(s: seq<T>, n: int): seq<T> {
    if n <= 0 then [] else if n < |s| then s[..n] else s
  }

  /** Exact nearest neighbours among the rows that pass the filter, ties in insertion order. */
  function Nearest(rows: seq<Row>, w: Where, q: Vector, k: int, dist: (Vector, Vector) -> real): seq<Match> {
    var near := Take(Sort(GetWhere(rows, w), (a: Row, b: Row) => dist(q, a.embedding) <= dist(q, b.embedding)), k);
    seq(|near|, i requires 0 <= i < |near| =>
      Match(near[i].id, near[i].document, MetaOf(near[i]), dist(q, near[i].embedding)))
  }

  /** `update` of one row's metadata: the given keys replace the old ones. */
  function Updated(r: Row, id: string, meta: Metadata): Row {
    if r.id == id then r.(meta := Some(MetaOf(r) + meta)) else r
  }

  function UpdateAll(rows: seq<Row>, id: string, meta: Metadata): (r: seq<Row>)
    ensures |r| == |rows|
  {
    seq(|rows|, i requires 0 <= i < |rows| => Updated(rows[i], id, meta))
  }

  function RowIds(rows: seq<Row>): seq<string> {
    seq(|rows|, i requires 0 <= i < |rows| => rows[i].id)
  }

  function Documents(rows: seq<Row>): seq<string> {
    seq(|rows|, i requires 0 <= i < |rows| => rows[i].document)
  }

  function RowMetas(rows: seq<Row>): seq<Option<Metadata>> {
    seq(|rows|, i requires 0 <= i < |rows| => rows[i].meta)
  }

  function PageOf(rows: seq<Row>, limit: nat, offset: nat): seq<Row> {
    if offset >= |rows| then []
    else if offset + limit < |rows| then rows[offset..offset + limit]
    else rows[offset..]
  }

  class Collection {
    var rows: seq<Row>

    constructor (stored: seq<Row>)
      ensures rows == stored
    {
      rows := stored;
    }

    method AddDocuments(more: seq<Row>)
      modifies this
      ensures rows == Add(old(rows), more)
    {
      var rest := more;
      while rest != []
        invariant Add(rows, rest) == Add(old(rows), more)
      {
        var known := exists i :: 0 <= i < |rows| && rows[i].id == rest[0].id;
        assert known == HasId(rows, rest[0].id);
        if !known {
          rows := rows + [rest[0]];
        }
        rest := rest[1..];
      }
    }

    /** One page of rows, in the collection's stable order. */
    method Page(limit: nat, offset: nat) returns (ids: seq<string>, metas: seq<Option<Metadata>>)
      ensures ids == RowIds(PageOf(rows, limit, offset)) && metas == RowMetas(PageOf(rows, limit, offset))
    {
      var page := PageOf(rows, limit, offset);
      ids, metas := RowIds(page), RowMetas(page);
    }

    method Update(ids: seq<string>, metas: seq<Metadata>)
      requires |ids| == |metas|
      modifies this
      ensures rows == UpdatedRows(old(rows), ids, metas)
    {
      var i := 0;
      while i < |ids|
        invariant i <= |ids|
        invariant UpdatedRows(rows, ids[i..], metas[i..]) == UpdatedRows(old(rows), ids, metas)
      {
        assert ids[i..][1..] == ids[i + 1..] && metas[i..][1..] == metas[i + 1..];
        rows := UpdateAll(rows, ids[i], metas[i]);
        i := i + 1;
      }
    }
  }

  function UpdatedRows(rows: seq<Row>, ids: seq<string>, metas: seq<Metadata>): (r: seq<Row>)
    ensures |r| == |rows|
    decreases |ids|
  {
    if ids == [] || metas == [] then rows
    else UpdatedRows(UpdateAll(rows, ids[0], metas[0]), ids[1..], metas[1..])
  }
}
