/** fileee/query.go, fileee/service.go and fileee/documenttypes.go, the code that runs: cursors that share
    their map when copied, loops over maps in whatever order Go picks, paging against a live query. */
module SyncService {
  import opened Optional
  import opened Sync

  /** A Go map[string]int64: copies of the reference see each other's writes. */
  class KnownMap {
    var m: Known

    constructor ()
      ensures m == map[]
    {
      m := map[];
    }
  }

  /** Known is null in the zero value Cursor{}, which reads like an empty map. */
  datatype Cursor = Cursor(EntityType: string, Known: KnownMap?)

  function View(c: Cursor): Known
    reads c.Known
  {
    if c.Known == null then map[] else c.Known.m
  }

  /** One element of "rows". The typed decoding and the id/version decoding may each fail; a missing id or
      version decodes to Go's zero value. */
  datatype RawRow = RawRow(typed: bool, headed: bool, id: Option<Id>, version: Option<int>)

  datatype DiffWire = DiffWire(rows: seq<RawRow>, idsToDelete: seq<Id>, totalRows: int)

  /** apiStatus: the status of an APIError wrapped inside, from a refused request of the login handshake. */
  datatype Error =
    | SessionFailed(apiStatus: Option<int>)
    | RequestFailed(apiStatus: Option<int>)
    | ApiError(status: int)
    | Undecodable
    | QueryFailed

  datatype Result<+T> = Ok(value: T) | Err(error: Error)

  datatype DiffResult = DiffResult(rows: seq<IdVersion>, deletedIDs: seq<Id>, totalRows: int, next: Cursor)

  function Header(r: RawRow): IdVersion {
    IdVersion(if r.id.Some? then r.id.value else "", if r.version.Some? then r.version.value else 0)
  }

  function Headers(rows: seq<RawRow>): (s: seq<IdVersion>)
    ensures |s| == |rows| && forall i :: 0 <= i < |rows| ==> s[i] == Header(rows[i])
  {
    seq(|rows|, i requires 0 <= i < |rows| => Header(rows[i]))
  }

  predicate Decodable(body: Option<DiffWire>) {
    body.Some? && forall r :: r in body.value.rows ==> r.typed && r.headed
  }

  method NewCursor(entityType: string) returns (c: Cursor)
    ensures c.EntityType == entityType && c.Known != null && fresh(c.Known) && View(c) == map[]
  {
    var known := new KnownMap();
    c := Cursor(entityType, known);
  }

  /** A deep copy; nothing that existed before is written. */
  method Clone(c: Cursor) returns (d: Cursor)
    ensures d.EntityType == c.EntityType && d.Known != null && fresh(d.Known)
    ensures View(d) == View(c)
  {
    var known := new KnownMap();
    var keys := View(c).Keys;
    while keys != {}
      invariant keys <= View(c).Keys && fresh(known)
      invariant known.m.Keys == View(c).Keys - keys
      invariant forall id :: id in known.m ==> known.m[id] == View(c)[id]
      decreases |keys|
    {
      var id :| id in keys;
      known.m := known.m[id := View(c)[id]];
      keys := keys - {id};
    }
    d := Cursor(c.EntityType, known);
  }

  /** Whatever order the loop takes, the result is the one ascending list of the entries (the list is
      unique by Sync.CanonicalUnique). */
  method BuildLocalResults(c: Cursor) returns (out: seq<IdVersion>)
    ensures Ascending(out) && Represents(out, View(c))
  {
    out := [];
    var keys := View(c).Keys;
    ghost var done: Known := map[];
    while keys != {}
      invariant keys <= View(c).Keys
      invariant done.Keys == View(c).Keys - keys && forall id :: id in done ==> done[id] == View(c)[id]
      invariant Represents(out, done)
      decreases |keys|
    {
      var id :| id in keys;
      out := out + [IdVersion(id, View(c)[id])];
      done := done[id := View(c)[id]];
      keys := keys - {id};
    }
    assert done == View(c);
    out := SortById(out, View(c));
  }

  method DeleteIds(known: KnownMap, ids: seq<Id>)
    modifies known
    ensures known.m == old(known.m) - Removed(ids)
  {
    for i := 0 to |ids|
      invariant known.m == old(known.m) - Removed(ids[..i])
    {
      known.m := known.m - {ids[i]};
      assert ids[..i + 1] == ids[..i] + [ids[i]];
    }
    assert ids[..|ids|] == ids;
  }

  // ---------------------------------------------------------------- what the wire says

  /** The row carries this id, where Go reads a missing one as "". */
  predicate HasId(r: RawRow, id: Id) { if r.id.None? then id == "" else r.id.value == id }

  predicate HasVersion(r: RawRow, version: int) {
    if r.version.None? then version == 0 else r.version.value == version
  }

  /** The decoded rows are those of the answer, in order, with their ids and versions. */
  predicate RowsSay(raws: seq<RawRow>, rows: seq<IdVersion>) {
    && |rows| == |raws|
    && forall i :: 0 <= i < |raws| ==> HasId(raws[i], rows[i].id) && HasVersion(raws[i], rows[i].version)
  }

  predicate IsLastRow(w: DiffWire, i: int, id: Id) {
    0 <= i < |w.rows| && HasId(w.rows[i], id) && forall j :: i < j < |w.rows| ==> !HasId(w.rows[j], id)
  }

  predicate NoRow(w: DiffWire, id: Id) {
    forall i :: 0 <= i < |w.rows| ==> !HasId(w.rows[i], id)
  }

  /** The next cursor: nothing deleted; an id has the version of the last row that carries it, or else the one
      it had. */
  ghost predicate CursorSays(before: Known, w: DiffWire, after: Known) {
    && (forall id :: id in w.idsToDelete ==> id !in after)
    && (forall i, id, version :: IsLastRow(w, i, id) && HasVersion(w.rows[i], version) && id !in w.idsToDelete ==>
                                   id in after && after[id] == version)
    && (forall id :: NoRow(w, id) && id !in w.idsToDelete ==>
                       (id in after <==> id in before) && (id in after ==> after[id] == before[id]))
  }

  lemma {:induction false} LastVersionAt(rows: seq<IdVersion>, i: nat)
    requires i < |rows| && forall j :: i < j < |rows| ==> rows[j].id != rows[i].id
    ensures rows[i].id in Ids(rows) && LastVersion(rows, rows[i].id) == Some(rows[i].version)
  {
    assert rows[i] in rows;
    if i < |rows| - 1 {
      LastVersionAt(rows[..|rows| - 1], i);
    }
  }

  /** Merging what Headers reads gives the cursor the wire says. */
  lemma MergeSays(before: Known, w: DiffWire)
    ensures RowsSay(w.rows, Headers(w.rows))
    ensures CursorSays(before, w, Merge(before, Headers(w.rows), w.idsToDelete))
  {
    var rows := Headers(w.rows);
    var after := Merge(before, rows, w.idsToDelete);
    forall id ensures id in w.idsToDelete ==> id !in after {
      MergeMeaning(before, rows, w.idsToDelete, id);
    }
    forall i, id, version | IsLastRow(w, i, id) && HasVersion(w.rows[i], version) && id !in w.idsToDelete
      ensures id in after && after[id] == version
    {
      forall j | i < j < |rows| ensures rows[j].id != rows[i].id {
        assert !HasId(w.rows[j], id);
      }
      LastVersionAt(rows, i);
      MergeMeaning(before, rows, w.idsToDelete, id);
    }
    forall id | NoRow(w, id) && id !in w.idsToDelete
      ensures (id in after <==> id in before) && (id in after ==> after[id] == before[id])
    {
      forall x | x in rows ensures x.id != id {
        var i :| 0 <= i < |rows| && rows[i] == x;
        assert !HasId(w.rows[i], id);
      }
      MergeMeaning(before, rows, w.idsToDelete, id);
    }
  }

  lemma AssignMore(m: Known, rows: seq<IdVersion>, x: IdVersion)
    ensures Assign(m, rows + [x]) == Assign(m, rows)[x.id := x.version]
  {}

  /** The row loop of decodeDiff: it stops at the first row it cannot decode, and the cursor it was filling
      is then dropped. */
  method DecodeRows(raws: seq<RawRow>, known: KnownMap) returns (rows: seq<IdVersion>, ok: bool)
    modifies known
    ensures ok <==> forall r :: r in raws ==> r.typed && r.headed
    ensures ok ==> rows == Headers(raws) && RowsSay(raws, rows) && known.m == Assign(old(known.m), rows)
  {
    rows := [];
    for i := 0 to |raws|
      invariant |rows| == i && (forall j :: 0 <= j < i ==> rows[j] == Header(raws[j]))
      invariant known.m == Assign(old(known.m), rows)
      invariant forall j :: 0 <= j < i ==> raws[j].typed && raws[j].headed
    {
      var raw := raws[i];
      if !raw.typed || !raw.headed {
        assert raw in raws;
        return rows, false;
      }
      var iv := Header(raw);
      AssignMore(old(known.m), rows, iv);
      rows := rows + [iv];
      known.m := known.m[iv.id := iv.version];
    }
    assert rows == Headers(raws);
    ok := true;
  }

  /** decodeDiff: all rows or none, merged into a copy of the caller's cursor. */
  method DecodeDiff(body: Option<DiffWire>, cursor: Cursor) returns (res: Result<DiffResult>)
    ensures res.Ok? <==> body.Some? && forall r :: r in body.value.rows ==> r.typed && r.headed
    ensures res.Err? ==> res.error == Undecodable
    ensures res.Ok? ==>
              && res.value.rows == Headers(body.value.rows)
              && res.value.deletedIDs == body.value.idsToDelete
              && res.value.totalRows == body.value.totalRows
              && res.value.next.EntityType == cursor.EntityType
              && res.value.next.Known != null && fresh(res.value.next.Known)
              && RowsSay(body.value.rows, res.value.rows)
              && View(res.value.next) == Merge(View(cursor), Headers(body.value.rows), body.value.idsToDelete)
              && CursorSays(View(cursor), body.value, View(res.value.next))
  {
    if body.None? {
      return Err(Undecodable);
    }
    var w := body.value;
    var next := Clone(cursor);
    var rows, ok := DecodeRows(w.rows, next.Known);
    if !ok {
      return Err(Undecodable);
    }
    DeleteIds(next.Known, w.idsToDelete);
    MergeSays(View(cursor), w);
    res := Ok(DiffResult(rows, w.idsToDelete, w.totalRows, next));
  }

  // ---------------------------------------------------------------- paging

  const PAGE: nat := 100

  datatype Page = Page(rows: seq<IdVersion>, totalRows: int)

  /** A fixed list behind the query endpoint. A page starts at `start` and is not empty before the end of
      the list; it may be shorter than asked for unless `full`. Any query may fail. */
  class QueryServer {
    const rows: seq<IdVersion>
    const full: bool

    constructor (rows: seq<IdVersion>, full: bool) {
      this.rows, this.full := rows, full;
    }

    predicate Answers(start: nat, limit: nat, page: Page) {
      && start + |page.rows| <= |rows|
      && page.rows == rows[start..start + |page.rows|]
      && |page.rows| <= limit
      && (start < |rows| ==> page.rows != [])
      && (full ==> |page.rows| == if |rows| - start < limit then |rows| - start else limit)
      && page.totalRows == |rows|
    }

    method Query(start: nat, limit: nat) returns (page: Option<Page>)
      requires start <= |rows| && limit > 0
      ensures page.Some? ==> Answers(start, limit, page.value)
    {
      var up: bool, short: nat := *, *;
      if !up {
        return None;
      }
      var n := if |rows| - start < limit then |rows| - start else limit;
      if !full && 0 < short < n {
        n := short;
      }
      page := Some(Page(rows[start..start + n], |rows|));
    }
  }

  function Ceil(n: nat, unit: nat): nat
    requires unit > 0
  {
    (n + unit - 1) / unit
  }

  function AtLeastOne(n: nat): nat { if n == 0 then 1 else n }

  /** Every row of the list once and in order, or nothing when some query failed. */
  method QueryAllPages(server: QueryServer) returns (all: Option<seq<IdVersion>>, calls: nat)
    ensures all.Some? ==> all.value == server.rows
    ensures 1 <= calls <= AtLeastOne(|server.rows|)
    ensures all.Some? && server.full ==> calls == AtLeastOne(Ceil(|server.rows|, PAGE))
  {
    var rows: seq<IdVersion> := [];
    var start := 0;
    calls := 0;
    while true
      invariant start == |rows| <= |server.rows| && rows == server.rows[..start]
      invariant calls <= start && (calls > 0 ==> start < |server.rows|)
      invariant server.full ==> start == PAGE * calls
      decreases |server.rows| - start, 1 - calls
    {
      var page := server.Query(start, PAGE);
      calls := calls + 1;
      if page.None? {
        return None, calls;
      }
      rows := rows + page.value.rows;
      start := start + |page.value.rows|;
      if |page.value.rows| == 0 || start >= page.value.totalRows {
        break;
      }
    }
    assert rows == server.rows;
    all := Some(rows);
  }

  // ---------------------------------------------------------------- diff, direct or by fallback

  predicate NoDuplicates(ids: seq<Id>) {
    forall i, j :: 0 <= i < j < |ids| ==> ids[i] != ids[j]
  }

  method QueryFallbackDiff(cursor: Cursor, server: QueryServer) returns (res: Result<DiffResult>)
    ensures res.Err? ==> res.error == QueryFailed
    ensures res.Ok? ==>
              && res.value.rows == server.rows && res.value.totalRows == |server.rows|
              && NoDuplicates(res.value.deletedIDs)
              && Removed(res.value.deletedIDs) == View(cursor).Keys - Ids(server.rows)
              && res.value.next.EntityType == cursor.EntityType
              && res.value.next.Known != null && fresh(res.value.next.Known)
              && View(res.value.next) == Merge(View(cursor), server.rows, res.value.deletedIDs)
  {
    var all, _ := QueryAllPages(server);
    if all.None? {
      return Err(QueryFailed);
    }
    var rows := all.value;
    var next := NewCursor(cursor.EntityType);
    for i := 0 to |rows|
      invariant fresh(next.Known) && next.Known.m == Assign(map[], rows[..i])
    {
      next.Known.m := next.Known.m[rows[i].id := rows[i].version];
      assert rows[..i + 1][..i] == rows[..i];
    }
    assert rows[..|rows|] == rows;
    assert next.Known.m.Keys == Ids(rows) by {
      forall id ensures id in next.Known.m <==> id in Ids(rows) { AssignMeaning(map[], rows, id); }
    }
    var deleted: seq<Id> := [];
    var keys := View(cursor).Keys;
    while keys != {}
      invariant keys <= View(cursor).Keys && fresh(next.Known)
      invariant NoDuplicates(deleted)
      invariant forall id :: id in deleted <==> id in View(cursor).Keys - keys && id !in next.Known.m
      decreases |keys|
    {
      var id :| id in keys;
      if id !in next.Known.m {
        deleted := deleted + [id];
      }
      keys := keys - {id};
    }
    assert Removed(deleted) == View(cursor).Keys - Ids(rows);
    FallbackRefinesDirect(View(cursor), rows, deleted);
    res := Ok(DiffResult(rows, deleted, |rows|, next));
  }

  /** What EnsureSession, or else postJSON to /rest/diff, came back with. */
  datatype Response =
    | SessionError(apiStatus: Option<int>)
    | TransportError(apiStatus: Option<int>)
    | Answer(status: int, body: Option<DiffWire>)

  /** restService.Diff: the request it sends and the result. */
  method RestDiff(cursor: Cursor, response: Response) returns (sent: seq<IdVersion>, res: Result<DiffResult>)
    ensures response.SessionError? ==> res == Err(SessionFailed(response.apiStatus))
    ensures !response.SessionError? ==> Ascending(sent) && Represents(sent, View(cursor))
    ensures response.TransportError? ==> res == Err(RequestFailed(response.apiStatus))
    ensures response.Answer? && response.status != 200 ==> res == Err(ApiError(response.status))
    ensures res.Ok? <==> response.Answer? && response.status == 200 && Decodable(response.body)
    ensures response.Answer? && response.status == 200 && res.Err? ==> res == Err(Undecodable)
    ensures res.Ok? ==>
              && res.value.rows == Headers(response.body.value.rows)
              && res.value.deletedIDs == response.body.value.idsToDelete
              && res.value.totalRows == response.body.value.totalRows
              && res.value.next.EntityType == cursor.EntityType
              && res.value.next.Known != null && fresh(res.value.next.Known)
              && RowsSay(response.body.value.rows, res.value.rows)
              && View(res.value.next) == Merge(View(cursor), res.value.rows, res.value.deletedIDs)
              && CursorSays(View(cursor), response.body.value, View(res.value.next))
  {
    sent := [];
    if response.SessionError? {
      return sent, Err(SessionFailed(response.apiStatus));
    }
    sent := BuildLocalResults(cursor);
    if response.TransportError? {
      return sent, Err(RequestFailed(response.apiStatus));
    }
    if response.status != 200 {
      return sent, Err(ApiError(response.status));
    }
    res := DecodeDiff(response.body, cursor);
  }

  /** An answer is honest if its deletions are the vanished ids, and each of its rows carries the id and the
      version of an entry of the server on which the cursor disagrees; there are at most `limit` rows, and at
      least one if there is disagreement. */
  ghost predicate HonestWire(state: Known, known: Known, limit: nat, w: DiffWire) {
    && (forall r :: r in w.rows ==>
          r.id.Some? && r.version.Some?
          && r.id.value in state && state[r.id.value] == r.version.value
          && (r.id.value !in known || known[r.id.value] != r.version.value))
    && |w.rows| <= limit
    && ((exists id :: id in state && (id !in known || known[id] != state[id])) ==> w.rows != [])
    && (forall id :: id in w.idsToDelete <==> id in known && id !in state)
  }

  /** Against an honest server every Diff is a round of Sync.SyncRun, so repeated calls converge
      (Sync.SyncConverges). */
  method DiffIsRound(cursor: Cursor, response: Response, ghost state: Known, ghost limit: nat)
    returns (res: Result<DiffResult>)
    requires response.Answer? && response.status == 200 && Decodable(response.body)
    requires HonestWire(state, View(cursor), limit, response.body.value)
    ensures res.Ok? && Round(state, limit, View(cursor), View(res.value.next))
  {
    var sent;
    sent, res := RestDiff(cursor, response);
    HonestRows(state, View(cursor), limit, response.body.value);
  }

  lemma HonestRows(state: Known, known: Known, limit: nat, w: DiffWire)
    requires HonestWire(state, known, limit, w)
    ensures Honest(state, known, limit, Headers(w.rows), w.idsToDelete)
  {
    var rows := Headers(w.rows);
    forall x | x in rows ensures x.id in Stale(state, known) && state[x.id] == x.version {
      var i :| 0 <= i < |rows| && rows[i] == x;
      assert w.rows[i] in w.rows;
    }
    if Stale(state, known) != {} {
      var id :| id in Stale(state, known);
      assert id in state && (id !in known || known[id] != state[id]);
    }
    assert Removed(w.idsToDelete) == Vanished(state, known);
  }

  predicate NotThere(error: Error) {
    match error
    case ApiError(status) => status == 404 || status == 405
    case SessionFailed(Some(status)) => status == 404 || status == 405
    case RequestFailed(Some(status)) => status == 404 || status == 405
    case _ => false
  }

  /** documentTypeService.Diff. errors.As also finds a 404 or 405 that a login handshake met, whether
      EnsureSession or the transport had started it, so such an error takes the fallback as well. Whichever
      path answers, the cursor is the merge of the caller's with the rows and deletions returned. */
  method DocumentTypesDiff(cursor: Cursor, response: Response, server: QueryServer)
    returns (res: Result<DiffResult>, ghost fellBack: bool)
    ensures fellBack <==>
              match response
              case Answer(status, _) => status == 404 || status == 405
              case SessionError(apiStatus) => apiStatus == Some(404) || apiStatus == Some(405)
              case TransportError(apiStatus) => apiStatus == Some(404) || apiStatus == Some(405)
    ensures res.Ok? ==>
              && res.value.next.EntityType == cursor.EntityType
              && res.value.next.Known != null && fresh(res.value.next.Known)
              && View(res.value.next) == Merge(View(cursor), res.value.rows, res.value.deletedIDs)
    ensures !fellBack ==>
              (res.Ok? <==> response.Answer? && response.status == 200 && Decodable(response.body))
    ensures !fellBack && res.Err? ==>
              res.error == match response
                           case SessionError(apiStatus) => SessionFailed(apiStatus)
                           case TransportError(apiStatus) => RequestFailed(apiStatus)
                           case Answer(status, _) => if status == 200 then Undecodable else ApiError(status)
    ensures !fellBack && res.Ok? ==>
              && res.value.rows == Headers(response.body.value.rows)
              && res.value.deletedIDs == response.body.value.idsToDelete
              && RowsSay(response.body.value.rows, res.value.rows)
              && CursorSays(View(cursor), response.body.value, View(res.value.next))
    ensures fellBack && res.Err? ==> res.error == QueryFailed
    ensures fellBack && res.Ok? ==>
              && res.value.rows == server.rows
              && NoDuplicates(res.value.deletedIDs)
              && Removed(res.value.deletedIDs) == View(cursor).Keys - Ids(server.rows)
  {
    var sent;
    sent, res := RestDiff(cursor, response);
    fellBack := false;
    if res.Ok? {
      return;
    }
    if NotThere(res.error) {
      fellBack := true;
      res := QueryFallbackDiff(cursor, server);
    }
  }

  /** One fallback round leaves the cursor of every caller at the server's state. */
  method FallbackSyncs(cursor: Cursor, server: QueryServer, ghost state: Known) returns (res: Result<DiffResult>)
    requires Represents(server.rows, state)
    ensures res.Ok? ==> View(res.value.next) == state
  {
    res := QueryFallbackDiff(cursor, server);
    if res.Ok? {
      assert Ids(server.rows) == state.Keys by {
        forall id | id in state ensures id in Ids(server.rows) {
          assert IdVersion(id, state[id]) in server.rows;
        }
      }
      SnapshotSyncsAtOnce(state, View(cursor), server.rows, res.value.deletedIDs);
    }
  }
}
