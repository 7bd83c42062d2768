/** fileee/query.go, fileee/service.go and fileee/documenttypes.go: the sync cursor, the diff request and its
    answer, paging, and the fallback that rebuilds a diff from a full query. */
module Sync {
  import opened Optional

  type Id = string

  datatype IdVersion = IdVersion(id: Id, version: int)

  type Known = map<Id, int>

  /** Go's order on strings. */
  predicate Less(a: Id, b: Id) {
    if b == [] then false
    else if a == [] then true
    else a[0] < b[0] || (a[0] == b[0] && Less(a[1..], b[1..]))
  }

  lemma {:induction false} LessTotal(a: Id, b: Id)
    ensures a == b || Less(a, b) || Less(b, a)
    ensures !(Less(a, b) && Less(b, a)) && !Less(a, a)
  {
    if a != [] && b != [] {
      LessTotal(a[1..], b[1..]);
      assert a == [a[0]] + a[1..] && b == [b[0]] + b[1..];
    }
    if a != [] && a != b { LessTotal(a[1..], a[1..]); }
    if a != [] && a == b { assert !Less(a[1..], a[1..]); }
  }

  /** The first difference decides, and a prefix comes first. */
  lemma {:induction false} LessMeaning(prefix: Id, a: Id, b: Id)
    ensures a != [] && b != [] && a[0] != b[0] ==> (Less(prefix + a, prefix + b) <==> a[0] < b[0])
    ensures a != [] ==> Less(prefix, prefix + a)
  {
    if prefix == [] {
      assert prefix + a == a && prefix + b == b;
    } else {
      LessMeaning(prefix[1..], a, b);
      assert (prefix + a)[1..] == prefix[1..] + a && (prefix + b)[1..] == prefix[1..] + b;
    }
  }

  lemma {:induction false} LessTransitive(a: Id, b: Id, c: Id)
    requires Less(a, b) && Less(b, c)
    ensures Less(a, c)
  {
    if a != [] && a[0] == b[0] == c[0] {
      LessTransitive(a[1..], b[1..], c[1..]);
    }
  }

  // ---------------------------------------------------------------- canonical localResults

  predicate Ascending(s: seq<IdVersion>) {
    forall i, j :: 0 <= i < j < |s| ==> Less(s[i].id, s[j].id)
  }

  predicate Represents(s: seq<IdVersion>, m: Known) {
    && (forall x :: x in s ==> x.id in m && m[x.id] == x.version)
    && (forall id :: id in m ==> IdVersion(id, m[id]) in s)
  }

  /** There is one ascending list of the entries of a map, so the request does not depend on the order in
      which Go iterates over it. */
  lemma {:induction false} CanonicalUnique(s: seq<IdVersion>, t: seq<IdVersion>, m: Known)
    requires Ascending(s) && Ascending(t) && Represents(s, m) && Represents(t, m)
    ensures s == t
  {
    EmptyTogether(s, m);
    EmptyTogether(t, m);
    if s != [] {
      var x, y := s[|s| - 1], t[|t| - 1];
      SameLast(s, t, m);
      DropLast(s, m);
      DropLast(t, m);
      CanonicalUnique(s[..|s| - 1], t[..|t| - 1], m - {x.id});
      assert s == s[..|s| - 1] + [x] && t == t[..|t| - 1] + [y];
    }
  }

  lemma EmptyTogether(s: seq<IdVersion>, m: Known)
    requires Represents(s, m)
    ensures s == [] <==> m == map[]
  {
    if s != [] { assert s[0] in s; }
    if m != map[] {
      var id :| id in m;
      assert IdVersion(id, m[id]) in s;
    }
  }

  lemma SameLast(s: seq<IdVersion>, t: seq<IdVersion>, m: Known)
    requires s != [] && t != []
    requires Ascending(s) && Ascending(t) && Represents(s, m) && Represents(t, m)
    ensures s[|s| - 1] == t[|t| - 1]
  {
    var x, y := s[|s| - 1], t[|t| - 1];
    assert x in s && y in t;
    LastIsGreatest(s, m, y.id);
    LastIsGreatest(t, m, x.id);
    LessTotal(x.id, y.id);
  }

  lemma LastIsGreatest(s: seq<IdVersion>, m: Known, id: Id)
    requires s != [] && Ascending(s) && Represents(s, m) && id in m
    ensures s[|s| - 1].id == id || Less(id, s[|s| - 1].id)
  {}

  lemma DropLast(s: seq<IdVersion>, m: Known)
    requires s != [] && Ascending(s) && Represents(s, m)
    ensures Ascending(s[..|s| - 1]) && Represents(s[..|s| - 1], m - {s[|s| - 1].id})
  {
    var n := |s| - 1;
    forall x | x in s[..n] ensures x.id != s[n].id && x in s {
      LessTotal(x.id, s[n].id);
    }
    forall id | id in m && id != s[n].id ensures IdVersion(id, m[id]) in s[..n] {
      var i :| 0 <= i < |s| && s[i] == IdVersion(id, m[id]);
    }
  }

  /** `next.Known[id] = version` for each row in turn. */
  function Assign(m: Known, rows: seq<IdVersion>): Known {
    if rows == [] then m
    else Assign(m, rows[..|rows| - 1])[rows[|rows| - 1].id := rows[|rows| - 1].version]
  }

  /** Reading the request back gives the cursor. */
  lemma {:induction false} RepresentsReadsBack(s: seq<IdVersion>, m: Known)
    requires Ascending(s) && Represents(s, m)
    ensures Assign(map[], s) == m
  {
    if s == [] {
      assert forall id :: id !in m;
    } else {
      DropLast(s, m);
      RepresentsReadsBack(s[..|s| - 1], m - {s[|s| - 1].id});
      assert s[|s| - 1] in s;
    }
  }

  /** Stands in for sort.Slice by id on rows with distinct ids. */
  method SortById(rows: seq<IdVersion>, ghost m: Known) returns (s: seq<IdVersion>)
    requires Represents(rows, m)
    ensures Ascending(s) && Represents(s, m)
  {
    s := [];
    ghost var done: Known := map[];
    for i := 0 to |rows|
      invariant Ascending(s) && Represents(s, done)
      invariant done.Keys <= m.Keys && forall id :: id in done ==> done[id] == m[id]
      invariant forall j :: 0 <= j < i ==> rows[j].id in done
    {
      assert rows[i] in rows;
      s := Insert(s, rows[i], done);
      done := done[rows[i].id := rows[i].version];
    }
    forall id | id in m ensures id in done {
      assert IdVersion(id, m[id]) in rows;
    }
    assert done == m;
  }

  method Insert(s: seq<IdVersion>, x: IdVersion, ghost m: Known) returns (t: seq<IdVersion>)
    requires Ascending(s) && Represents(s, m) && (x.id in m ==> m[x.id] == x.version)
    ensures Ascending(t) && Represents(t, m[x.id := x.version])
  {
    var k := 0;
    while k < |s| && Less(s[k].id, x.id)
      invariant 0 <= k <= |s| && forall j :: 0 <= j < k ==> Less(s[j].id, x.id)
    {
      k := k + 1;
    }
    if k < |s| && s[k].id == x.id {
      assert s[k] in s;
      return s;
    }
    InsertKeeps(s, k, x, m);
    t := s[..k] + [x] + s[k..];
  }

  lemma InsertKeeps(s: seq<IdVersion>, k: nat, x: IdVersion, m: Known)
    requires Ascending(s) && Represents(s, m) && k <= |s|
    requires forall j :: 0 <= j < k ==> Less(s[j].id, x.id)
    requires k < |s| ==> !Less(s[k].id, x.id) && s[k].id != x.id
    ensures Ascending(s[..k] + [x] + s[k..]) && Represents(s[..k] + [x] + s[k..], m[x.id := x.version])
  {
    var t := s[..k] + [x] + s[k..];
    InsertAscending(s, k, x);
    assert forall j :: 0 <= j < |s| ==> s[j].id != x.id by {
      forall j | 0 <= j < |s| ensures s[j].id != x.id { LessTotal(s[j].id, x.id); }
    }
    assert forall y :: y in t <==> y in s || y == x by {
      forall y | y in s ensures y in t {
        var j :| 0 <= j < |s| && s[j] == y;
        assert t[if j < k then j else j + 1] == y;
      }
      assert t[k] == x;
    }
  }

  lemma InsertAscending(s: seq<IdVersion>, k: nat, x: IdVersion)
    requires Ascending(s) && k <= |s|
    requires forall j :: 0 <= j < k ==> Less(s[j].id, x.id)
    requires k < |s| ==> !Less(s[k].id, x.id) && s[k].id != x.id
    ensures Ascending(s[..k] + [x] + s[k..])
    ensures forall j :: k <= j < |s| ==> Less(x.id, s[j].id)
  {
    if k < |s| { LessTotal(s[k].id, x.id); }
    forall j | k < j < |s| ensures Less(x.id, s[j].id) {
      LessTransitive(x.id, s[k].id, s[j].id);
    }
  }

  // ---------------------------------------------------------------- the merge

  function Ids(rows: seq<IdVersion>): set<Id> {
    set x | x in rows :: x.id
  }

  function Removed(ids: seq<Id>): set<Id> {
    set id | id in ids
  }

  function Merge(m: Known, rows: seq<IdVersion>, deleted: seq<Id>): Known {
    Assign(m, rows) - Removed(deleted)
  }

  /** The version of the last row for this id. */
  function LastVersion(rows: seq<IdVersion>, id: Id): (v: Option<int>)
    ensures v.Some? <==> id in Ids(rows)
    ensures v.Some? ==> IdVersion(id, v.value) in rows
  {
    if rows == [] then None
    else
      var n := |rows| - 1;
      assert Ids(rows) == Ids(rows[..n]) + {rows[n].id};
      if rows[n].id == id then Some(rows[n].version) else LastVersion(rows[..n], id)
  }

  /** The last row for an id decides, else the old entry. */
  lemma {:induction false} AssignMeaning(m: Known, rows: seq<IdVersion>, id: Id)
    ensures id in Assign(m, rows) <==> id in m || id in Ids(rows)
    ensures id in Ids(rows) ==> Assign(m, rows)[id] == LastVersion(rows, id).value
    ensures id in m && id !in Ids(rows) ==> Assign(m, rows)[id] == m[id]
  {
    if rows != [] {
      var n := |rows| - 1;
      AssignMeaning(m, rows[..n], id);
      assert Ids(rows) == Ids(rows[..n]) + {rows[n].id};
    }
  }

  /** A deletion wins over a row and over the old entry. */
  lemma MergeMeaning(m: Known, rows: seq<IdVersion>, deleted: seq<Id>, id: Id)
    ensures id in Merge(m, rows, deleted) <==> id !in deleted && (id in m || id in Ids(rows))
    ensures id in Merge(m, rows, deleted) ==>
              Merge(m, rows, deleted)[id] == if id in Ids(rows) then LastVersion(rows, id).value else m[id]
  {
    AssignMeaning(m, rows, id);
  }

  // ---------------------------------------------------------------- convergence

  function Stale(server: Known, known: Known): set<Id> {
    set id | id in server && (id !in known || known[id] != server[id])
  }

  function Vanished(server: Known, known: Known): set<Id> {
    known.Keys - server.Keys
  }

  /** An honest answer to the request that carries `known`: every vanished id, and rows of the server on
      which the request disagrees, at most `limit` of them and at least one if there are any. */
  predicate Honest(server: Known, known: Known, limit: nat, rows: seq<IdVersion>, deleted: seq<Id>) {
    && (forall x :: x in rows ==> x.id in Stale(server, known) && server[x.id] == x.version)
    && |rows| <= limit
    && (Stale(server, known) != {} ==> rows != [])
    && Removed(deleted) == Vanished(server, known)
  }

  /** One round removes the rows it lists from the disagreement, and nothing else is left to delete. */
  lemma RoundShrinks(server: Known, known: Known, limit: nat, rows: seq<IdVersion>, deleted: seq<Id>)
    requires Honest(server, known, limit, rows, deleted)
    ensures var next := Merge(known, rows, deleted);
            && Vanished(server, next) == {}
            && Stale(server, next) == Stale(server, known) - Ids(rows)
            && (Stale(server, known) != {} ==> |Stale(server, next)| < |Stale(server, known)|)
  {
    var next, stale := Merge(known, rows, deleted), Stale(server, known);
    forall id ensures id in next ==> id in server
      ensures id in Stale(server, next) <==> id in stale && id !in Ids(rows)
      ensures id in Ids(rows) ==> id in stale
    {
      MergeMeaning(known, rows, deleted, id);
      assert id in deleted <==> id in Removed(deleted);
    }
    if stale != {} {
      assert rows[0] in rows;
      Smaller(stale - Ids(rows), stale, rows[0].id);
    }
  }

  lemma Smaller(a: set<Id>, b: set<Id>, x: Id)
    requires a <= b && x in b && x !in a
    ensures |a| < |b|
  {
    SubsetSize(a, b - {x});
  }

  lemma {:induction false} SubsetSize(a: set<Id>, b: set<Id>)
    requires a <= b
    ensures |a| <= |b|
  {
    if a != {} {
      var x :| x in a;
      SubsetSize(a - {x}, b - {x});
    }
  }

  /** The caller sees when it is done: an honest answer is empty exactly when the cursor is the server's. */
  lemma EmptyAnswerIffSynced(server: Known, known: Known, limit: nat, rows: seq<IdVersion>, deleted: seq<Id>)
    requires Honest(server, known, limit, rows, deleted)
    ensures rows == [] && deleted == [] <==> known == server
  {
    if rows == [] && deleted == [] {
      assert forall id :: id in known ==> id !in Vanished(server, known);
      assert forall id :: id in server ==> id !in Stale(server, known);
    }
    FirstIn(rows);
    FirstIn(deleted);
    assert forall id :: id in deleted ==> id in Removed(deleted);
  }

  lemma FirstIn<T>(s: seq<T>)
    ensures s != [] ==> s[0] in s
  {}

  lemma SyncedIff(server: Known, known: Known)
    ensures known == server <==> Stale(server, known) == {} && Vanished(server, known) == {}
  {
    if Stale(server, known) == {} && Vanished(server, known) == {} {
      assert forall id :: id in server ==> id !in Stale(server, known);
      assert forall id :: id in known ==> id !in Vanished(server, known);
    }
  }

  ghost predicate Round(server: Known, limit: nat, before: Known, after: Known) {
    exists rows, deleted :: Honest(server, before, limit, rows, deleted) && after == Merge(before, rows, deleted)
  }

  /** The cursors of successive diffs against an unchanged server. */
  ghost predicate SyncRun(server: Known, limit: nat, cursors: seq<Known>) {
    cursors != [] && forall k :: 0 <= k < |cursors| - 1 ==> Round(server, limit, cursors[k], cursors[k + 1])
  }

  lemma {:induction false} SyncProgress(server: Known, limit: nat, cursors: seq<Known>)
    requires SyncRun(server, limit, cursors)
    ensures var n, last := |cursors| - 1, cursors[|cursors| - 1];
            && (n > 0 ==> Vanished(server, last) == {})
            && |Stale(server, last)| <= (if n >= |Stale(server, cursors[0])| then 0
                                         else |Stale(server, cursors[0])| - n)
  {
    var n := |cursors| - 1;
    if n > 0 {
      assert SyncRun(server, limit, cursors[..n]) by {
        forall k | 0 <= k < n - 1 ensures Round(server, limit, cursors[..n][k], cursors[..n][k + 1]) {
          assert Round(server, limit, cursors[k], cursors[k + 1]);
        }
      }
      SyncProgress(server, limit, cursors[..n]);
      assert Round(server, limit, cursors[n - 1], cursors[n]);
      var rows, deleted :| Honest(server, cursors[n - 1], limit, rows, deleted)
                           && cursors[n] == Merge(cursors[n - 1], rows, deleted);
      RoundShrinks(server, cursors[n - 1], limit, rows, deleted);
    }
  }

  /** After as many rounds as ids were stale at first, and at least one, the cursor is the server's map. */
  lemma SyncConverges(server: Known, limit: nat, cursors: seq<Known>)
    requires SyncRun(server, limit, cursors)
    requires |cursors| - 1 >= 1 && |cursors| - 1 >= |Stale(server, cursors[0])|
    ensures cursors[|cursors| - 1] == server
  {
    SyncProgress(server, limit, cursors);
    SyncedIff(server, cursors[|cursors| - 1]);
  }

  /** A server that answers with everything it has reaches the same cursor in one round. */
  lemma SnapshotSyncsAtOnce(server: Known, known: Known, rows: seq<IdVersion>, deleted: seq<Id>)
    requires (forall x :: x in rows ==> x.id in server && server[x.id] == x.version) && Ids(rows) == server.Keys
    requires Removed(deleted) == Vanished(server, known)
    ensures Merge(known, rows, deleted) == server
  {
    forall id
      ensures id in Merge(known, rows, deleted) <==> id in server
      ensures id in server ==> Merge(known, rows, deleted)[id] == server[id]
    {
      MergeMeaning(known, rows, deleted, id);
      assert id in deleted <==> id in Removed(deleted);
    }
  }

  /** The fallback starts from an empty cursor and computes the deletions itself: the result is the merge a
      direct answer with these rows and deletions would give. */
  lemma FallbackRefinesDirect(known: Known, rows: seq<IdVersion>, deleted: seq<Id>)
    requires Removed(deleted) == known.Keys - Ids(rows)
    ensures Assign(map[], rows) == Merge(known, rows, deleted)
  {
    forall id
      ensures id in Merge(known, rows, deleted) <==> id in Assign(map[], rows)
      ensures id in Assign(map[], rows) ==> Merge(known, rows, deleted)[id] == Assign(map[], rows)[id]
    {
      MergeMeaning(known, rows, deleted, id);
      AssignMeaning(map[], rows, id);
      assert id in deleted <==> id in Removed(deleted);
    }
  }
}
