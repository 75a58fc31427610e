/** The table descriptions (components/nxpod-db/src/tables.ts). */
module Tables {
  import opened Graphs
  import opened Options
  import opened TopologicalSorting

  datatype TableDescription = TableDescription(name: string, dependencies: seq<string>, deletionColumn: Option<string>)

  /** The first table of that name. */
  function Find(tables: seq<TableDescription>, name: string): Option<TableDescription> {
    if tables == [] then None
    else if tables[0].name == name then Some(tables[0])
    else Find(tables[1..], name)
  }

  function FindAll(tables: seq<TableDescription>, names: seq<string>): seq<TableDescription> {
    if names == [] then []
    else
      (match Find(tables, names[0])
       case Some(t) => [t]
       case None => []) + FindAll(tables, names[1..])
  }

  /** The tables a table depends on. */
  function DependencyTables(tables: seq<TableDescription>): TableDescription -> seq<TableDescription> {
    (t: TableDescription) => FindAll(tables, t.dependencies)
  }

  predicate HasTable(tables: seq<TableDescription>, name: string) {
    exists t :: t in tables && t.name == name
  }

  ghost predicate UniqueNames(tables: seq<TableDescription>) {
    forall a, b | a in tables && b in tables && a.name == b.name :: a == b
  }

  /** Names are unique and every named dependency exists. */
  ghost predicate WellFormed(tables: seq<TableDescription>) {
    && UniqueNames(tables)
    && (forall t, n | t in tables && n in t.dependencies :: HasTable(tables, n))
  }

  lemma {:induction false} FindFinds(tables: seq<TableDescription>, name: string)
    ensures match Find(tables, name)
            case Some(t) => t in tables && t.name == name
            case None => !HasTable(tables, name)
  {
    if tables != [] {
      FindFinds(tables[1..], name);
    }
  }

  lemma {:induction false} FindAllFinds(tables: seq<TableDescription>, names: seq<string>, d: TableDescription)
    requires UniqueNames(tables)
    ensures d in FindAll(tables, names) <==> d in tables && d.name in names
  {
    if names != [] {
      FindFinds(tables, names[0]);
      FindAllFinds(tables, names[1..], d);
    }
  }

  lemma DependencyGraphOk(tables: seq<TableDescription>)
    requires UniqueNames(tables)
    ensures Closed(tables, DependencyTables(tables))
    ensures forall t, d :: d in DependencyTables(tables)(t) <==> d in tables && d.name in t.dependencies
  {
    forall t, d ensures d in DependencyTables(tables)(t) <==> d in tables && d.name in t.dependencies {
      FindAllFinds(tables, t.dependencies, d);
    }
  }

  /** The tables, each one after every table it depends on. */
  method GetSortedTables(tables: seq<TableDescription>) returns (r: SortResult<TableDescription>)
    requires WellFormed(tables)
    ensures r.CircleDetected? <==> Cyclic(tables, DependencyTables(tables))
    ensures r.Sorted? ==>
      && NoDuplicates(r.order)
      && (forall t :: t in r.order <==> t in tables)
      && (forall i, j | 0 <= i < |r.order| && 0 <= j < |r.order| ::
            r.order[j].name in r.order[i].dependencies ==> j < i)
  {
    DependencyGraphOk(tables);
    var sorter := new TopologicalSort<string, TableDescription>();
    r := sorter.Sort(tables, (t: TableDescription) => t.name, DependencyTables(tables));
    if r.Sorted? {
      forall i, j | 0 <= i < |r.order| && 0 <= j < |r.order| && r.order[j].name in r.order[i].dependencies
        ensures j < i
      {
        assert r.order[j] in r.order[..i];
      }
    }
  }

  const USER := "d_b_user"
  const WORKSPACE := "d_b_workspace"
  const INSTANCE := "d_b_workspace_instance"
  const SNAPSHOT := "d_b_snapshot"
  const DELETED := Some("deleted")

  /** The shipped descriptions. */
  const NXPOD_TABLES := [
    TableDescription("d_b_identity", [USER], DELETED),
    TableDescription(USER, [], None),
    TableDescription("d_b_user_message_view_entry", [USER], None),
    TableDescription("d_b_user_storage_resource", [USER], DELETED),
    TableDescription(WORKSPACE, [USER], DELETED),
    TableDescription(INSTANCE, [WORKSPACE], DELETED),
    TableDescription("d_b_workspace_instance_user", [INSTANCE, USER], None),
    TableDescription("d_b_workspace_report_entry", [WORKSPACE], None),
    TableDescription(SNAPSHOT, [WORKSPACE], None),
    TableDescription("d_b_prebuilt_workspace", [], None),
    TableDescription("d_b_app_installation", [], None),
    TableDescription("d_b_token_entry", [], DELETED),
    TableDescription("d_b_theia_plugin", [], None),
    TableDescription("d_b_user_env_var", [], None),
    TableDescription("d_b_nxpod_token", [USER], DELETED),
    TableDescription("d_b_one_time_secret", [], DELETED),
    TableDescription("d_b_auth_provider_entry", [], None)
  ]

  /** Where a shipped table stands in the list. Length and fifth letter tell the shipped names apart; only the proof
      that their graph is well-formed uses this. */
  function Position(name: string): int {
    if |name| < 5 then -1
    else
      match (|name|, name[4])
      case (12, 'i') => 0
      case (8, _) => 1
      case (27, 'u') => 2
      case (25, _) => 3
      case (13, _) => 4
      case (22, 'w') => 5
      case (27, 'w') => 6
      case (26, _) => 7
      case (12, 's') => 8
      case (22, 'p') => 9
      case (20, _) => 10
      case (15, 't') => 11
      case (16, 't') => 12
      case (16, 'u') => 13
      case (15, 'n') => 14
      case (19, _) => 15
      case (23, _) => 16
      case _ => -1
  }

  /** Depth of a shipped table: users, then workspaces, then instances and what hangs off workspaces. */
  function Level(name: string): int {
    match Position(name)
    case 1 => 0
    case 4 => 1
    case 5 => 2
    case _ => 3
  }

  lemma ShippedPosition(i: nat)
    requires i < |NXPOD_TABLES|
    ensures Position(NXPOD_TABLES[i].name) == i
  {
    var t := NXPOD_TABLES[i];
    if i < 6 {
      assert i == 0 || i == 1 || i == 2 || i == 3 || i == 4 || i == 5;
    } else if i < 12 {
      assert i == 6 || i == 7 || i == 8 || i == 9 || i == 10 || i == 11;
    } else {
      assert i == 12 || i == 13 || i == 14 || i == 15 || i == 16;
    }
  }

  lemma ShippedDependency(i: nat, n: string)
    requires i < |NXPOD_TABLES| && n in NXPOD_TABLES[i].dependencies
    ensures 0 <= Position(n) < |NXPOD_TABLES| && NXPOD_TABLES[Position(n)].name == n
    ensures Level(n) < Level(NXPOD_TABLES[i].name)
  {
    ShippedPosition(i);
    assert n == USER || n == WORKSPACE || n == INSTANCE;
  }

  lemma LevelledTablesSort(ts: seq<TableDescription>)
    requires forall i | 0 <= i < |ts| :: Position(ts[i].name) == i
    requires forall i, n | 0 <= i < |ts| && n in ts[i].dependencies ::
               0 <= Position(n) < |ts| && ts[Position(n)].name == n && Level(n) < Level(ts[i].name)
    ensures WellFormed(ts)
    ensures !Cyclic(ts, DependencyTables(ts))
  {
    assert UniqueNames(ts);
    forall t, n | t in ts && n in t.dependencies ensures HasTable(ts, n) {
      assert ts[Position(n)] in ts;
    }
    DependencyGraphOk(ts);
    RankedIsAcyclic(DependencyTables(ts), ts, (t: TableDescription) => Level(t.name));
  }

  /** The shipped list can always be sorted. */
  lemma ShippedTablesSort()
    ensures WellFormed(NXPOD_TABLES)
    ensures !Cyclic(NXPOD_TABLES, DependencyTables(NXPOD_TABLES))
  {
    forall i | 0 <= i < |NXPOD_TABLES| ensures Position(NXPOD_TABLES[i].name) == i {
      ShippedPosition(i);
    }
    forall i, n | 0 <= i < |NXPOD_TABLES| && n in NXPOD_TABLES[i].dependencies
      ensures 0 <= Position(n) < |NXPOD_TABLES| && NXPOD_TABLES[Position(n)].name == n
      ensures Level(n) < Level(NXPOD_TABLES[i].name)
    {
      ShippedDependency(i, n);
    }
    LevelledTablesSort(NXPOD_TABLES);
  }
}

/** The deletion pass (components/nxpod-db/src/periodic-deleter.ts). A database maps a table name to
    its rows by primary key; a row knows whether its deletion column is set and which rows it refers to. */
module PeriodicDeletion {
  import opened Graphs
  import opened Options
  import opened Tables
  import opened TopologicalSorting

  type Key = seq<string>
  datatype RowId = RowId(table: string, key: Key)
  datatype Row = Row(deletionMark: bool, references: set<RowId>)
  type Database = map<string, map<Key, Row>>

  predicate HasRow(db: Database, id: RowId) {
    id.table in db && id.key in db[id.table]
  }

  predicate RefersTo(db: Database, id: RowId, target: RowId) {
    HasRow(db, id) && target in db[id.table][id.key].references
  }

  /** What `DELETE FROM table WHERE key` does. */
  function DeleteRow(db: Database, id: RowId): Database {
    if id.table in db then db[id.table := db[id.table] - {id.key}] else db
  }

  /** `db` without the rows of `removed`. */
  ghost function Without(db: Database, removed: set<RowId>): Database {
    map t | t in db :: map k | k in db[t] && RowId(t, k) !in removed :: db[t][k]
  }

  /** The database after a list of DELETE statements, of which those in `failing` raise an error. */
  ghost function AfterDeletions(db: Database, deletions: seq<RowId>, failing: set<RowId>): Database {
    if deletions == [] then db
    else
      var before := AfterDeletions(db, deletions[..|deletions| - 1], failing);
      var last := deletions[|deletions| - 1];
      if last in failing then before else DeleteRow(before, last)
  }

  /** The rows a pass collects: those marked in a table that has a deletion column. */
  ghost predicate Marked(tables: seq<TableDescription>, db: Database, id: RowId) {
    && HasRow(db, id) && db[id.table][id.key].deletionMark
    && exists t :: t in tables && t.name == id.table && t.deletionColumn.Some?
  }

  /** The DELETE statements of one pass: every marked row once, and never a row of a table before
      a row of a table depending on it. */
  ghost predicate IsDeletionPass(tables: seq<TableDescription>, db: Database, deletions: seq<RowId>) {
    && NoDuplicates(deletions)
    && (forall id :: id in deletions <==> Marked(tables, db, id))
    && (forall i, j, t | 0 <= i < j < |deletions| && t in tables && t.name == deletions[j].table ::
          deletions[i].table !in t.dependencies)
  }

  /** Rows of the described tables refer to rows of declared dependencies only. */
  ghost predicate DeclaredReferences(tables: seq<TableDescription>, db: Database) {
    forall t, id: RowId, target | t in tables && id.table == t.name && RefersTo(db, id, target) ::
      target.table in t.dependencies
  }

  /** Whatever refers to a row of `removed` is in `removed` too. */
  ghost predicate ClosedUnderReferrers(db: Database, removed: iset<RowId>) {
    forall id, target | RefersTo(db, id, target) && HasRow(db, target) && target in removed :: id in removed
  }

  /** No row still in `now` refers to a row that `before` had and `now` has lost. */
  ghost predicate ReferencesIntact(before: Database, now: Database) {
    forall id, target | RefersTo(now, id, target) && HasRow(before, target) :: HasRow(now, target)
  }

  // ---- What a list of deletions leaves behind ----

  ghost function Deleted(deletions: seq<RowId>, failing: set<RowId>): set<RowId> {
    (set id | id in deletions) - failing
  }

  lemma {:induction false} DeletionsRemove(db: Database, deletions: seq<RowId>, failing: set<RowId>)
    ensures AfterDeletions(db, deletions, failing) == Without(db, Deleted(deletions, failing))
  {
    hide Without, DeleteRow;
    if deletions == [] {
      assert Deleted(deletions, failing) == {};
      WithoutNothing(db);
    } else {
      var front, last := deletions[..|deletions| - 1], deletions[|deletions| - 1];
      DeletionsRemove(db, front, failing);
      assert deletions == front + [last];
      if last in failing {
        assert Deleted(deletions, failing) == Deleted(front, failing);
      } else {
        assert Deleted(deletions, failing) == Deleted(front, failing) + {last};
        WithoutOneMore(db, Deleted(front, failing), last);
      }
    }
  }

  lemma WithoutNothing(db: Database)
    ensures Without(db, {}) == db
  {
    forall t | t in db ensures db[t] == Without(db, {})[t] {}
  }

  lemma WithoutOneMore(db: Database, removed: set<RowId>, id: RowId)
    ensures DeleteRow(Without(db, removed), id) == Without(db, removed + {id})
  {
    var after := DeleteRow(Without(db, removed), id);
    forall t | t in db ensures after[t] == Without(db, removed + {id})[t] {}
  }

  lemma IntactExactly(db: Database, removed: set<RowId>)
    ensures ReferencesIntact(db, Without(db, removed)) <==> ClosedUnderReferrers(db, iset id | id in removed)
  {
    var now := Without(db, removed);
    if ReferencesIntact(db, now) {
      forall id, target | RefersTo(db, id, target) && HasRow(db, target) && target in removed ensures id in removed {
        assert id in removed || RefersTo(now, id, target);
      }
    }
    if ClosedUnderReferrers(db, iset id | id in removed) {
      forall id, target | RefersTo(now, id, target) && HasRow(db, target) ensures HasRow(now, target) {
        assert RefersTo(db, id, target);
      }
    }
  }

  // ---- Referential integrity of a pass ----

  /** With no failing query, a pass keeps every reference intact after each of its statements if
      and only if the marked rows are closed under referrers. */
  lemma PassKeepsReferences(tables: seq<TableDescription>, db: Database, deletions: seq<RowId>)
    requires DeclaredReferences(tables, db) && IsDeletionPass(tables, db, deletions)
    ensures (forall k | 0 <= k <= |deletions| :: ReferencesIntact(db, AfterDeletions(db, deletions[..k], {})))
       <==> ClosedUnderReferrers(db, iset id | Marked(tables, db, id))
  {
    PassWithFailures(tables, db, deletions, {});
    assert (iset id | Marked(tables, db, id) && id !in {}) == iset id | Marked(tables, db, id);
  }

  /** Failing statements are skipped: a pass keeps references intact after each statement if and only if
      whoever refers to a row that does get deleted is marked and gets deleted as well. */
  lemma PassWithFailures(tables: seq<TableDescription>, db: Database, deletions: seq<RowId>, failing: set<RowId>)
    requires DeclaredReferences(tables, db) && IsDeletionPass(tables, db, deletions)
    ensures (forall k | 0 <= k <= |deletions| :: ReferencesIntact(db, AfterDeletions(db, deletions[..k], failing)))
       <==> ClosedUnderReferrers(db, iset id | Marked(tables, db, id) && id !in failing)
  {
    var gone := iset id | Marked(tables, db, id) && id !in failing;
    if ClosedUnderReferrers(db, gone) {
      forall k | 0 <= k <= |deletions| ensures ReferencesIntact(db, AfterDeletions(db, deletions[..k], failing)) {
        DeletionsRemove(db, deletions[..k], failing);
        var removed := Deleted(deletions[..k], failing);
        forall id, target | RefersTo(db, id, target) && HasRow(db, target) && target in removed ensures id in removed {
          ReferrerGoesFirst(tables, db, deletions, k, id, target);
        }
        IntactExactly(db, removed);
      }
    }
    if forall k | 0 <= k <= |deletions| :: ReferencesIntact(db, AfterDeletions(db, deletions[..k], failing)) {
      assert deletions[..|deletions|] == deletions;
      DeletionsRemove(db, deletions, failing);
      IntactExactly(db, Deleted(deletions, failing));
      assert (iset id | id in Deleted(deletions, failing)) == gone;
    }
  }

  lemma ReferrerGoesFirst(tables: seq<TableDescription>, db: Database, deletions: seq<RowId>, k: nat,
                          id: RowId, target: RowId)
    requires DeclaredReferences(tables, db) && IsDeletionPass(tables, db, deletions) && k <= |deletions|
    requires RefersTo(db, id, target) && target in deletions[..k] && Marked(tables, db, id)
    ensures id in deletions[..k]
  {
    var i :| 0 <= i < k && deletions[i] == target;
    var j :| 0 <= j < |deletions| && deletions[j] == id;
    var t :| t in tables && t.name == id.table && t.deletionColumn.Some?;
    assert target.table in t.dependencies;
    if i < j {
      assert false;
    } else {
      assert deletions[..k][j] == id;
    }
  }

  /** With no failing query, a pass ends in the initial database minus exactly the marked rows. */
  lemma PassRemovesMarkedRows(tables: seq<TableDescription>, db: Database, deletions: seq<RowId>)
    requires IsDeletionPass(tables, db, deletions)
    ensures var end := AfterDeletions(db, deletions, {});
            && end.Keys == db.Keys
            && forall id: RowId :: HasRow(end, id) <==>
                 && HasRow(db, id)
                 && !(db[id.table][id.key].deletionMark
                      && exists t :: t in tables && t.name == id.table && t.deletionColumn.Some?)
    ensures var end := AfterDeletions(db, deletions, {});
            forall id | HasRow(end, id) :: end[id.table][id.key] == db[id.table][id.key]
  {
    DeletionsRemove(db, deletions, {});
  }

  /** The shipped tables let the closure fail: snapshots have no deletion column. There is a database on which
      a pass exists, and every pass leaves the snapshot of a deleted workspace with a dangling reference. */
  lemma SnapshotLeftDangling() returns (db: Database, pass: seq<RowId>)
    ensures DeclaredReferences(NXPOD_TABLES, db)
    ensures IsDeletionPass(NXPOD_TABLES, db, pass)
    ensures forall d :: IsDeletionPass(NXPOD_TABLES, db, d) ==> !ReferencesIntact(db, AfterDeletions(db, d, {}))
  {
    hide IsDeletionPass, ReferencesIntact, AfterDeletions, DeclaredReferences;
    forall i | 0 <= i < |NXPOD_TABLES| ensures Position(NXPOD_TABLES[i].name) == i {
      ShippedPosition(i);
    }
    db, pass := ReferrerLeftDangling(NXPOD_TABLES, NXPOD_TABLES[4], NXPOD_TABLES[8]);
  }

  /** A table with a deletion column that a table without one refers to always allows that. */
  lemma ReferrerLeftDangling(ts: seq<TableDescription>, target: TableDescription, referrer: TableDescription)
    returns (db: Database, pass: seq<RowId>)
    requires forall i | 0 <= i < |ts| :: Position(ts[i].name) == i
    requires target in ts && referrer in ts && target.name != referrer.name && target.name in referrer.dependencies
    requires target.deletionColumn.Some? && referrer.deletionColumn.None? && target.name !in target.dependencies
    ensures DeclaredReferences(ts, db)
    ensures IsDeletionPass(ts, db, pass)
    ensures forall d :: IsDeletionPass(ts, db, d) ==> !ReferencesIntact(db, AfterDeletions(db, d, {}))
  {
    var marked, left := RowId(target.name, ["1"]), RowId(referrer.name, ["2"]);
    db := map[target.name := map[["1"] := Row(true, {})], referrer.name := map[["2"] := Row(false, {marked})]];
    pass := [marked];
    assert Marked(ts, db, marked) && RefersTo(db, left, marked);
    forall d | IsDeletionPass(ts, db, d) ensures !ReferencesIntact(db, AfterDeletions(db, d, {})) {
      assert marked in d && left !in d;
      DeletionsRemove(db, d, {});
      IntactExactly(db, Deleted(d, {}));
    }
  }

  // ---- The pass itself ----

  function Reversed<T>(s: seq<T>): (r: seq<T>)
    ensures |r| == |s| && forall i | 0 <= i < |s| :: r[i] == s[|s| - 1 - i]
  {
    seq(|s|, i requires 0 <= i < |s| => s[|s| - 1 - i])
  }

  lemma ReversedMembers<T>(s: seq<T>, x: T)
    ensures x in Reversed(s) <==> x in s
  {
    if x in s {
      var i :| 0 <= i < |s| && s[i] == x;
      assert Reversed(s)[|s| - 1 - i] == x;
    }
  }

  datatype SyncResult = Done | SortFailed | QueryFailed

  class PeriodicDbDeleter {
    const tables: seq<TableDescription>
    var db: Database

    constructor (tables: seq<TableDescription>, db: Database)
      ensures this.tables == tables && this.db == db
    {
      this.tables, this.db := tables, db;
    }

    /** One pass. `failingDeletes` are the statements that raise an error, `failingSelects` the
        tables whose query does. `issued` lists the DELETE statements in the order they were sent. */
    method DoSync(failingSelects: set<string>, failingDeletes: set<RowId>) returns (r: SyncResult, issued: seq<RowId>)
      requires WellFormed(tables)
      requires forall t | t in tables :: t.name in db
      modifies this`db
      ensures r.SortFailed? <==> Cyclic(tables, DependencyTables(tables))
      ensures r.QueryFailed? <==>
        !r.SortFailed? && exists t :: t in tables && t.deletionColumn.Some? && t.name in failingSelects
      ensures r.Done? ==> IsDeletionPass(tables, old(db), issued)
      ensures !r.Done? ==> issued == []
      ensures db == AfterDeletions(old(db), issued, failingDeletes)
    {
      hide IsPartialPass, IsCollection, IsDeletionPass;
      issued := [];
      var sorting := GetSortedTables(tables);
      if sorting.CircleDetected? {
        return SortFailed, [];
      }
      var ok, toBeDeleted := CollectAll(sorting.order, failingSelects);
      if !ok {
        return QueryFailed, [];
      }
      StartPass(tables, db, sorting.order, toBeDeleted);
      issued := DeleteAll(Reversed(toBeDeleted), Reversed(sorting.order), failingDeletes);
      r := Done;
    }

    /** The collections of all tables; the first failing query ends it. */
    method CollectAll(sorted: seq<TableDescription>, failingSelects: set<string>)
      returns (ok: bool, toBeDeleted: seq<seq<RowId>>)
      requires forall t | t in sorted :: t.name in db
      ensures ok <==> forall t | t in sorted && t.deletionColumn.Some? :: t.name !in failingSelects
      ensures ok ==> |toBeDeleted| == |sorted|
      ensures ok ==> forall j | 0 <= j < |sorted| :: IsCollection(sorted[j], db, toBeDeleted[j])
    {
      hide IsCollection;
      toBeDeleted := [];
      for i := 0 to |sorted|
        invariant |toBeDeleted| == i
        invariant forall j | 0 <= j < i :: IsCollection(sorted[j], db, toBeDeleted[j])
        invariant forall j | 0 <= j < i :: sorted[j].deletionColumn.Some? ==> sorted[j].name !in failingSelects
      {
        var deletions;
        ok, deletions := CollectRowsToBeDeleted(sorted[i], failingSelects);
        if !ok {
          assert sorted[i] in sorted;
          return;
        }
        toBeDeleted := toBeDeleted + [deletions];
      }
      ok := true;
    }

    /** Issues the statements of the collections, table by table. */
    method DeleteAll(toBeDeleted: seq<seq<RowId>>, ghost order: seq<TableDescription>, failingDeletes: set<RowId>)
      returns (issued: seq<RowId>)
      requires |toBeDeleted| == |order| && IsPartialPass(tables, db, order, toBeDeleted, 0, 0, [])
      modifies this`db
      ensures IsDeletionPass(tables, old(db), issued)
      ensures db == AfterDeletions(old(db), issued, failingDeletes)
    {
      hide IsPartialPass, IsDeletionPass, DeleteRow;
      issued := [];
      for i := 0 to |toBeDeleted|
        invariant IsPartialPass(tables, old(db), order, toBeDeleted, i, 0, issued)
        invariant db == AfterDeletions(old(db), issued, failingDeletes)
      {
        for j := 0 to |toBeDeleted[i]|
          invariant IsPartialPass(tables, old(db), order, toBeDeleted, i, j, issued)
          invariant db == AfterDeletions(old(db), issued, failingDeletes)
        {
          ExtendPass(tables, old(db), order, toBeDeleted, i, j, issued);
          ghost var before := issued;
          issued := issued + [toBeDeleted[i][j]];
          assert issued[..|issued| - 1] == before;
          if toBeDeleted[i][j] !in failingDeletes {
            db := DeleteRow(db, toBeDeleted[i][j]);
          }
        }
        NextCollection(tables, old(db), order, toBeDeleted, i, issued);
      }
      FinishPass(tables, old(db), order, toBeDeleted, issued);
    }

    /** The DELETE statements for the marked rows of one table, in some order. */
    method CollectRowsToBeDeleted(table: TableDescription, failingSelects: set<string>)
      returns (ok: bool, deletions: seq<RowId>)
      requires table.name in db
      ensures ok <==> !(table.deletionColumn.Some? && table.name in failingSelects)
      ensures ok ==> IsCollection(table, db, deletions)
    {
      deletions := [];
      if table.deletionColumn.None? {
        return true, [];
      }
      if table.name in failingSelects {
        return false, [];
      }
      var rows := set k | k in db[table.name] && db[table.name][k].deletionMark;
      var rest := rows;
      while rest != {}
        invariant rest <= rows
        invariant NoDuplicates(deletions)
        invariant forall id :: id in deletions <==> id.table == table.name && id.key in rows - rest
      {
        var key :| key in rest;
        deletions := deletions + [RowId(table.name, key)];
        rest := rest - {key};
      }
      ok := true;
    }
  }

  ghost predicate IsCollection(table: TableDescription, db: Database, deletions: seq<RowId>) {
    && NoDuplicates(deletions)
    && forall id :: id in deletions <==>
         table.deletionColumn.Some? && id.table == table.name && HasRow(db, id) && db[id.table][id.key].deletionMark
  }

  /** `issued` holds the first `i` collections of `lists` and the first `j` rows of the next one. */
  ghost predicate IsPartialPass(tables: seq<TableDescription>, db: Database, order: seq<TableDescription>,
                                lists: seq<seq<RowId>>, i: nat, j: nat, issued: seq<RowId>)
  {
    && |lists| == |order| && i <= |order| && (j > 0 ==> i < |order| && j <= |lists[i]|)
    && (forall t :: t in order <==> t in tables)
    && UniqueNames(tables) && NoDuplicates(order)
    && (forall a, b | 0 <= a < |order| && 0 <= b < |order| :: order[b].name in order[a].dependencies ==> a < b)
    && (forall a | 0 <= a < |order| :: IsCollection(order[a], db, lists[a]))
    && NoDuplicates(issued)
    && (forall id | id in issued :: Marked(tables, db, id))
    && (forall id | id in issued ::
          exists a :: 0 <= a <= i && a < |order| && id in lists[a] && (a == i ==> id in lists[i][..j]))
    && (forall a, id | 0 <= a < i && id in lists[a] :: id in issued)
    && (j > 0 ==> forall id | id in lists[i][..j] :: id in issued)
    && (forall x, y, t | 0 <= x < y < |issued| && t in tables && t.name == issued[y].table ::
          issued[x].table !in t.dependencies)
  }

  lemma ExtendPass(tables: seq<TableDescription>, db: Database, order: seq<TableDescription>,
                   lists: seq<seq<RowId>>, i: nat, j: nat, issued: seq<RowId>)
    requires IsPartialPass(tables, db, order, lists, i, j, issued)
    requires i < |lists| && j < |lists[i]|
    ensures IsPartialPass(tables, db, order, lists, i, j + 1, issued + [lists[i][j]])
  {
    var id := lists[i][j];
    assert id in lists[i] && Marked(tables, db, id);
    assert lists[i][..j + 1] == lists[i][..j] + [id];
    assert id !in lists[i][..j];
    forall a | 0 <= a <= i && id in lists[a] ensures a == i {
      assert order[a].name == order[i].name && order[a] in tables && order[i] in tables;
    }
    assert id !in issued;
    var longer := issued + [id];
    forall x, y, t | 0 <= x < y < |longer| && t in tables && t.name == longer[y].table
      ensures longer[x].table !in t.dependencies
    {
      if y == |issued| {
        assert issued[x] in issued;
        var a :| 0 <= a <= i && a < |order| && issued[x] in lists[a] && (a == i ==> issued[x] in lists[i][..j]);
        assert t == order[i] by { assert order[i] in tables; }
        assert order[a].name == issued[x].table;
      }
    }
  }

  lemma StartPass(tables: seq<TableDescription>, db: Database, sorted: seq<TableDescription>, lists: seq<seq<RowId>>)
    requires UniqueNames(tables) && NoDuplicates(sorted) && |lists| == |sorted|
    requires forall t :: t in sorted <==> t in tables
    requires forall i, j | 0 <= i < |sorted| && 0 <= j < |sorted| :: sorted[j].name in sorted[i].dependencies ==> j < i
    requires forall j | 0 <= j < |sorted| :: IsCollection(sorted[j], db, lists[j])
    ensures IsPartialPass(tables, db, Reversed(sorted), Reversed(lists), 0, 0, [])
  {
    forall t ensures t in Reversed(sorted) <==> t in tables {
      ReversedMembers(sorted, t);
    }
  }

  lemma NextCollection(tables: seq<TableDescription>, db: Database, order: seq<TableDescription>,
                       lists: seq<seq<RowId>>, i: nat, issued: seq<RowId>)
    requires i < |lists|
    requires IsPartialPass(tables, db, order, lists, i, |lists[i]|, issued)
    ensures IsPartialPass(tables, db, order, lists, i + 1, 0, issued)
  {
    assert lists[i][..|lists[i]|] == lists[i];
    forall id | id in issued
      ensures exists a :: 0 <= a <= i + 1 && a < |order| && id in lists[a] && (a == i + 1 ==> id in lists[a][..0])
    {
      var a :| 0 <= a <= i && a < |order| && id in lists[a];
      assert a != i + 1;
    }
  }

  lemma FinishPass(tables: seq<TableDescription>, db: Database, order: seq<TableDescription>,
                   lists: seq<seq<RowId>>, issued: seq<RowId>)
    requires IsPartialPass(tables, db, order, lists, |lists|, 0, issued)
    ensures IsDeletionPass(tables, db, issued)
  {
    forall id ensures id in issued <==> Marked(tables, db, id) {
      if Marked(tables, db, id) {
        var t :| t in tables && t.name == id.table && t.deletionColumn.Some?;
        var i :| 0 <= i < |order| && order[i] == t;
        assert id in lists[i];
      }
    }
  }
}
