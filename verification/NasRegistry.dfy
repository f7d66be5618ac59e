/** RADIUS client registration before and after revision 0061: the unique indexes on router and
    identifier covered deleted rows before, and only live rows since. */
module NasRegistry {
  datatype Client = Client(router: int, identifier: string, deleted: bool)

  datatype Scope = AllRows | LiveRows

  predicate Covers(scope: Scope, c: Client) { scope == AllRows || !c.deleted }

  predicate Collide(scope: Scope, a: Client, b: Client) {
    Covers(scope, a) && Covers(scope, b) && (a.router == b.router || a.identifier == b.identifier)
  }

  /** Both unique indexes hold. */
  ghost predicate Unique(scope: Scope, rows: seq<Client>) {
    forall i, j :: 0 <= i < j < |rows| ==> !Collide(scope, rows[i], rows[j])
  }

  ghost predicate Taken(scope: Scope, rows: seq<Client>, c: Client) {
    exists i :: 0 <= i < |rows| && Collide(scope, rows[i], c)
  }

  datatype Operation = Register(router: int, identifier: string) | SoftDelete(row: nat)

  datatype Outcome = Outcome(rows: seq<Client>, ok: bool)

  ghost function Apply(scope: Scope, rows: seq<Client>, op: Operation): Outcome {
    match op
    case Register(r, n) =>
      if Taken(scope, rows, Client(r, n, false)) then Outcome(rows, false)
          else Outcome(rows + [Client(r, n, false)], true)
    case SoftDelete(i) =>
      if i < |rows| && !rows[i].deleted then Outcome(rows[i := rows[i].(deleted := true)], true)
          else Outcome(rows, false)
  }

  ghost function Run(scope: Scope, rows: seq<Client>, ops: seq<Operation>): seq<Client>
    decreases ops
  {
    if ops == [] then rows else Run(scope, Apply(scope, rows, ops[0]).rows, ops[1..])
  }

  // ----- invariants over every trace -----

  lemma ApplyKeepsUnique(scope: Scope, rows: seq<Client>, op: Operation)
    requires Unique(scope, rows)
    ensures Unique(scope, Apply(scope, rows, op).rows)
  {
  }

  /** Every reachable table satisfies its indexes. */
  lemma {:induction false} RunKeepsUnique(scope: Scope, rows: seq<Client>, ops: seq<Operation>)
    requires Unique(scope, rows)
    ensures Unique(scope, Run(scope, rows, ops))
    decreases ops
  {
    if ops != [] {
      ApplyKeepsUnique(scope, rows, ops[0]);
      RunKeepsUnique(scope, Apply(scope, rows, ops[0]).rows, ops[1..]);
    }
  }

  /** Rows are never lost and keep their router and identifier; deleted rows stay deleted. */
  ghost predicate Extends(before: seq<Client>, after: seq<Client>) {
    && |before| <= |after|
    && forall i :: 0 <= i < |before| ==>
         && after[i].router == before[i].router && after[i].identifier == before[i].identifier
         && (before[i].deleted ==> after[i].deleted)
  }

  lemma {:induction false} RunExtends(scope: Scope, rows: seq<Client>, ops: seq<Operation>)
    ensures Extends(rows, Run(scope, rows, ops))
    decreases ops
  {
    if ops != [] {
      var next := Apply(scope, rows, ops[0]).rows;
      RunExtends(scope, next, ops[1..]);
      var end := Run(scope, next, ops[1..]);
      forall i | 0 <= i < |rows|
        ensures
          && end[i].router == rows[i].router && end[i].identifier == rows[i].identifier
          && (rows[i].deleted ==> end[i].deleted)
      {
        assert next[i].router == rows[i].router && next[i].identifier == rows[i].identifier;
        assert rows[i].deleted ==> next[i].deleted;
      }
    }
  }

  /** Before: a router or identifier once registered is blocked in every later state, deleted or
      not; whatever happens, no registration with it succeeds again. */
  lemma BlockedForever(rows: seq<Client>, i: nat, ops: seq<Operation>, router: int, identifier: string)
    requires i < |rows| && (router == rows[i].router || identifier == rows[i].identifier)
    ensures !Apply(AllRows, Run(AllRows, rows, ops), Register(router, identifier)).ok
  {
    RunExtends(AllRows, rows, ops);
    var end := Run(AllRows, rows, ops);
    assert Collide(AllRows, end[i], Client(router, identifier, false));
  }

  /** Since: registration succeeds exactly when no live row has that router or identifier. */
  lemma RegisterSucceedsExactlyWhen(rows: seq<Client>, router: int, identifier: string)
    ensures
      Apply(LiveRows, rows, Register(router, identifier)).ok
      <==> forall i :: 0 <= i < |rows| && !rows[i].deleted ==>
          rows[i].router != router && rows[i].identifier != identifier
  {
  }

  /** So deleting a client always lets its router register again, under its own identifier. */
  lemma DeletingFrees(rows: seq<Client>, i: nat)
    requires Unique(LiveRows, rows) && i < |rows| && !rows[i].deleted
    ensures
      var after := Apply(LiveRows, rows, SoftDelete(i));
      after.ok && Apply(LiveRows, after.rows, Register(rows[i].router, rows[i].identifier)).ok
  {
  }

  /** Data the old indexes accepted satisfies the new ones. */
  lemma UniqueNarrows(rows: seq<Client>)
    requires Unique(AllRows, rows)
    ensures Unique(LiveRows, rows)
  {
  }

  /** Once a deleted client's router or identifier has been registered again, the old indexes
      can never be put back, whatever happens afterwards. */
  lemma ReuseIsIrreversible(rows: seq<Client>, i: nat, router: int, identifier: string, ops: seq<Operation>)
    requires i < |rows| && (rows[i].router == router || rows[i].identifier == identifier)
    requires Apply(LiveRows, rows, Register(router, identifier)).ok
    ensures !Unique(AllRows, Run(LiveRows, Apply(LiveRows, rows, Register(router, identifier)).rows, ops))
  {
    var next := Apply(LiveRows, rows, Register(router, identifier)).rows;
    RunExtends(LiveRows, next, ops);
    var end := Run(LiveRows, next, ops);
    assert next[i] == rows[i] && next[|rows|] == Client(router, identifier, false);
    assert Collide(AllRows, end[i], end[|rows|]);
  }

  /** No accepted registration had a router or identifier that any row, deleted or not, already
      had at the time. */
  ghost predicate NeverReuses(rows: seq<Client>, ops: seq<Operation>)
    decreases ops
  {
    ops == [] || (!Reuses(rows, ops[0]) && NeverReuses(Apply(LiveRows, rows, ops[0]).rows, ops[1..]))
  }

  ghost predicate Reuses(rows: seq<Client>, op: Operation) {
    op.Register? && Apply(LiveRows, rows, op).ok && Taken(AllRows, rows, Client(op.router, op.identifier, false))
  }

  lemma StepStaysUnique(rows: seq<Client>, op: Operation)
    ensures Unique(AllRows, Apply(LiveRows, rows, op).rows) <==> Unique(AllRows, rows) && !Reuses(rows, op)
  {
    var out := Apply(LiveRows, rows, op).rows;
    assert |rows| <= |out|;
    forall i, j | 0 <= i < j < |rows|
      ensures Collide(AllRows, out[i], out[j]) <==> Collide(AllRows, rows[i], rows[j])
    {
    }
    if |out| > |rows| {
      forall i | 0 <= i < |rows|
        ensures out[i] == rows[i] && out[|rows|] == Client(op.router, op.identifier, false)
      {
      }
      if Reuses(rows, op) {
        var i :| 0 <= i < |rows| && Collide(AllRows, rows[i], Client(op.router, op.identifier, false));
        assert Collide(AllRows, out[i], out[|rows|]);
      }
    }
  }

  /** The old indexes can be put back after a trace exactly when they held before it and nothing
      was ever registered again. */
  lemma {:induction false} UniqueAfterExactlyWhen(rows: seq<Client>, ops: seq<Operation>)
    ensures Unique(AllRows, Run(LiveRows, rows, ops)) <==> Unique(AllRows, rows) && NeverReuses(rows, ops)
    decreases ops
  {
    if ops != [] {
      StepStaysUnique(rows, ops[0]);
      UniqueAfterExactlyWhen(Apply(LiveRows, rows, ops[0]).rows, ops[1..]);
    }
  }

  // ----- the table as the database keeps it -----

  class Registry {
    var rows: seq<Client>
    var scope: Scope

    constructor (s: Scope)
      ensures rows == [] && scope == s
    {
      rows := [];
      scope := s;
    }

    method RegisterClient(router: int, identifier: string) returns (ok: bool)
      modifies this
      ensures scope == old(scope)
      ensures Outcome(rows, ok) == Apply(old(scope), old(rows), Register(router, identifier))
    {
      var c := Client(router, identifier, false);
      var i := 0;
      while i < |rows|
        invariant 0 <= i <= |rows| && rows == old(rows) && scope == old(scope)
        invariant forall k :: 0 <= k < i ==> !Collide(scope, rows[k], c)
      {
        if Collide(scope, rows[i], c) { return false; }
        i := i + 1;
      }
      rows := rows + [c];
      return true;
    }

    method DeleteClient(i: nat) returns (ok: bool)
      modifies this
      ensures scope == old(scope)
      ensures Outcome(rows, ok) == Apply(old(scope), old(rows), SoftDelete(i))
    {
      if i >= |rows| || rows[i].deleted { return false; }
      rows := rows[i := rows[i].(deleted := true)];
      return true;
    }
  }
}

/** Revision 0061 as statements on the database. */
module NasUniqueness {
  import opened Wrappers
  import opened Schema
  import opened SchemaUndo
  import opened BaseModel
  import R = NasRegistry

  const Nas := RadiusNasClients
  const Live := Equals(IsDeleted, Flag(false))

  function PlainIndex(c: ColumnName): Index { Index(Nas, [c], true, Everywhere) }
  function LiveIndex(c: ColumnName): Index { Index(Nas, [c], true, Live) }

  function Rebuild(c: ColumnName, ix: Index): seq<Statement> { [DropIndex(Ix(Nas, c)), CreateIndex(Ix(Nas, c), ix)] }

  function Upgrade(): seq<Statement> {
    Rebuild(RouterId, LiveIndex(RouterId))
    + Rebuild(NasIdentifier, LiveIndex(NasIdentifier))
  }

  function Downgrade(): seq<Statement> {
    Rebuild(NasIdentifier, PlainIndex(NasIdentifier))
    + Rebuild(RouterId, PlainIndex(RouterId))
  }

  /** The table has its columns and both indexes exist. */
  ghost predicate Indexed(db: Database) {
    && Nas in db.tables && {RouterId, NasIdentifier, IsDeleted} <= db.tables[Nas].columns.Keys
    && Ix(Nas, RouterId) in db.indexes && Ix(Nas, NasIdentifier) in db.indexes
  }

  ghost predicate Declares(db: Database, c: ColumnName) {
    Nas in db.tables && c in db.tables[Nas].columns && IsDeleted in db.tables[Nas].columns
  }

  /** Rebuilding succeeds exactly when the rows comply with the new index. */
  lemma RebuildExactlyWhen(db: Database, c: ColumnName, ix: Index)
    requires Declares(db, c) && Ix(Nas, c) in db.indexes && ix in {PlainIndex(c), LiveIndex(c)}
    ensures
      Migrate(db, Rebuild(c, ix))
      == if Distinct(ix, db.tables[Nas].rows) then Some(db.(indexes := db.indexes[Ix(Nas, c) := ix])) else None
  {
    var n := Ix(Nas, c);
    var bare := db.(indexes := db.indexes - {n});
    assert Rebuild(c, ix)[1..] == [CreateIndex(n, ix)];
    assert Execute(db, DropIndex(n)) == Some(bare);
    MigrateOne(bare, CreateIndex(n, ix));
    CreatesWhenDistinct(bare, c, ix);
    Replaced(db.indexes, n, ix);
  }

  lemma Replaced(m: map<IndexName, Index>, n: IndexName, ix: Index)
    ensures (m - {n})[n := ix] == m[n := ix]
  {
  }

  lemma CreatesWhenDistinct(db: Database, c: ColumnName, ix: Index)
    requires Declares(db, c) && Ix(Nas, c) !in db.indexes && ix in {PlainIndex(c), LiveIndex(c)}
    ensures
      Execute(db, CreateIndex(Ix(Nas, c), ix))
      == if Distinct(ix, db.tables[Nas].rows) then Some(db.(indexes := db.indexes[Ix(Nas, c) := ix])) else None
  {
    IndexDeclaredFor(db, c, ix);
  }

  lemma IndexDeclaredFor(db: Database, c: ColumnName, ix: Index)
    requires Declares(db, c) && ix in {PlainIndex(c), LiveIndex(c)}
    ensures IndexDeclared(db, ix)
  {
  }

  /** What satisfied the plain index satisfies the partial one. */
  lemma DistinctNarrows(c: ColumnName, rows: seq<Row>)
    requires Distinct(PlainIndex(c), rows)
    ensures Distinct(LiveIndex(c), rows)
  {
  }

  function WithIndexes(db: Database, router: Index, identifier: Index): Database {
    db.(indexes := db.indexes[Ix(Nas, RouterId) := router][Ix(Nas, NasIdentifier) := identifier])
  }

  lemma PutTwiceCommutes(m: map<IndexName, Index>, a: IndexName, b: IndexName, x: Index, y: Index)
    requires a != b
    ensures m[b := y][a := x] == m[a := x][b := y]
  {
  }

  /** The upgrade cannot fail on data the old indexes accepted, and changes only the two. */
  lemma UpgradeNeverFails(db: Database)
    requires Indexed(db)
    requires Distinct(PlainIndex(RouterId), db.tables[Nas].rows)
             && Distinct(PlainIndex(NasIdentifier), db.tables[Nas].rows)
    ensures Migrate(db, Upgrade()) == Some(WithIndexes(db, LiveIndex(RouterId), LiveIndex(NasIdentifier)))
  {
    DistinctNarrows(RouterId, db.tables[Nas].rows);
    DistinctNarrows(NasIdentifier, db.tables[Nas].rows);
    RebuildExactlyWhen(db, RouterId, LiveIndex(RouterId));
    var mid := db.(indexes := db.indexes[Ix(Nas, RouterId) := LiveIndex(RouterId)]);
    RebuildExactlyWhen(mid, NasIdentifier, LiveIndex(NasIdentifier));
    MigrateConcat(db, Rebuild(RouterId, LiveIndex(RouterId)), Rebuild(NasIdentifier, LiveIndex(NasIdentifier)));
  }

  /** The downgrade succeeds exactly when both columns are distinct over all rows, deleted ones
      included. */
  lemma DowngradeExactlyWhen(db: Database)
    requires Indexed(db)
    ensures
      Migrate(db, Downgrade())
      == if Distinct(PlainIndex(RouterId), db.tables[Nas].rows)
          && Distinct(PlainIndex(NasIdentifier), db.tables[Nas].rows)
         then Some(WithIndexes(db, PlainIndex(RouterId), PlainIndex(NasIdentifier))) else None
  {
    RebuildExactlyWhen(db, NasIdentifier, PlainIndex(NasIdentifier));
    var mid := db.(indexes := db.indexes[Ix(Nas, NasIdentifier) := PlainIndex(NasIdentifier)]);
    RebuildExactlyWhen(mid, RouterId, PlainIndex(RouterId));
    MigrateConcat(db, Rebuild(NasIdentifier, PlainIndex(NasIdentifier)), Rebuild(RouterId, PlainIndex(RouterId)));
    PutTwiceCommutes(db.indexes, Ix(Nas, RouterId), Ix(Nas, NasIdentifier), PlainIndex(RouterId),
        PlainIndex(NasIdentifier));
  }

  /** A legal database with the old indexes: upgrade and downgrade are each other's inverse. */
  lemma UpgradeThenDowngrade(db: Database)
    requires Consistent(db) && Indexed(db)
    requires db.indexes[Ix(Nas, RouterId)] == PlainIndex(RouterId)
             && db.indexes[Ix(Nas, NasIdentifier)] == PlainIndex(NasIdentifier)
    ensures Migrate(db, Upgrade()).Some? && Migrate(Migrate(db, Upgrade()).value, Downgrade()) == Some(db)
  {
    OldIndexesHold(db);
    UpgradeNeverFails(db);
    var up := WithIndexes(db, LiveIndex(RouterId), LiveIndex(NasIdentifier));
    DowngradeExactlyWhen(up);
    PutBothBack(db.indexes, Ix(Nas, RouterId), Ix(Nas, NasIdentifier), LiveIndex(RouterId), LiveIndex(NasIdentifier));
  }

  lemma PutBothBack(m: map<IndexName, Index>, a: IndexName, b: IndexName, x: Index, y: Index)
    requires a in m && b in m && a != b
    ensures m[a := x][b := y][a := m[a]][b := m[b]] == m
  {
  }

  lemma OldIndexesHold(db: Database)
    requires Consistent(db) && Indexed(db)
    requires db.indexes[Ix(Nas, RouterId)] == PlainIndex(RouterId)
             && db.indexes[Ix(Nas, NasIdentifier)] == PlainIndex(NasIdentifier)
    ensures Distinct(PlainIndex(RouterId), db.tables[Nas].rows)
            && Distinct(PlainIndex(NasIdentifier), db.tables[Nas].rows)
  {
    assert IndexHolds(db, db.indexes[Ix(Nas, RouterId)]) && IndexHolds(db, db.indexes[Ix(Nas, NasIdentifier)]);
  }

  // ----- the indexes are the registry's rule -----

  /** The table's row is this client, whatever its other columns hold. */
  predicate IsClient(r: Row, c: R.Client) {
    && RouterId in r && r[RouterId] == Ref(c.router)
    && NasIdentifier in r && r[NasIdentifier] == Text(c.identifier)
    && IsDeleted in r && r[IsDeleted] == Flag(c.deleted)
  }

  ghost predicate AreClients(rows: seq<Row>, cs: seq<R.Client>) {
    |rows| == |cs| && forall i :: 0 <= i < |cs| ==> IsClient(rows[i], cs[i])
  }

  function ScopedIndex(scope: R.Scope, c: ColumnName): Index {
    if scope == R.AllRows then PlainIndex(c) else LiveIndex(c)
  }

  lemma ClashIsCollision(scope: R.Scope, r: Row, s: Row, a: R.Client, b: R.Client)
    requires IsClient(r, a) && IsClient(s, b)
    ensures
      R.Collide(scope, a, b) <==>
      Clash(ScopedIndex(scope, RouterId), r, s) || Clash(ScopedIndex(scope, NasIdentifier), r, s)
  {
    ClashOn(scope, RouterId, r, s, a, b);
    ClashOn(scope, NasIdentifier, r, s, a, b);
  }

  lemma ClashOn(scope: R.Scope, c: ColumnName, r: Row, s: Row, a: R.Client, b: R.Client)
    requires c in {RouterId, NasIdentifier} && IsClient(r, a) && IsClient(s, b)
    ensures Clash(ScopedIndex(scope, c), r, s) <==> R.Covers(scope, a) && R.Covers(scope, b) && r[c] == s[c]
  {
    var ix := ScopedIndex(scope, c);
    assert c in ix.columns && forall d :: d in ix.columns ==> d == c;
    assert Holds(ix.where, r) <==> R.Covers(scope, a);
    assert Holds(ix.where, s) <==> R.Covers(scope, b);
  }

  /** Both indexes of a scope hold of the table's rows exactly when the registry's rule holds of
      the clients they are. */
  lemma IndexesAreUnique(scope: R.Scope, rows: seq<Row>, cs: seq<R.Client>)
    requires AreClients(rows, cs)
    ensures
      R.Unique(scope, cs) <==>
      Distinct(ScopedIndex(scope, RouterId), rows) && Distinct(ScopedIndex(scope, NasIdentifier), rows)
  {
    forall i, j | 0 <= i < j < |cs|
      ensures
        R.Collide(scope, cs[i], cs[j]) <==>
        Clash(ScopedIndex(scope, RouterId), rows[i], rows[j])
            || Clash(ScopedIndex(scope, NasIdentifier), rows[i], rows[j])
    {
      ClashIsCollision(scope, rows[i], rows[j], cs[i], cs[j]);
    }
  }

  /** However it came to apply, the upgrade leaves both indexes over the rows not deleted. */
  lemma UpgradeLeaves(db: Database)
    requires Indexed(db) && Migrate(db, Upgrade()).Some?
    ensures Migrate(db, Upgrade()).value == WithIndexes(db, LiveIndex(RouterId), LiveIndex(NasIdentifier))
  {
    RebuildExactlyWhen(db, RouterId, LiveIndex(RouterId));
    MigrateConcat(db, Rebuild(RouterId, LiveIndex(RouterId)), Rebuild(NasIdentifier, LiveIndex(NasIdentifier)));
    var mid := db.(indexes := db.indexes[Ix(Nas, RouterId) := LiveIndex(RouterId)]);
    RebuildExactlyWhen(mid, NasIdentifier, LiveIndex(NasIdentifier));
  }

  lemma HeldIndex(db: Database, n: IndexName)
    requires Consistent(db) && n in db.indexes && db.indexes[n].unique && db.indexes[n].table in db.tables
    ensures Distinct(db.indexes[n], db.tables[db.indexes[n].table].rows)
  {
    assert IndexHolds(db, db.indexes[n]);
  }

  /** Any legal database with the schema the upgrade leaves, whatever was written since, has no two
      undeleted clients for one router or one identifier. */
  lemma UpgradedTableIsUnique(db: Database, used: Database, cs: seq<R.Client>)
    requires Indexed(db) && Migrate(db, Upgrade()).Some? && SameShape(Migrate(db, Upgrade()).value, used)
    requires Consistent(used) && Nas in used.tables && AreClients(used.tables[Nas].rows, cs)
    ensures forall i, j :: 0 <= i < j < |cs| && !cs[i].deleted && !cs[j].deleted ==>
              cs[i].router != cs[j].router && cs[i].identifier != cs[j].identifier
  {
    UpgradeLeaves(db);
    HeldIndex(used, Ix(Nas, RouterId));
    HeldIndex(used, Ix(Nas, NasIdentifier));
    LiveRowsDiffer(used.tables[Nas].rows, cs);
  }

  lemma LiveRowsDiffer(rows: seq<Row>, cs: seq<R.Client>)
    requires AreClients(rows, cs) && Distinct(LiveIndex(RouterId), rows) && Distinct(LiveIndex(NasIdentifier), rows)
    ensures forall i, j :: 0 <= i < j < |cs| && !cs[i].deleted && !cs[j].deleted ==>
              cs[i].router != cs[j].router && cs[i].identifier != cs[j].identifier
  {
    IndexesAreUnique(R.LiveRows, rows, cs);
    forall i, j | 0 <= i < j < |cs| && !cs[i].deleted && !cs[j].deleted
      ensures cs[i].router != cs[j].router && cs[i].identifier != cs[j].identifier
    {
      assert !R.Collide(R.LiveRows, cs[i], cs[j]);
    }
  }

  /** The two indexes refuse a new row exactly when the registry refuses the registration. */
  lemma RegisterIsIndexed(scope: R.Scope, rows: seq<Row>, cs: seq<R.Client>, r: Row, router: int, identifier: string)
    requires AreClients(rows, cs) && R.Unique(scope, cs) && IsClient(r, R.Client(router, identifier, false))
    ensures
      R.Apply(scope, cs, R.Register(router, identifier)).ok <==>
      Distinct(ScopedIndex(scope, RouterId), rows + [r]) && Distinct(ScopedIndex(scope, NasIdentifier), rows + [r])
  {
    var c := R.Client(router, identifier, false);
    IndexesAreUnique(scope, rows + [r], cs + [c]);
    UniqueWithOneMore(scope, cs, c);
  }

  lemma UniqueWithOneMore(scope: R.Scope, cs: seq<R.Client>, c: R.Client)
    requires R.Unique(scope, cs)
    ensures R.Unique(scope, cs + [c]) <==> !R.Taken(scope, cs, c)
  {
    var all := cs + [c];
    if R.Taken(scope, cs, c) {
      var i :| 0 <= i < |cs| && R.Collide(scope, cs[i], c);
      assert R.Collide(scope, all[i], all[|cs|]);
    }
  }

  /** They never refuse a deletion. */
  lemma DeletionIsIndexed(scope: R.Scope, rows: seq<Row>, cs: seq<R.Client>, i: nat, r: Row)
    requires AreClients(rows, cs) && R.Unique(scope, cs) && i < |cs| && IsClient(r, cs[i].(deleted := true))
    ensures Distinct(ScopedIndex(scope, RouterId), rows[i := r])
    ensures Distinct(ScopedIndex(scope, NasIdentifier), rows[i := r])
  {
    var after := cs[i := cs[i].(deleted := true)];
    forall j, k | 0 <= j < k < |after|
      ensures !R.Collide(scope, after[j], after[k])
    {
      assert !R.Collide(scope, cs[j], cs[k]);
    }
    IndexesAreUnique(scope, rows[i := r], after);
  }

  /** Once any trace under the new indexes has filled the table, the downgrade succeeds exactly
      when the rows before it were unique and the trace never registered anything again. */
  lemma DowngradeAfterTrace(db: Database, cs: seq<R.Client>, ops: seq<R.Operation>)
    requires Indexed(db) && AreClients(db.tables[Nas].rows, R.Run(R.LiveRows, cs, ops))
    ensures Migrate(db, Downgrade()).Some? <==> R.Unique(R.AllRows, cs) && R.NeverReuses(cs, ops)
  {
    DowngradeExactlyWhen(db);
    R.UniqueAfterExactlyWhen(cs, ops);
    IndexesAreUnique(R.AllRows, db.tables[Nas].rows, R.Run(R.LiveRows, cs, ops));
  }

  // ----- a legal table filled by a trace -----

  function ClientRow(id: int, c: R.Client): Row {
    map[Id := Ref(id), RouterId := Ref(c.router), NasIdentifier := Text(c.identifier), IsDeleted := Flag(c.deleted)]
  }

  function ClientColumns(): map<ColumnName, Column> {
    map[Id := RequiredRef(), RouterId := RequiredRef(), NasIdentifier := Column(Varchar(255), false, NoDefault),
        IsDeleted := Column(Boolean, false, Constant(Flag(false)))]
  }

  function TwoClients(a: R.Client, b: R.Client): Database {
    Database(map[Nas := Table(ClientColumns(), [ClientRow(1, a), ClientRow(2, b)])], map[],
             map[Ix(Nas, RouterId) := LiveIndex(RouterId), Ix(Nas, NasIdentifier) := LiveIndex(NasIdentifier)])
  }

  lemma TwoClientsTable(a: R.Client, b: R.Client)
    ensures TableOk(Table(ClientColumns(), [ClientRow(1, a), ClientRow(2, b)]))
  {
    ClientRowOk(1, a);
    ClientRowOk(2, b);
    TwoRowsOk(ClientColumns(), ClientRow(1, a), ClientRow(2, b));
  }

  lemma ClientRowOk(id: int, c: R.Client)
    ensures RowOk(ClientColumns(), ClientRow(id, c))
  {
  }

  lemma TwoClientsLegal(a: R.Client, b: R.Client)
    requires R.Unique(R.LiveRows, [a, b])
    ensures Consistent(TwoClients(a, b)) && Indexed(TwoClients(a, b))
    ensures AreClients(TwoClients(a, b).tables[Nas].rows, [a, b])
  {
    var db := TwoClients(a, b);
    TwoClientsTable(a, b);
    IndexDeclaredFor(db, RouterId, LiveIndex(RouterId));
    IndexDeclaredFor(db, NasIdentifier, LiveIndex(NasIdentifier));
    IndexesAreUnique(R.LiveRows, db.tables[Nas].rows, [a, b]);
  }

  /** A registration, its deletion and a second registration of the same router fill a legal
      table on which the downgrade fails; had the second been another router, it would succeed. */
  lemma ReuseBlocksDowngrade(again: bool) returns (db: Database, ops: seq<R.Operation>)
    ensures Consistent(db) && Indexed(db) && |db.tables[Nas].rows| == 2
    ensures AreClients(db.tables[Nas].rows, R.Run(R.LiveRows, [], ops))
    ensures Migrate(db, Downgrade()).Some? <==> !again
  {
    var gone, live := R.Client(7, "a", true), R.Client(if again then 7 else 8, "b", false);
    ops := [R.Register(7, "a"), R.SoftDelete(0), R.Register(live.router, "b")];
    assert "a"[0] != "b"[0];
    ThreeSteps(live.router);
    assert R.Unique(R.LiveRows, [gone, live]);
    TwoClientsLegal(gone, live);
    db := TwoClients(gone, live);
    DowngradeAfterTrace(db, [], ops);
    R.UniqueAfterExactlyWhen([], ops);
    assert R.Collide(R.AllRows, [gone, live][0], [gone, live][1]) <==> again;
  }

  lemma ThreeSteps(router: int)
    ensures
      R.Run(R.LiveRows, [], [R.Register(7, "a"), R.SoftDelete(0), R.Register(router, "b")])
      == [R.Client(7, "a", true), R.Client(router, "b", false)]
  {
    var ops := [R.Register(7, "a"), R.SoftDelete(0), R.Register(router, "b")];
    var one, gone := [R.Client(7, "a", false)], [R.Client(7, "a", true)];
    assert R.Apply(R.LiveRows, [], ops[0]).rows == one;
    assert R.Apply(R.LiveRows, one, ops[1]).rows == gone;
    assert R.Apply(R.LiveRows, gone, ops[2]).rows == gone + [R.Client(router, "b", false)];
    assert ops[1..][0] == ops[1] && ops[1..][1..] == [ops[2]] && [ops[2]][1..] == [];
    var end := gone + [R.Client(router, "b", false)];
    assert R.Run(R.LiveRows, end, [ops[2]][1..]) == end;
    assert R.Run(R.LiveRows, gone, ops[1..][1..]) == end;
    assert R.Run(R.LiveRows, one, ops[1..]) == end;
  }
}
