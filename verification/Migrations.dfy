/** What every migration of these tables shares: the base columns and their indexes, the
    connection a migration runs on, and how a downgrade treats data written since. */
module BaseModel {
  import opened Wrappers
  import opened Schema
  import opened SchemaUndo

  function NullableRef(): Column { Column(Uuid, true, NoDefault) }
  function RequiredRef(): Column { Column(Uuid, false, NoDefault) }
  function Moment(nullable: bool): Column { Column(Timestamp, nullable, NoDefault) }

  function BaseColumns(): map<ColumnName, Column> {
    map[Id := Column(Uuid, false, Generated("gen_random_uuid()")),
        CreatedAt := Column(Timestamp, false, Generated("now()")),
        UpdatedAt := Column(Timestamp, false, Generated("now()")),
        DeletedAt := Moment(true),
        IsDeleted := Column(Boolean, false, Constant(Flag(false))),
        CreatedBy := NullableRef(),
        UpdatedBy := NullableRef(),
        Version := Column(Integer, false, Constant(Number(1)))]
  }

  function BaseIndexes(): seq<IndexSpec> {
    [Plain(CreatedAt), Plain(DeletedAt), Plain(IsDeleted), Plain(CreatedBy), Plain(UpdatedBy)]
  }

  function BaseDrops(): seq<IndexSpec> {
    [Plain(UpdatedBy), Plain(CreatedBy), Plain(IsDeleted), Plain(DeletedAt), Plain(CreatedAt)]
  }

  lemma TwoRowsOk(columns: map<ColumnName, Column>, r: Row, s: Row)
    requires Id in columns && !columns[Id].nullable && RowOk(columns, r) && RowOk(columns, s) && r[Id] != s[Id]
    ensures TableOk(Table(columns, [r, s]))
  {
  }

  /** One table under given indexes, no keys: legal exactly when its rows satisfy them. */
  lemma OneTableLegal(db: Database, t: TableName)
    requires db.tables.Keys == {t} && TableOk(db.tables[t]) && db.keys == map[]
    requires forall n :: n in db.indexes ==> IndexDeclared(db, db.indexes[n])
    ensures Consistent(db) <==> forall n :: n in db.indexes ==> IndexHolds(db, db.indexes[n])
  {
  }

  /** A migration runs its statements inside one transaction. */
  class Connection {
    var db: Database

    constructor (start: Database)
      ensures db == start
    {
      db := start;
    }

    /** Statement after statement; a failing one rolls everything back. */
    method Apply(ss: seq<Statement>) returns (ok: bool)
      modifies this
      ensures ok == Migrate(old(db), ss).Some?
      ensures db == if ok then Migrate(old(db), ss).value else old(db)
    {
      var start := db;
      var i := 0;
      while i < |ss|
        invariant 0 <= i <= |ss|
        invariant Migrate(start, ss) == Migrate(db, ss[i..])
      {
        match Execute(db, ss[i]) {
          case None =>
            db := start;
            return false;
          case Some(next) =>
            assert ss[i..][1..] == ss[i + 1..];
            db := next;
        }
        i := i + 1;
      }
      ok := true;
    }
  }

  // ----- a downgrade after the new schema has been used -----

  /** Same tables, columns, keys and indexes; the rows may differ. */
  ghost predicate SameShape(a: Database, b: Database) {
    && a.tables.Keys == b.tables.Keys && a.keys == b.keys && a.indexes == b.indexes
    && forall t :: t in a.tables ==> a.tables[t].columns == b.tables[t].columns
  }

  predicate Removes(s: Statement) { s.DropTable? || s.DropColumn? || s.DropKey? || s.DropIndex? }

  /** Every surviving row is the row that was there, less the dropped columns. */
  ghost predicate OnlyColumnsLost(before: Database, after: Database) {
    && after.tables.Keys <= before.tables.Keys
    && forall t :: t in after.tables ==> RowsKept(before.tables[t].rows, after.tables[t].rows)
  }

  ghost predicate RowsKept(before: seq<Row>, after: seq<Row>) {
    |after| == |before| && forall i :: 0 <= i < |after| ==> RowKept(before[i], after[i])
  }

  ghost predicate RowKept(before: Row, after: Row) {
    after.Keys <= before.Keys && forall c :: c in after ==> after[c] == before[c]
  }

  lemma OnlyColumnsLostChain(a: Database, b: Database, c: Database)
    requires OnlyColumnsLost(a, b) && OnlyColumnsLost(b, c)
    ensures OnlyColumnsLost(a, c)
  {
  }

  lemma RemovalFollowsShape(a: Database, b: Database, s: Statement)
    requires SameShape(a, b) && Removes(s)
    ensures Execute(a, s).Some? <==> Execute(b, s).Some?
    ensures Execute(a, s).Some? ==>
              SameShape(Execute(a, s).value, Execute(b, s).value) && OnlyColumnsLost(b, Execute(b, s).value)
  {
    match s {
      case DropTable(t) => TableRemovalFollowsShape(a, b, t);
      case DropColumn(t, c) => ColumnRemovalFollowsShape(a, b, t, c);
      case DropKey(_) => SameRows(b, Execute(b, s));
      case DropIndex(_) => SameRows(b, Execute(b, s));
    }
  }

  lemma SameRows(db: Database, next: Option<Database>)
    requires next.Some? ==> next.value.tables == db.tables
    ensures next.Some? ==> OnlyColumnsLost(db, next.value)
  {
  }

  lemma TableRemovalFollowsShape(a: Database, b: Database, t: TableName)
    requires SameShape(a, b)
    ensures Execute(a, DropTable(t)).Some? <==> Execute(b, DropTable(t)).Some?
    ensures Execute(a, DropTable(t)).Some? ==>
              && SameShape(Execute(a, DropTable(t)).value, Execute(b, DropTable(t)).value)
              && OnlyColumnsLost(b, Execute(b, DropTable(t)).value)
  {
    assert Referenced(a, t) == Referenced(b, t);
  }

  lemma ColumnRemovalFollowsShape(a: Database, b: Database, t: TableName, c: ColumnName)
    requires SameShape(a, b)
    ensures Execute(a, DropColumn(t, c)).Some? <==> Execute(b, DropColumn(t, c)).Some?
    ensures Execute(a, DropColumn(t, c)).Some? ==>
              && SameShape(Execute(a, DropColumn(t, c)).value, Execute(b, DropColumn(t, c)).value)
              && OnlyColumnsLost(b, Execute(b, DropColumn(t, c)).value)
  {
    if Execute(b, DropColumn(t, c)).Some? {
      ColumnRemovalKeepsShape(a, b, t, c);
      OneColumnLost(b, Execute(b, DropColumn(t, c)), t, c);
    }
  }

  lemma ColumnRemovalKeepsShape(a: Database, b: Database, t: TableName, c: ColumnName)
    requires SameShape(a, b) && Execute(a, DropColumn(t, c)).Some? && Execute(b, DropColumn(t, c)).Some?
    ensures SameShape(Execute(a, DropColumn(t, c)).value, Execute(b, DropColumn(t, c)).value)
  {
    SameColumnUses(a, b, t, c);
  }

  lemma SameColumnUses(a: Database, b: Database, t: TableName, c: ColumnName)
    requires a.keys == b.keys && a.indexes == b.indexes
    ensures KeysOn(a, t, c) == KeysOn(b, t, c) && IndexesOn(a, t, c) == IndexesOn(b, t, c)
  {
  }

  lemma OneColumnLost(db: Database, next: Option<Database>, t: TableName, c: ColumnName)
    requires t in db.tables
    requires next.Some? ==>
             next.value.tables == db.tables[t := Table(db.tables[t].columns - {c}, WithoutColumn(db.tables[t].rows, c))]
    ensures next.Some? ==> OnlyColumnsLost(db, next.value)
  {
  }

  lemma {:induction false} RemovalsFollowShape(a: Database, b: Database, ss: seq<Statement>)
    requires SameShape(a, b) && Migrate(a, ss).Some? && forall i :: 0 <= i < |ss| ==> Removes(ss[i])
    ensures Migrate(b, ss).Some? && SameShape(Migrate(a, ss).value, Migrate(b, ss).value)
    ensures OnlyColumnsLost(b, Migrate(b, ss).value)
    decreases ss
  {
    if ss != [] {
      RemovalFollowsShape(a, b, ss[0]);
      var x, y := Execute(a, ss[0]).value, Execute(b, ss[0]).value;
      RemovalsFollowShape(x, y, ss[1..]);
      OnlyColumnsLostChain(b, y, Migrate(y, ss[1..]).value);
    }
  }

  /** `down` takes back `up`: on the fresh result it restores the database itself, and on any
      database of the new schema, whatever rows were written, removed or changed meanwhile,
      it succeeds, restores the schema and loses only what the dropped names held. */
  ghost predicate TakesBack(db: Database, up: seq<Statement>, down: seq<Statement>) {
    && Migrate(db, up).Some?
    && Migrate(Migrate(db, up).value, down) == Some(db)
    && forall used: Database :: SameShape(Migrate(db, up).value, used) ==>
         Migrate(used, down).Some? && SameShape(db, Migrate(used, down).value)
             && OnlyColumnsLost(used, Migrate(used, down).value)
  }

  lemma TakesBackWhen(db: Database, up: seq<Statement>, down: seq<Statement>)
    requires Migrate(db, up).Some? && Migrate(Migrate(db, up).value, down) == Some(db)
    requires forall i :: 0 <= i < |down| ==> Removes(down[i])
    ensures TakesBack(db, up, down)
  {
    forall used: Database | SameShape(Migrate(db, up).value, used)
      ensures Migrate(used, down).Some? && SameShape(db, Migrate(used, down).value)
              && OnlyColumnsLost(used, Migrate(used, down).value)
    {
      RemovalsFollowShape(Migrate(db, up).value, used, down);
    }
  }

  /** Creating statements are taken back by their inverses in reverse order. */
  lemma CreationsTakenBack(db: Database, up: seq<Statement>)
    requires Consistent(db) && AllInvertible(up) && Migrate(db, up).Some?
    ensures TakesBack(db, up, UndoAll(up))
  {
    RoundTrip(db, up);
    UndoAllRemoves(up);
    TakesBackWhen(db, up, UndoAll(up));
  }

  lemma {:induction false} UndoAllRemoves(up: seq<Statement>)
    requires AllInvertible(up)
    ensures forall i :: 0 <= i < |UndoAll(up)| ==> Removes(UndoAll(up)[i])
    decreases up
  {
    if up != [] {
      UndoAllRemoves(up[1..]);
    }
  }

  /** Every prefix of the upgrade, and of the downgrade after it, leaves a legal database: no
      key targets a missing table and no dropped table is still referenced. */
  ghost predicate LegalThroughout(db: Database, up: seq<Statement>, down: seq<Statement>)
    requires Migrate(db, up).Some?
  {
    && (forall k :: 0 <= k <= |up| ==> Migrate(db, up[..k]).Some? && Consistent(Migrate(db, up[..k]).value))
    && forall k :: 0 <= k <= |down| ==>
         Migrate(Migrate(db, up).value, down[..k]).Some? && Consistent(Migrate(Migrate(db, up).value, down[..k]).value)
  }

  lemma StaysLegal(db: Database, up: seq<Statement>, down: seq<Statement>)
    requires Consistent(db) && Migrate(db, up).Some? && Migrate(Migrate(db, up).value, down).Some?
    ensures LegalThroughout(db, up, down)
  {
    forall k | 0 <= k <= |up|
      ensures Migrate(db, up[..k]).Some? && Consistent(Migrate(db, up[..k]).value)
    {
      MigrateConsistent(db, up, k);
    }
    MigrateConsistent(db, up, |up|);
    assert up[..|up|] == up;
    forall k | 0 <= k <= |down|
      ensures Migrate(Migrate(db, up).value, down[..k]).Some?
              && Consistent(Migrate(Migrate(db, up).value, down[..k]).value)
    {
      MigrateConsistent(Migrate(db, up).value, down, k);
    }
  }

  lemma WholeUpgradeLegal(db: Database, up: seq<Statement>, down: seq<Statement>)
    requires Migrate(db, up).Some? && LegalThroughout(db, up, down)
    ensures Consistent(Migrate(db, up).value)
  {
    assert up[..|up|] == up;
  }

  // ----- free names -----

  ghost predicate Free(db: Database, t: TableName, xs: seq<IndexSpec>) {
    forall i :: 0 <= i < |xs| ==> NameOf(t, xs[i]) !in db.indexes
  }

  /** A new table that may be created in `db` once the tables in `given` exist as well. */
  ghost predicate Creatable(db: Database, create: Statement, xs: seq<IndexSpec>, given: set<TableName>) {
    && create.CreateTable? && create.table !in db.tables && create.constraints == map[]
    && Id in create.columns && !create.columns[Id].nullable
    && create.keys.Keys !! db.keys.Keys
    && (forall n :: n in create.keys ==>
          && n.table == create.table && create.keys[n].table == create.table && create.keys[n].column in create.columns
          && (create.keys[n].target in given || create.keys[n].target in db.tables))
    && NewNames(db, create.table, xs) && (forall i :: 0 <= i < |xs| ==> Fits(create.columns, create.table, xs[i]))
  }

  /** The parts of `Creatable`. */
  lemma CreatableWhen(db: Database, create: Statement, xs: seq<IndexSpec>, given: set<TableName>)
    requires create.CreateTable? && create.table !in db.tables && create.constraints == map[]
    requires Id in create.columns && !create.columns[Id].nullable && create.keys.Keys !! db.keys.Keys
    requires forall n :: n in create.keys ==>
               && n.table == create.table && create.keys[n].table == create.table
                   && create.keys[n].column in create.columns
               && (create.keys[n].target in given || create.keys[n].target in db.tables)
    requires Free(db, create.table, xs) && SpecsFit(create, xs)
    ensures Creatable(db, create, xs, given)
  {
  }

  /** The names differ and the columns are the table's. */
  ghost predicate SpecsFit(create: Statement, xs: seq<IndexSpec>)
    requires create.CreateTable?
  {
    && (forall i, j :: 0 <= i < j < |xs| ==> NameOf(create.table, xs[i]) != NameOf(create.table, xs[j]))
    && forall i :: 0 <= i < |xs| ==> Fits(create.columns, create.table, xs[i])
  }

  lemma CreatableSucceeds(db: Database, create: Statement, xs: seq<IndexSpec>)
    requires Creatable(db, create, xs, {})
    ensures Migrate(db, [create] + Creates(create.table, xs)).Some?
    ensures WithTable(db, Migrate(db, [create] + Creates(create.table, xs)).value, create)
  {
    TableBlockSucceeds(db, create, xs);
  }

  lemma FreeAfterOtherTable(db: Database, next: Database, create: Statement, t: TableName, xs: seq<IndexSpec>)
    requires create.CreateTable? && WithTable(db, next, create) && create.constraints == map[] && t != create.table
             && Free(db, t, xs)
    ensures Free(next, t, xs)
  {
  }

  /** Index statements that succeed had their names free and touch only indexes. */
  lemma {:induction false} CreatesNeedFree(db: Database, t: TableName, xs: seq<IndexSpec>)
    requires Migrate(db, Creates(t, xs)).Some?
    ensures Free(db, t, xs)
    ensures
      var end := Migrate(db, Creates(t, xs)).value;
      end.tables == db.tables && end.keys == db.keys && db.indexes.Keys <= end.indexes.Keys
    decreases xs
  {
    if xs != [] {
      var next := Execute(db, Creates(t, xs)[0]).value;
      assert Creates(t, xs)[1..] == Creates(t, xs[1..]);
      CreatesNeedFree(next, t, xs[1..]);
      forall i | 0 <= i < |xs|
        ensures NameOf(t, xs[i]) !in db.indexes
      {
        if i > 0 {
          assert xs[i] == xs[1..][i - 1];
        }
      }
    }
  }

  /** A table block that succeeds had its names free and its targets in place. */
  lemma BlockNeeds(db: Database, create: Statement, xs: seq<IndexSpec>)
    requires create.CreateTable? && create.constraints == map[]
    requires Migrate(db, [create] + Creates(create.table, xs)).Some?
    ensures create.table !in db.tables && create.keys.Keys !! db.keys.Keys && Free(db, create.table, xs)
    ensures forall n :: n in create.keys ==> create.keys[n].target == create.table || create.keys[n].target in db.tables
    ensures
      var end := Migrate(db, [create] + Creates(create.table, xs)).value;
      end.tables.Keys == db.tables.Keys + {create.table} && end.keys.Keys == db.keys.Keys + create.keys.Keys
      && db.indexes.Keys <= end.indexes.Keys
  {
    assert ([create] + Creates(create.table, xs))[1..] == Creates(create.table, xs);
    CreatesNeedFree(Execute(db, create).value, create.table, xs);
  }

  // ----- what a migration creates is there when it ends -----

  /** The table, key or index a statement creates is in the database as it was written. */
  ghost predicate Stands(s: Statement, db: Database) {
    match s
    case CreateTable(t, _, keys, constraints) =>
      && t in db.tables
      && (forall n :: n in keys ==> n in db.keys && db.keys[n] == keys[n])
      && (forall n :: n in constraints ==> n in db.indexes && db.indexes[n] == constraints[n])
    case AddKey(n, k) => n in db.keys && db.keys[n] == k
    case CreateIndex(n, ix) => n in db.indexes && db.indexes[n] == ix
    case _ => true
  }

  ghost predicate AllStand(ss: seq<Statement>, db: Database) {
    forall i :: 0 <= i < |ss| ==> Stands(ss[i], db)
  }

  ghost predicate Grows(a: Database, b: Database) {
    && a.tables.Keys <= b.tables.Keys
    && (forall n :: n in a.keys ==> n in b.keys && b.keys[n] == a.keys[n])
    && (forall n :: n in a.indexes ==> n in b.indexes && b.indexes[n] == a.indexes[n])
  }

  lemma StatementGrows(db: Database, s: Statement)
    requires Invertible(s) && Execute(db, s).Some?
    ensures Grows(db, Execute(db, s).value) && Stands(s, Execute(db, s).value)
  {
  }

  lemma StandsStill(s: Statement, a: Database, b: Database)
    requires Stands(s, a) && Grows(a, b)
    ensures Stands(s, b)
  {
  }

  lemma GrowsChain(a: Database, b: Database, c: Database)
    requires Grows(a, b) && Grows(b, c)
    ensures Grows(a, c)
  {
  }

  /** Creating statements that succeed take nothing away, and each stands at the end. */
  lemma {:induction false} CreationsStand(db: Database, ss: seq<Statement>)
    requires AllInvertible(ss) && Migrate(db, ss).Some?
    ensures Grows(db, Migrate(db, ss).value) && AllStand(ss, Migrate(db, ss).value)
    decreases ss
  {
    if ss != [] {
      StatementGrows(db, ss[0]);
      var next, end := Execute(db, ss[0]).value, Migrate(db, ss).value;
      CreationsStand(next, ss[1..]);
      GrowsChain(db, next, end);
      StandsStill(ss[0], next, end);
      assert forall i :: 0 < i < |ss| ==> ss[i] == ss[1..][i - 1];
    }
  }

  /** The indexes of a table created with its indexes, each under its own name. */
  lemma {:induction false} BlockStands(db: Database, create: Statement, xs: seq<IndexSpec>)
    requires create.CreateTable? && Migrate(db, [create] + Creates(create.table, xs)).Some?
    ensures
      var end := Migrate(db, [create] + Creates(create.table, xs)).value;
      && Stands(create, end)
      && forall i :: 0 <= i < |xs| ==>
           NameOf(create.table, xs[i]) in end.indexes
           && end.indexes[NameOf(create.table, xs[i])] == IndexOf(create.table, xs[i])
  {
    var ss := [create] + Creates(create.table, xs);
    assert AllInvertible(ss);
    CreationsStand(db, ss);
    var end := Migrate(db, ss).value;
    assert ss[0] == create;
    forall i | 0 <= i < |xs|
      ensures Stands(CreateIndex(NameOf(create.table, xs[i]), IndexOf(create.table, xs[i])), end)
    {
      assert ss[i + 1] == Creates(create.table, xs)[i];
    }
  }
}
