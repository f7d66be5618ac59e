/** A small interpreter for the schema and data statements of the Alembic migrations. A
    database is its tables with their rows, its foreign keys and its indexes; a statement
    either fails, leaving nothing changed, or yields the next database. */
module Schema {
  import opened Wrappers

  datatype TableName =
    | Organizations | Locations | Routers | RadiusNasClients | RadiusNasCodeCounters
    | VoucherBatches | Vouchers | Policies | PolicyVersions | PolicyAssignments
    | DemoRequests | NotificationDeliveries | DemoBookings | OtherTable(name: string)

  datatype ColumnName =
    | Id | CreatedAt | UpdatedAt | DeletedAt | IsDeleted | CreatedBy | UpdatedBy | Version
    | OrganizationId | LocationId | RouterId | NasIdentifier | IsActive | NasCode | Status | Name
    | Description | IpAddress | Vendor | CounterKey | LastValue | BatchId | RedeemedAt | UseCount
    | PolicyType | CurrentVersionId | CreatedByUserId | PolicyId | VersionNumber | Rules | PublishedAt
    | ScopeType | ScopeId | Priority | DemoRequestId | StartsAt | EndsAt | BookedTimezone
    | ManageTokenHash | CancellationReason | CancelledAt | GuestConfirmationDeliveryId
    | TeamNotificationDeliveryId | OtherColumn(name: string)

  datatype Kind = Uuid | Timestamp | Boolean | Integer | Varchar(size: nat) | LongText | Jsonb

  datatype Value = Null | Ref(id: int) | Text(text: string) | Flag(flag: bool) | Number(number: int)

  datatype Default = NoDefault | Constant(value: Value) | Generated(expression: string)

  datatype Column = Column(kind: Kind, nullable: bool, default: Default)

  type Row = map<ColumnName, Value>

  datatype Table = Table(columns: map<ColumnName, Column>, rows: seq<Row>)

  datatype OnDelete = Cascade | SetNull | Restrict

  /** Every foreign key of these migrations references `id`. */
  datatype ForeignKey = ForeignKey(table: TableName, column: ColumnName, target: TableName, onDelete: OnDelete)

  /** The predicates the partial indexes use. */
  datatype Where =
    | Everywhere | Equals(column: ColumnName, value: Value) | NotNull(column: ColumnName) | Both(a: Where, b: Where)

  datatype Index = Index(table: TableName, columns: seq<ColumnName>, unique: bool, where: Where)

  datatype KeyName = Fk(table: TableName, column: ColumnName)
  datatype IndexName =
    | Ix(table: TableName, column: ColumnName) | Ix2(table: TableName, column: ColumnName, second: ColumnName)
    | Uq(table: TableName, column: ColumnName) | Uq2(table: TableName, column: ColumnName, second: ColumnName)

  datatype Database = Database(
    tables: map<TableName, Table>, keys: map<KeyName, ForeignKey>, indexes: map<IndexName, Index>)

  // ----- what a legal database is -----

  predicate Holds(w: Where, r: Row) {
    match w
    case Everywhere => true
    case Equals(c, v) => c in r && r[c] == v
    case NotNull(c) => c in r && r[c] != Null
    case Both(a, b) => Holds(a, r) && Holds(b, r)
  }

  function Mentions(w: Where): set<ColumnName> {
    match w
    case Everywhere => {}
    case Equals(c, _) => {c}
    case NotNull(c) => {c}
    case Both(a, b) => Mentions(a) + Mentions(b)
  }

  /** NULL equals nothing, so a NULL in any indexed column never collides. */
  predicate Clash(ix: Index, r: Row, s: Row) {
    && Holds(ix.where, r) && Holds(ix.where, s)
    && forall c :: c in ix.columns ==> c in r && c in s && r[c] != Null && r[c] == s[c]
  }

  predicate Distinct(ix: Index, rows: seq<Row>) {
    forall i, j :: 0 <= i < j < |rows| ==> !Clash(ix, rows[i], rows[j])
  }

  predicate HasId(rows: seq<Row>, v: Value) {
    exists i :: 0 <= i < |rows| && Id in rows[i] && rows[i][Id] == v
  }

  predicate RowOk(columns: map<ColumnName, Column>, r: Row) {
    r.Keys == columns.Keys && forall c :: c in columns && !columns[c].nullable ==> r[c] != Null
  }

  /** `id` is the primary key. */
  predicate IdsDistinct(rows: seq<Row>) {
    forall i, j :: 0 <= i < j < |rows| && Id in rows[i] && Id in rows[j] ==> rows[i][Id] != rows[j][Id]
  }

  predicate TableOk(t: Table) {
    && Id in t.columns && !t.columns[Id].nullable
    && (forall i :: 0 <= i < |t.rows| ==> RowOk(t.columns, t.rows[i]))
    && IdsDistinct(t.rows)
  }

  predicate KeyDeclared(db: Database, k: ForeignKey) {
    k.table in db.tables && k.target in db.tables && k.column in db.tables[k.table].columns
  }

  predicate KeyHolds(db: Database, k: ForeignKey)
    requires KeyDeclared(db, k)
  {
    var rows := db.tables[k.table].rows;
    forall i :: 0 <= i < |rows| ==>
      k.column in rows[i] && (rows[i][k.column] == Null || HasId(db.tables[k.target].rows, rows[i][k.column]))
  }

  predicate IndexDeclared(db: Database, ix: Index) {
    && ix.table in db.tables
    && (forall c :: c in ix.columns ==> c in db.tables[ix.table].columns)
    && Mentions(ix.where) <= db.tables[ix.table].columns.Keys
  }

  predicate IndexHolds(db: Database, ix: Index)
    requires IndexDeclared(db, ix)
  {
    ix.unique ==> Distinct(ix, db.tables[ix.table].rows)
  }

  /** No foreign key names a missing table or column, no index either, and the rows satisfy
      every NOT NULL, foreign key and unique index. */
  predicate Consistent(db: Database) {
    && (forall t :: t in db.tables ==> TableOk(db.tables[t]))
    && (forall n :: n in db.keys ==> KeyDeclared(db, db.keys[n]) && KeyHolds(db, db.keys[n]))
    && (forall n :: n in db.indexes ==> IndexDeclared(db, db.indexes[n]) && IndexHolds(db, db.indexes[n]))
  }

  // ----- statements -----

  datatype Statement =
    | CreateTable(table: TableName, columns: map<ColumnName, Column>, keys: map<KeyName, ForeignKey>,
                  constraints: map<IndexName, Index>)
    | DropTable(table: TableName)
    | AddColumn(table: TableName, column: ColumnName, definition: Column)
    | DropColumn(table: TableName, column: ColumnName)
    | SetNotNull(table: TableName, column: ColumnName)
    | AddKey(key: KeyName, foreignKey: ForeignKey)
    | DropKey(key: KeyName)
    | CreateIndex(name: IndexName, index: Index)
    | DropIndex(name: IndexName)
    | CopyFrom(table: TableName, via: ColumnName, source: TableName, copied: set<ColumnName>)
    | SetWhere(table: TableName, column: ColumnName, value: Value, where: Where)

  function Fill(c: Column): Value { match c.default case Constant(v) => v case _ => Null }

  function WithColumn(rows: seq<Row>, c: ColumnName, v: Value): (out: seq<Row>)
    ensures |out| == |rows| && forall i :: 0 <= i < |rows| ==> out[i] == rows[i][c := v]
  {
    if rows == [] then [] else [rows[0][c := v]] + WithColumn(rows[1..], c, v)
  }

  function WithoutColumn(rows: seq<Row>, c: ColumnName): (out: seq<Row>)
    ensures |out| == |rows| && forall i :: 0 <= i < |rows| ==> out[i] == rows[i] - {c}
  {
    if rows == [] then [] else [rows[0] - {c}] + WithoutColumn(rows[1..], c)
  }

  /** The row of `rows` whose id is `v`. */
  function FindId(rows: seq<Row>, v: Value): Option<Row> {
    if rows == [] then None
    else if Id in rows[0] && rows[0][Id] == v then Some(rows[0])
    else FindId(rows[1..], v)
  }

  function Copied(r: Row, s: Row, cs: set<ColumnName>): (out: Row)
    ensures out.Keys == r.Keys
    ensures forall c :: c in r ==> out[c] == if c in cs && c in s then s[c] else r[c]
  {
    map c | c in r :: if c in cs && c in s then s[c] else r[c]
  }

  function CopyRow(r: Row, via: ColumnName, source: seq<Row>, cs: set<ColumnName>): Row {
    if via in r && r[via] != Null && FindId(source, r[via]).Some? then Copied(r, FindId(source, r[via]).value, cs)
    else r
  }

  /** UPDATE t SET c = s.c, ... FROM s WHERE s.id = t.via */
  function CopyRows(rows: seq<Row>, via: ColumnName, source: seq<Row>, cs: set<ColumnName>): (out: seq<Row>)
    ensures |out| == |rows| && forall i :: 0 <= i < |rows| ==> out[i] == CopyRow(rows[i], via, source, cs)
  {
    if rows == [] then [] else [CopyRow(rows[0], via, source, cs)] + CopyRows(rows[1..], via, source, cs)
  }

  function SetRows(rows: seq<Row>, c: ColumnName, v: Value, w: Where): (out: seq<Row>)
    ensures |out| == |rows|
    ensures forall i :: 0 <= i < |rows| ==>
            out[i] == if c in rows[i] && Holds(w, rows[i]) then rows[i][c := v] else rows[i]
  {
    if rows == [] then []
    else [if c in rows[0] && Holds(w, rows[0]) then rows[0][c := v] else rows[0]] + SetRows(rows[1..], c, v, w)
  }

  function PutTable(db: Database, t: TableName, table: Table): Database {
    db.(tables := db.tables[t := table])
  }

  predicate Uses(ix: Index, t: TableName, c: ColumnName) {
    ix.table == t && (c in ix.columns || c in Mentions(ix.where))
  }

  function KeysOf(db: Database, t: TableName): set<KeyName> { set n | n in db.keys && db.keys[n].table == t }
  function IndexesOf(db: Database, t: TableName): set<IndexName> { set n | n in db.indexes && db.indexes[n].table == t }

  function KeysOn(db: Database, t: TableName, c: ColumnName): set<KeyName> {
    set n | n in db.keys && db.keys[n].table == t && db.keys[n].column == c
  }

  function IndexesOn(db: Database, t: TableName, c: ColumnName): set<IndexName> {
    set n | n in db.indexes && Uses(db.indexes[n], t, c)
  }

  /** Some other table's foreign key points at `t`. */
  predicate Referenced(db: Database, t: TableName) {
    exists n :: n in db.keys && db.keys[n].target == t && db.keys[n].table != t
  }

  function Checked(db: Database): Option<Database> { if Consistent(db) then Some(db) else None }

  /** The names are free, the primary key is there, and keys and constraints make sense. */
  predicate NewTableOk(db: Database, t: TableName, columns: map<ColumnName, Column>,
                             keys: map<KeyName, ForeignKey>, constraints: map<IndexName, Index>)
  {
    && keys.Keys !! db.keys.Keys && constraints.Keys !! db.indexes.Keys
    && Id in columns && !columns[Id].nullable
    && (forall n :: n in keys ==>
          keys[n].table == t && keys[n].column in columns && (keys[n].target == t || keys[n].target in db.tables))
    && (forall n :: n in constraints ==>
          && constraints[n].table == t && (forall c :: c in constraints[n].columns ==> c in columns)
          && Mentions(constraints[n].where) <= columns.Keys)
  }

  function Execute(db: Database, s: Statement): Option<Database> {
    match s
    case CreateTable(t, columns, keys, constraints) =>
      if t in db.tables || !NewTableOk(db, t, columns, keys, constraints) then None
      else Some(Database(db.tables[t := Table(columns, [])], db.keys + keys, db.indexes + constraints))
    case DropTable(t) =>
      if t !in db.tables || Referenced(db, t) then None
      else Some(Database(db.tables - {t}, db.keys - KeysOf(db, t), db.indexes - IndexesOf(db, t)))
    case AddColumn(t, c, d) =>
      if t !in db.tables || c in db.tables[t].columns
          || (!d.nullable && Fill(d) == Null && db.tables[t].rows != []) then None
      else Some(PutTable(db, t, Table(db.tables[t].columns[c := d], WithColumn(db.tables[t].rows, c, Fill(d)))))
    case DropColumn(t, c) =>
      if t !in db.tables || c !in db.tables[t].columns || c == Id then None
      else
        Some(PutTable(db, t, Table(db.tables[t].columns - {c}, WithoutColumn(db.tables[t].rows, c)))
             .(keys := db.keys - KeysOn(db, t, c), indexes := db.indexes - IndexesOn(db, t, c)))
    case SetNotNull(t, c) =>
      if t !in db.tables || c !in db.tables[t].columns
         || !(forall i :: 0 <= i < |db.tables[t].rows| ==> c in db.tables[t].rows[i] && db.tables[t].rows[i][c] != Null)
      then None
      else
        var table := db.tables[t];
        Some(PutTable(db, t, table.(columns := table.columns[c := table.columns[c].(nullable := false)])))
    case AddKey(n, k) =>
      if n in db.keys || !KeyDeclared(db, k) || !KeyHolds(db, k) then None else Some(db.(keys := db.keys[n := k]))
    case DropKey(n) => if n !in db.keys then None else Some(db.(keys := db.keys - {n}))
    case CreateIndex(n, ix) =>
      if n in db.indexes || !IndexDeclared(db, ix) || !IndexHolds(db, ix) then None
      else Some(db.(indexes := db.indexes[n := ix]))
    case DropIndex(n) => if n !in db.indexes then None else Some(db.(indexes := db.indexes - {n}))
    case CopyFrom(t, via, source, cs) =>
      if t !in db.tables || source !in db.tables then None
      else Checked(PutTable(db, t, db.tables[t].(rows := CopyRows(db.tables[t].rows, via, db.tables[source].rows, cs))))
    case SetWhere(t, c, v, w) =>
      if t !in db.tables then None
      else Checked(PutTable(db, t, db.tables[t].(rows := SetRows(db.tables[t].rows, c, v, w))))
  }

  /** Run statements in order; the first failure ends the migration. */
  function Migrate(db: Database, ss: seq<Statement>): Option<Database>
    decreases ss
  {
    if ss == [] then Some(db)
    else match Execute(db, ss[0]) case None => None case Some(next) => Migrate(next, ss[1..])
  }

  // ----- every statement keeps the database legal -----

  lemma {:induction false} HoldsAgrees(w: Where, r: Row, s: Row)
    requires forall c :: c in Mentions(w) ==> (c in r <==> c in s) && (c in r ==> r[c] == s[c])
    ensures Holds(w, r) == Holds(w, s)
    decreases w
  {
    if w.Both? {
      HoldsAgrees(w.a, r, s);
      HoldsAgrees(w.b, r, s);
    }
  }

  /** Rows that agree on the columns an index looks at are equally distinct under it. */
  lemma DistinctAgrees(ix: Index, rows: seq<Row>, out: seq<Row>)
    requires |rows| == |out| && Distinct(ix, rows)
    requires forall i, c :: 0 <= i < |rows| && (c in ix.columns || c in Mentions(ix.where)) ==>
               (c in rows[i] <==> c in out[i]) && (c in rows[i] ==> rows[i][c] == out[i][c])
    ensures Distinct(ix, out)
  {
    forall i, j | 0 <= i < j < |out|
      ensures !Clash(ix, out[i], out[j])
    {
      HoldsAgrees(ix.where, rows[i], out[i]);
      HoldsAgrees(ix.where, rows[j], out[j]);
      assert !Clash(ix, rows[i], rows[j]);
    }
  }

  lemma HasIdAgrees(rows: seq<Row>, out: seq<Row>, v: Value)
    requires |rows| == |out| && HasId(rows, v)
    requires forall i :: 0 <= i < |rows| && Id in rows[i] ==> Id in out[i] && out[i][Id] == rows[i][Id]
    ensures HasId(out, v)
  {
  }

  /** Replacing one table's rows by rows that agree on every column in `kept`, and its columns
      by definitions that still cover `kept`, keeps every key and index on kept columns. */
  lemma RewriteKeepsKeys(db: Database, t: TableName, table: Table, kept: set<ColumnName>, n: KeyName)
    requires Consistent(db) && t in db.tables && n in db.keys && Id in kept
    requires kept <= db.tables[t].columns.Keys && kept <= table.columns.Keys && |table.rows| == |db.tables[t].rows|
    requires forall i, c :: 0 <= i < |table.rows| && c in kept ==>
               c in table.rows[i] && c in db.tables[t].rows[i] && table.rows[i][c] == db.tables[t].rows[i][c]
    requires db.keys[n].table == t ==> db.keys[n].column in kept
    ensures
      var next := PutTable(db, t, table);
      KeyDeclared(next, db.keys[n]) && KeyHolds(next, db.keys[n])
  {
    var next, k := PutTable(db, t, table), db.keys[n];
    assert KeyHolds(db, k);
    var rows := db.tables[k.table].rows;
    forall i | 0 <= i < |next.tables[k.table].rows|
      ensures
        var r := next.tables[k.table].rows[i];
        k.column in r && (r[k.column] == Null || HasId(next.tables[k.target].rows, r[k.column]))
    {
      var r := next.tables[k.table].rows[i];
      assert k.column in rows[i] && r[k.column] == rows[i][k.column];
      if r[k.column] != Null {
        HasIdAgrees(db.tables[k.target].rows, next.tables[k.target].rows, r[k.column]);
      }
    }
  }

  lemma RewriteKeepsIndexes(db: Database, t: TableName, table: Table, kept: set<ColumnName>, n: IndexName)
    requires Consistent(db) && t in db.tables && n in db.indexes
    requires kept <= db.tables[t].columns.Keys && kept <= table.columns.Keys && |table.rows| == |db.tables[t].rows|
    requires forall i, c :: 0 <= i < |table.rows| && c in kept ==>
               c in table.rows[i] && c in db.tables[t].rows[i] && table.rows[i][c] == db.tables[t].rows[i][c]
    requires db.indexes[n].table == t ==>
             (forall c :: c in db.indexes[n].columns ==> c in kept) && Mentions(db.indexes[n].where) <= kept
    ensures
      var next := PutTable(db, t, table);
      IndexDeclared(next, db.indexes[n]) && IndexHolds(next, db.indexes[n])
  {
    var next, ix := PutTable(db, t, table), db.indexes[n];
    assert IndexHolds(db, ix);
    if ix.table == t && ix.unique {
      DistinctAgrees(ix, db.tables[t].rows, table.rows);
    }
  }

  lemma RewriteConsistent(db: Database, t: TableName, table: Table, kept: set<ColumnName>)
    requires Consistent(db) && t in db.tables && TableOk(table) && Id in kept
    requires kept <= db.tables[t].columns.Keys && kept <= table.columns.Keys && |table.rows| == |db.tables[t].rows|
    requires forall i, c :: 0 <= i < |table.rows| && c in kept ==>
               c in table.rows[i] && c in db.tables[t].rows[i] && table.rows[i][c] == db.tables[t].rows[i][c]
    requires forall n :: n in db.keys && db.keys[n].table == t ==> db.keys[n].column in kept
    requires forall n :: n in db.indexes && db.indexes[n].table == t ==>
               (forall c :: c in db.indexes[n].columns ==> c in kept) && Mentions(db.indexes[n].where) <= kept
    ensures Consistent(PutTable(db, t, table))
  {
    forall n | n in db.keys
      ensures KeyDeclared(PutTable(db, t, table), db.keys[n]) && KeyHolds(PutTable(db, t, table), db.keys[n])
    {
      RewriteKeepsKeys(db, t, table, kept, n);
    }
    forall n | n in db.indexes
      ensures IndexDeclared(PutTable(db, t, table), db.indexes[n]) && IndexHolds(PutTable(db, t, table), db.indexes[n])
    {
      RewriteKeepsIndexes(db, t, table, kept, n);
    }
  }

  lemma CreateTableConsistent(db: Database, s: Statement)
    requires Consistent(db) && s.CreateTable? && Execute(db, s).Some?
    ensures Consistent(Execute(db, s).value)
  {
    var next := Execute(db, s).value;
    forall n | n in next.keys
      ensures KeyDeclared(next, next.keys[n]) && KeyHolds(next, next.keys[n])
    {
      if n !in s.keys {
        assert KeyDeclared(db, db.keys[n]) && KeyHolds(db, db.keys[n]);
      }
    }
    forall n | n in next.indexes
      ensures IndexDeclared(next, next.indexes[n]) && IndexHolds(next, next.indexes[n])
    {
      if n !in s.constraints {
        assert IndexDeclared(db, db.indexes[n]) && IndexHolds(db, db.indexes[n]);
      }
    }
  }

  lemma DropTableConsistent(db: Database, s: Statement)
    requires Consistent(db) && s.DropTable? && Execute(db, s).Some?
    ensures Consistent(Execute(db, s).value)
  {
    var next := Execute(db, s).value;
    forall n | n in next.keys
      ensures KeyDeclared(next, next.keys[n]) && KeyHolds(next, next.keys[n])
    {
      assert KeyDeclared(db, db.keys[n]) && KeyHolds(db, db.keys[n]) && n !in KeysOf(db, s.table);
    }
    forall n | n in next.indexes
      ensures IndexDeclared(next, next.indexes[n]) && IndexHolds(next, next.indexes[n])
    {
      assert IndexDeclared(db, db.indexes[n]) && IndexHolds(db, db.indexes[n]) && n !in IndexesOf(db, s.table);
    }
  }

  lemma WiderTableOk(before: Table, c: ColumnName, d: Column)
    requires TableOk(before) && c !in before.columns && (d.nullable || Fill(d) != Null || before.rows == [])
    ensures TableOk(Table(before.columns[c := d], WithColumn(before.rows, c, Fill(d))))
  {
    forall i | 0 <= i < |before.rows|
      ensures RowOk(before.columns[c := d], before.rows[i][c := Fill(d)])
    {
      assert RowOk(before.columns, before.rows[i]);
    }
  }

  lemma NarrowerIds(rows: seq<Row>, c: ColumnName)
    requires IdsDistinct(rows) && c != Id
    ensures IdsDistinct(WithoutColumn(rows, c))
  {
  }

  lemma NarrowerTableOk(before: Table, c: ColumnName)
    requires TableOk(before) && c != Id
    ensures TableOk(Table(before.columns - {c}, WithoutColumn(before.rows, c)))
  {
    NarrowerIds(before.rows, c);
    forall i | 0 <= i < |before.rows|
      ensures RowOk(before.columns - {c}, before.rows[i] - {c})
    {
      assert RowOk(before.columns, before.rows[i]);
    }
  }

  lemma RowsHaveColumns(t: Table)
    requires TableOk(t)
    ensures forall i :: 0 <= i < |t.rows| ==> t.rows[i].Keys == t.columns.Keys
  {
    forall i | 0 <= i < |t.rows|
      ensures t.rows[i].Keys == t.columns.Keys
    {
      assert RowOk(t.columns, t.rows[i]);
    }
  }

  lemma AddColumnConsistent(db: Database, s: Statement)
    requires Consistent(db) && s.AddColumn? && Execute(db, s).Some?
    ensures Consistent(Execute(db, s).value)
  {
    var before := db.tables[s.table];
    var after := Table(before.columns[s.column := s.definition], WithColumn(before.rows, s.column, Fill(s.definition)));
    assert TableOk(before);
    WiderTableOk(before, s.column, s.definition);
    RowsHaveColumns(before);
    assert forall n :: n in db.indexes ==> IndexDeclared(db, db.indexes[n]);
    RewriteConsistent(db, s.table, after, before.columns.Keys);
  }

  /** Fewer keys and indexes ask for less. */
  lemma FewerConstraints(db: Database, ks: set<KeyName>, xs: set<IndexName>)
    requires Consistent(db)
    ensures Consistent(db.(keys := db.keys - ks, indexes := db.indexes - xs))
  {
    var lean := db.(keys := db.keys - ks, indexes := db.indexes - xs);
    forall n | n in lean.keys
      ensures KeyDeclared(lean, lean.keys[n]) && KeyHolds(lean, lean.keys[n])
    {
      assert KeyDeclared(db, db.keys[n]) && KeyHolds(db, db.keys[n]);
    }
    forall n | n in lean.indexes
      ensures IndexDeclared(lean, lean.indexes[n]) && IndexHolds(lean, lean.indexes[n])
    {
      assert IndexDeclared(db, db.indexes[n]) && IndexHolds(db, db.indexes[n]);
    }
  }

  lemma DropColumnConsistent(db: Database, s: Statement)
    requires Consistent(db) && s.DropColumn? && Execute(db, s).Some?
    ensures Consistent(Execute(db, s).value)
  {
    var lean := db.(keys := db.keys - KeysOn(db, s.table, s.column),
                    indexes := db.indexes - IndexesOn(db, s.table, s.column));
    FewerConstraints(db, KeysOn(db, s.table, s.column), IndexesOn(db, s.table, s.column));
    var before := db.tables[s.table];
    var after := Table(before.columns - {s.column}, WithoutColumn(before.rows, s.column));
    assert TableOk(before);
    NarrowerTableOk(before, s.column);
    RowsHaveColumns(before);
    forall n | n in lean.indexes && lean.indexes[n].table == s.table
      ensures (forall c :: c in lean.indexes[n].columns ==> c in after.columns)
              && Mentions(lean.indexes[n].where) <= after.columns.Keys
    {
      assert IndexDeclared(lean, lean.indexes[n]) && n !in IndexesOn(db, s.table, s.column);
    }
    RewriteConsistent(lean, s.table, after, after.columns.Keys);
  }

  lemma SetNotNullConsistent(db: Database, s: Statement)
    requires Consistent(db) && s.SetNotNull? && Execute(db, s).Some?
    ensures Consistent(Execute(db, s).value)
  {
    var before := db.tables[s.table];
    var after := before.(columns := before.columns[s.column := before.columns[s.column].(nullable := false)]);
    assert TableOk(before);
    forall i | 0 <= i < |after.rows|
      ensures RowOk(after.columns, after.rows[i])
    {
      assert RowOk(before.columns, before.rows[i]);
    }
    assert forall n :: n in db.indexes ==> IndexDeclared(db, db.indexes[n]);
    RewriteConsistent(db, s.table, after, before.columns.Keys);
  }

  lemma KeyStatementConsistent(db: Database, s: Statement)
    requires Consistent(db) && (s.AddKey? || s.DropKey?) && Execute(db, s).Some?
    ensures Consistent(Execute(db, s).value)
  {
    var next := Execute(db, s).value;
    forall n | n in next.keys
      ensures KeyDeclared(next, next.keys[n]) && KeyHolds(next, next.keys[n])
    {
      if n in db.keys && next.keys[n] == db.keys[n] {
        assert KeyDeclared(db, db.keys[n]) && KeyHolds(db, db.keys[n]);
      }
    }
    forall n | n in next.indexes
      ensures IndexDeclared(next, next.indexes[n]) && IndexHolds(next, next.indexes[n])
    {
      assert IndexDeclared(db, db.indexes[n]) && IndexHolds(db, db.indexes[n]);
    }
  }

  lemma IndexStatementConsistent(db: Database, s: Statement)
    requires Consistent(db) && (s.CreateIndex? || s.DropIndex?) && Execute(db, s).Some?
    ensures Consistent(Execute(db, s).value)
  {
    var next := Execute(db, s).value;
    forall n | n in next.keys
      ensures KeyDeclared(next, next.keys[n]) && KeyHolds(next, next.keys[n])
    {
      assert KeyDeclared(db, db.keys[n]) && KeyHolds(db, db.keys[n]);
    }
    forall n | n in next.indexes
      ensures IndexDeclared(next, next.indexes[n]) && IndexHolds(next, next.indexes[n])
    {
      if n in db.indexes && next.indexes[n] == db.indexes[n] {
        assert IndexDeclared(db, db.indexes[n]) && IndexHolds(db, db.indexes[n]);
      }
    }
  }

  lemma ExecuteConsistent(db: Database, s: Statement)
    requires Consistent(db) && Execute(db, s).Some?
    ensures Consistent(Execute(db, s).value)
  {
    match s {
      case CreateTable(_, _, _, _) => CreateTableConsistent(db, s);
      case DropTable(_) => DropTableConsistent(db, s);
      case AddColumn(_, _, _) => AddColumnConsistent(db, s);
      case DropColumn(_, _) => DropColumnConsistent(db, s);
      case SetNotNull(_, _) => SetNotNullConsistent(db, s);
      case AddKey(_, _) => KeyStatementConsistent(db, s);
      case DropKey(_) => KeyStatementConsistent(db, s);
      case CreateIndex(_, _) => IndexStatementConsistent(db, s);
      case DropIndex(_) => IndexStatementConsistent(db, s);
      case CopyFrom(_, _, _, _) =>
      case SetWhere(_, _, _, _) =>
    }
  }

  /** At every step of every migration the database is legal. */
  lemma {:induction false} MigrateConsistent(db: Database, ss: seq<Statement>, k: nat)
    requires Consistent(db) && Migrate(db, ss).Some? && k <= |ss|
    ensures Migrate(db, ss[..k]).Some? && Consistent(Migrate(db, ss[..k]).value)
    decreases ss
  {
    if k > 0 {
      ExecuteConsistent(db, ss[0]);
      MigrateConsistent(Execute(db, ss[0]).value, ss[1..], k - 1);
      assert ss[..k][1..] == ss[1..][..k - 1];
    }
  }

  lemma {:induction false} MigrateConcat(db: Database, a: seq<Statement>, b: seq<Statement>)
    ensures Migrate(db, a + b) == match Migrate(db, a) case None => None case Some(mid) => Migrate(mid, b)
    decreases a
  {
    if a == [] {
      assert a + b == b;
    } else {
      assert (a + b)[1..] == a[1..] + b;
      if Execute(db, a[0]).Some? {
        MigrateConcat(Execute(db, a[0]).value, a[1..], b);
      }
    }
  }
}

/** What undoes a statement, and what a migration and its downgrade leave behind. */
module SchemaUndo {
  import opened Wrappers
  import opened Schema

  predicate Invertible(s: Statement) { s.CreateTable? || s.AddColumn? || s.AddKey? || s.CreateIndex? }

  function Undo(s: Statement): Statement
    requires Invertible(s)
  {
    match s
    case CreateTable(t, _, _, _) => DropTable(t)
    case AddColumn(t, c, _) => DropColumn(t, c)
    case AddKey(n, _) => DropKey(n)
    case CreateIndex(n, _) => DropIndex(n)
  }

  ghost predicate AllInvertible(ss: seq<Statement>) { forall i :: 0 <= i < |ss| ==> Invertible(ss[i]) }

  /** The statements' inverses, last first. */
  ghost function UndoAll(ss: seq<Statement>): seq<Statement>
    requires AllInvertible(ss)
  {
    if ss == [] then [] else UndoAll(ss[1..]) + [Undo(ss[0])]
  }

  lemma {:induction false} UndoAllConcat(a: seq<Statement>, b: seq<Statement>)
    requires AllInvertible(a) && AllInvertible(b)
    ensures AllInvertible(a + b) && UndoAll(a + b) == UndoAll(b) + UndoAll(a)
    decreases a
  {
    if a == [] {
      assert a + b == b;
    } else {
      assert (a + b)[1..] == a[1..] + b;
      UndoAllConcat(a[1..], b);
    }
  }

  /** The names of a new table are the only ones that mention it. */
  lemma NewNamesOnly(db: Database, next: Database, s: Statement)
    requires Declared(db) && s.CreateTable? && Execute(db, s) == Some(next)
    ensures KeysOf(next, s.table) == s.keys.Keys && IndexesOf(next, s.table) == s.constraints.Keys
    ensures !Referenced(next, s.table)
  {
    forall n | n in db.keys
      ensures db.keys[n].table != s.table && db.keys[n].target != s.table
    {
      assert KeyDeclared(db, db.keys[n]);
    }
    forall n | n in db.indexes
      ensures db.indexes[n].table != s.table
    {
      assert IndexDeclared(db, db.indexes[n]);
    }
  }

  lemma AddedAndRemoved<K, V>(m: map<K, V>, more: map<K, V>)
    requires m.Keys !! more.Keys
    ensures (m + more) - more.Keys == m
  {
  }

  lemma UndoFirst(s: Statement, ss: seq<Statement>)
    requires Invertible(s) && AllInvertible(ss)
    ensures AllInvertible([s] + ss) && UndoAll([s] + ss) == UndoAll(ss) + [Undo(s)]
  {
  }

  lemma UndoCreateTable(db: Database, s: Statement)
    requires Consistent(db) && s.CreateTable? && Execute(db, s).Some?
    ensures Execute(Execute(db, s).value, Undo(s)) == Some(db)
  {
    var next := Execute(db, s).value;
    ConsistentDeclared(db);
    NewNamesOnly(db, next, s);
    AddedAndRemoved(db.keys, s.keys);
    AddedAndRemoved(db.indexes, s.constraints);
    assert next.tables - {s.table} == db.tables;
  }

  /** Every key and index names existing tables and columns. */
  ghost predicate Declared(db: Database) {
    && (forall n :: n in db.keys ==> KeyDeclared(db, db.keys[n]))
    && (forall n :: n in db.indexes ==> IndexDeclared(db, db.indexes[n]))
  }

  lemma ConsistentDeclared(db: Database)
    requires Consistent(db)
    ensures Declared(db)
  {
  }

  lemma ColumnAddedAndDropped(table: Table, c: ColumnName, v: Value)
    requires TableOk(table) && c !in table.columns
    ensures WithoutColumn(WithColumn(table.rows, c, v), c) == table.rows
  {
    var back := WithoutColumn(WithColumn(table.rows, c, v), c);
    forall i | 0 <= i < |back|
      ensures back[i] == table.rows[i]
    {
      assert RowOk(table.columns, table.rows[i]);
    }
  }

  lemma DropAddedColumn(db: Database, next: Database, t: TableName, c: ColumnName, d: Column)
    requires Declared(db) && t in db.tables && TableOk(db.tables[t]) && c !in db.tables[t].columns
    requires next == PutTable(db, t, Table(db.tables[t].columns[c := d], WithColumn(db.tables[t].rows, c, Fill(d))))
    ensures Execute(next, DropColumn(t, c)) == Some(db)
  {
    NothingOnNewColumn(db, next, t, c);
    ColumnAddedAndDropped(db.tables[t], c, Fill(d));
    ColumnMapRestored(db.tables[t].columns, c, d);
    PutBack(db, t, next.tables[t]);
  }

  lemma NothingOnNewColumn(db: Database, next: Database, t: TableName, c: ColumnName)
    requires Declared(db) && t in db.tables && c !in db.tables[t].columns
    requires next.keys == db.keys && next.indexes == db.indexes
    ensures next.keys - KeysOn(next, t, c) == db.keys && next.indexes - IndexesOn(next, t, c) == db.indexes
  {
  }

  lemma ColumnMapRestored(columns: map<ColumnName, Column>, c: ColumnName, d: Column)
    requires c !in columns
    ensures columns[c := d] - {c} == columns
  {
  }

  lemma UndoAddColumn(db: Database, s: Statement)
    requires Consistent(db) && s.AddColumn? && Execute(db, s).Some?
    ensures Execute(Execute(db, s).value, Undo(s)) == Some(db)
  {
    ConsistentDeclared(db);
    assert TableOk(db.tables[s.table]);
    DropAddedColumn(db, Execute(db, s).value, s.table, s.column, s.definition);
  }

  lemma PutBack(db: Database, t: TableName, table: Table)
    requires t in db.tables
    ensures PutTable(PutTable(db, t, table), t, db.tables[t]) == db
  {
  }

  lemma UndoStep(db: Database, s: Statement)
    requires Consistent(db) && Invertible(s) && Execute(db, s).Some?
    ensures Execute(Execute(db, s).value, Undo(s)) == Some(db)
  {
    match s {
      case CreateTable(_, _, _, _) => UndoCreateTable(db, s);
      case AddColumn(_, _, _) => UndoAddColumn(db, s);
      case AddKey(n, k) => assert db.keys[n := k] - {n} == db.keys;
      case CreateIndex(n, ix) => assert db.indexes[n := ix] - {n} == db.indexes;
    }
  }

  /** Undoing in reverse order gives back the very database the migration started from. */
  lemma {:induction false} RoundTrip(db: Database, ss: seq<Statement>)
    requires Consistent(db) && AllInvertible(ss) && Migrate(db, ss).Some?
    ensures Migrate(Migrate(db, ss).value, UndoAll(ss)) == Some(db)
    decreases ss
  {
    if ss != [] {
      var mid := Execute(db, ss[0]).value;
      ExecuteConsistent(db, ss[0]);
      RoundTrip(mid, ss[1..]);
      MigrateConcat(Migrate(db, ss).value, UndoAll(ss[1..]), [Undo(ss[0])]);
      UndoStep(db, ss[0]);
      MigrateOne(mid, Undo(ss[0]));
    }
  }

  lemma MigrateOne(db: Database, s: Statement)
    ensures Migrate(db, [s]) == Execute(db, s)
  {
  }

  // ----- blocks that cannot fail -----

  /** How the migrations index a table; the name follows from the columns. */
  datatype IndexSpec =
    | Plain(column: ColumnName) | Pair(column: ColumnName, second: ColumnName)
    | UniqueIx(column: ColumnName) | UniquePair(column: ColumnName, second: ColumnName)
    | Partial(column: ColumnName, where: Where)

  function NameOf(t: TableName, x: IndexSpec): IndexName {
    match x
    case Plain(c) => Ix(t, c)
    case Pair(a, b) => Ix2(t, a, b)
    case UniqueIx(c) => Ix(t, c)
    case UniquePair(a, b) => Uq2(t, a, b)
    case Partial(c, _) => Uq(t, c)
  }

  function IndexOf(t: TableName, x: IndexSpec): Index {
    match x
    case Plain(c) => Index(t, [c], false, Everywhere)
    case Pair(a, b) => Index(t, [a, b], false, Everywhere)
    case UniqueIx(c) => Index(t, [c], true, Everywhere)
    case UniquePair(a, b) => Index(t, [a, b], true, Everywhere)
    case Partial(c, w) => Index(t, [c], true, w)
  }

  function Creates(t: TableName, xs: seq<IndexSpec>): (out: seq<Statement>)
    ensures |out| == |xs| && forall i :: 0 <= i < |xs| ==> out[i] == CreateIndex(NameOf(t, xs[i]), IndexOf(t, xs[i]))
  {
    if xs == [] then [] else [CreateIndex(NameOf(t, xs[0]), IndexOf(t, xs[0]))] + Creates(t, xs[1..])
  }

  function DropNames(t: TableName, xs: seq<IndexSpec>): (out: seq<Statement>)
    ensures |out| == |xs| && forall i :: 0 <= i < |xs| ==> out[i] == DropIndex(NameOf(t, xs[i]))
  {
    if xs == [] then [] else [DropIndex(NameOf(t, xs[0]))] + DropNames(t, xs[1..])
  }

  predicate Mirror(a: seq<IndexSpec>, b: seq<IndexSpec>) {
    |a| == |b| && forall i :: 0 <= i < |a| ==> b[i] == a[|a| - 1 - i]
  }

  /** Dropping in the mirrored order is undoing the creations. */
  lemma {:induction false} UndoCreates(t: TableName, up: seq<IndexSpec>, down: seq<IndexSpec>)
    requires Mirror(up, down)
    ensures AllInvertible(Creates(t, up)) && UndoAll(Creates(t, up)) == DropNames(t, down)
    decreases up
  {
    if up != [] {
      var n := |up| - 1;
      UndoCreates(t, up[1..], down[..n]);
      assert Creates(t, up)[1..] == Creates(t, up[1..]);
      assert DropNames(t, down) == DropNames(t, down[..n]) + [DropIndex(NameOf(t, down[n]))];
    }
  }

  /** A table statement followed by its indexes, undone by dropping both in reverse. */
  lemma UndoTable(create: Statement, up: seq<IndexSpec>, down: seq<IndexSpec>)
    requires create.CreateTable? && Mirror(up, down)
    ensures AllInvertible([create] + Creates(create.table, up))
    ensures UndoAll([create] + Creates(create.table, up)) == DropNames(create.table, down) + [DropTable(create.table)]
  {
    UndoCreates(create.table, up, down);
    UndoAllConcat([create], Creates(create.table, up));
    assert [create][1..] == [];
    assert UndoAll([create]) == UndoAll([]) + [Undo(create)] == [DropTable(create.table)];
  }

  /** The new index names are free and differ from one another. */
  ghost predicate NewNames(db: Database, t: TableName, xs: seq<IndexSpec>) {
    && (forall i :: 0 <= i < |xs| ==> NameOf(t, xs[i]) !in db.indexes)
    && (forall i, j :: 0 <= i < j < |xs| ==> NameOf(t, xs[i]) != NameOf(t, xs[j]))
  }

  ghost predicate Indexable(db: Database, t: TableName, x: IndexSpec) {
    IndexDeclared(db, IndexOf(t, x)) && IndexHolds(db, IndexOf(t, x))
  }

  /** Only index names of table `t` have been added. */
  ghost predicate OnlyIndexesOf(db: Database, next: Database, t: TableName) {
    && next.tables == db.tables && next.keys == db.keys && db.indexes.Keys <= next.indexes.Keys
    && forall n :: n in next.indexes && n !in db.indexes ==> n.table == t
  }

  lemma StillIndexable(db: Database, next: Database, t: TableName, x: IndexSpec)
    requires next.tables == db.tables && Indexable(db, t, x)
    ensures Indexable(next, t, x)
  {
  }

  lemma CreateOne(db: Database, t: TableName, x: IndexSpec)
    requires NameOf(t, x) !in db.indexes && Indexable(db, t, x)
    ensures Execute(db, CreateIndex(NameOf(t, x), IndexOf(t, x)))
            == Some(db.(indexes := db.indexes[NameOf(t, x) := IndexOf(t, x)]))
  {
  }

  lemma CreatesFirst(t: TableName, xs: seq<IndexSpec>)
    requires xs != []
    ensures Creates(t, xs)[0] == CreateIndex(NameOf(t, xs[0]), IndexOf(t, xs[0]))
            && Creates(t, xs)[1..] == Creates(t, xs[1..])
  {
  }

  lemma NamesStayNew(db: Database, t: TableName, xs: seq<IndexSpec>)
    requires xs != [] && NewNames(db, t, xs)
    ensures NewNames(db.(indexes := db.indexes[NameOf(t, xs[0]) := IndexOf(t, xs[0])]), t, xs[1..])
  {
  }

  ghost predicate AllIndexable(db: Database, t: TableName, xs: seq<IndexSpec>) {
    forall i :: 0 <= i < |xs| ==> Indexable(db, t, xs[i])
  }

  lemma RestIndexable(db: Database, next: Database, t: TableName, xs: seq<IndexSpec>)
    requires xs != [] && AllIndexable(db, t, xs) && next.tables == db.tables
    ensures AllIndexable(next, t, xs[1..])
  {
    forall i | 0 <= i < |xs[1..]|
      ensures Indexable(next, t, xs[1..][i])
    {
      StillIndexable(db, next, t, xs[i + 1]);
    }
  }

  lemma OnlyIndexesChain(db: Database, t: TableName, x: IndexSpec, end: Database)
    requires OnlyIndexesOf(db.(indexes := db.indexes[NameOf(t, x) := IndexOf(t, x)]), end, t)
    ensures OnlyIndexesOf(db, end, t)
  {
    assert NameOf(t, x).table == t;
  }

  /** Index statements whose data already complies cannot fail. */
  lemma {:induction false} CreatesSucceed(db: Database, t: TableName, xs: seq<IndexSpec>)
    requires NewNames(db, t, xs) && AllIndexable(db, t, xs)
    ensures Migrate(db, Creates(t, xs)).Some? && OnlyIndexesOf(db, Migrate(db, Creates(t, xs)).value, t)
    decreases xs
  {
    if xs != [] {
      var next := db.(indexes := db.indexes[NameOf(t, xs[0]) := IndexOf(t, xs[0])]);
      CreateOne(db, t, xs[0]);
      CreatesFirst(t, xs);
      RestIndexable(db, next, t, xs);
      NamesStayNew(db, t, xs);
      CreatesSucceed(next, t, xs[1..]);
      OnlyIndexesChain(db, t, xs[0], Migrate(next, Creates(t, xs[1..])).value);
    }
  }

  ghost predicate Fits(columns: map<ColumnName, Column>, t: TableName, x: IndexSpec) {
    (forall c :: c in IndexOf(t, x).columns ==> c in columns) && Mentions(IndexOf(t, x).where) <= columns.Keys
  }

  /** The database with one new, empty table, its keys, and index names of that table. */
  ghost predicate WithTable(db: Database, next: Database, create: Statement)
    requires create.CreateTable?
  {
    && next.tables == db.tables[create.table := Table(create.columns, [])]
    && next.keys == db.keys + create.keys && db.indexes.Keys <= next.indexes.Keys
    && forall n :: n in next.indexes && n !in db.indexes && n !in create.constraints ==> n.table == create.table
  }

  /** A new table and its indexes cannot fail when the names are free. */
  lemma TableBlockSucceeds(db: Database, create: Statement, xs: seq<IndexSpec>)
    requires create.CreateTable? && create.table !in db.tables
    requires NewTableOk(db, create.table, create.columns, create.keys, create.constraints)
    requires NewNames(db, create.table, xs)
    requires forall i :: 0 <= i < |xs| ==>
             Fits(create.columns, create.table, xs[i]) && NameOf(create.table, xs[i]) !in create.constraints
    ensures Migrate(db, [create] + Creates(create.table, xs)).Some?
    ensures WithTable(db, Migrate(db, [create] + Creates(create.table, xs)).value, create)
  {
    assert Execute(db, create).Some?;
    var next := Execute(db, create).value;
    assert ([create] + Creates(create.table, xs))[1..] == Creates(create.table, xs);
    forall i | 0 <= i < |xs|
      ensures Indexable(next, create.table, xs[i])
    {
      assert Fits(create.columns, create.table, xs[i]);
    }
    CreatesSucceed(next, create.table, xs);
  }

  // ----- columns added, filled and dropped -----

  function Stripped(rows: seq<Row>, cs: set<ColumnName>): (out: seq<Row>)
    ensures |out| == |rows| && forall i :: 0 <= i < |rows| ==> out[i] == rows[i] - cs
  {
    if rows == [] then [] else [rows[0] - cs] + Stripped(rows[1..], cs)
  }

  /** The database without columns `cs` of table `t`. */
  function Bare(db: Database, t: TableName, cs: set<ColumnName>): Database
    requires t in db.tables
  {
    PutTable(db, t, Table(db.tables[t].columns - cs, Stripped(db.tables[t].rows, cs)))
  }

  /** Statements that only add, fill, tighten or drop columns `cs` of `t`. */
  predicate ColumnWork(s: Statement, t: TableName, cs: set<ColumnName>) {
    match s
    case AddColumn(t', c, _) => t' == t && c in cs
    case DropColumn(t', c) => t' == t && c in cs
    case SetNotNull(t', c) => t' == t && c in cs
    case CopyFrom(t', _, _, copied) => t' == t && copied <= cs
    case SetWhere(t', c, _, _) => t' == t && c in cs
    case _ => false
  }

  /** No key and no index involves the columns. */
  ghost predicate Quiet(db: Database, t: TableName, cs: set<ColumnName>) {
    && (forall n :: n in db.keys && db.keys[n].table == t ==> db.keys[n].column !in cs)
    && (forall n, c :: n in db.indexes && c in cs ==> !Uses(db.indexes[n], t, c))
  }

  lemma BareRows(rows: seq<Row>, out: seq<Row>, cs: set<ColumnName>)
    requires |rows| == |out| && forall i :: 0 <= i < |rows| ==> rows[i] - cs == out[i] - cs
    ensures Stripped(rows, cs) == Stripped(out, cs)
  {
  }

  lemma SameBare(db: Database, next: Database, t: TableName, table: Table, cs: set<ColumnName>)
    requires t in db.tables && next == PutTable(db, t, table) && |table.rows| == |db.tables[t].rows|
    requires table.columns - cs == db.tables[t].columns - cs
    requires forall i :: 0 <= i < |table.rows| ==> table.rows[i] - cs == db.tables[t].rows[i] - cs
    ensures Bare(next, t, cs) == Bare(db, t, cs)
  {
    BareRows(table.rows, db.tables[t].rows, cs);
    var bare := Bare(db, t, cs).tables[t];
    assert db.tables[t := table][t := bare] == db.tables[t := bare];
  }

  lemma DropColumnKeepsBare(db: Database, s: Statement, t: TableName, cs: set<ColumnName>)
    requires t in db.tables && s.DropColumn? && ColumnWork(s, t, cs) && Execute(db, s).Some? && Quiet(db, t, cs)
    ensures
      var next := Execute(db, s).value;
      t in next.tables && next.keys == db.keys && next.indexes == db.indexes && Bare(next, t, cs) == Bare(db, t, cs)
  {
    assert KeysOn(db, t, s.column) == {} && IndexesOn(db, t, s.column) == {};
    assert db.keys - {} == db.keys && db.indexes - {} == db.indexes;
    var next := Execute(db, s).value;
    SameBare(db, next, t, next.tables[t], cs);
  }

  lemma CopyKeepsBare(db: Database, s: Statement, t: TableName, cs: set<ColumnName>)
    requires t in db.tables && s.CopyFrom? && ColumnWork(s, t, cs) && Execute(db, s).Some?
    ensures
      var next := Execute(db, s).value;
      t in next.tables && next.keys == db.keys && next.indexes == db.indexes && Bare(next, t, cs) == Bare(db, t, cs)
  {
    var rows := db.tables[t].rows;
    var out := CopyRows(rows, s.via, db.tables[s.source].rows, s.copied);
    SameBare(db, Execute(db, s).value, t, db.tables[t].(rows := out), cs);
  }

  lemma SetKeepsBare(db: Database, s: Statement, t: TableName, cs: set<ColumnName>)
    requires t in db.tables && s.SetWhere? && ColumnWork(s, t, cs) && Execute(db, s).Some?
    ensures
      var next := Execute(db, s).value;
      t in next.tables && next.keys == db.keys && next.indexes == db.indexes && Bare(next, t, cs) == Bare(db, t, cs)
  {
    var out := SetRows(db.tables[t].rows, s.column, s.value, s.where);
    SameBare(db, Execute(db, s).value, t, db.tables[t].(rows := out), cs);
  }

  lemma ColumnWorkKeepsBare(db: Database, s: Statement, t: TableName, cs: set<ColumnName>)
    requires t in db.tables && ColumnWork(s, t, cs) && Execute(db, s).Some? && Quiet(db, t, cs)
    ensures
      var next := Execute(db, s).value;
      t in next.tables && Quiet(next, t, cs) && Bare(next, t, cs) == Bare(db, t, cs)
  {
    var next := Execute(db, s).value;
    match s {
      case DropColumn(_, _) => DropColumnKeepsBare(db, s, t, cs);
      case CopyFrom(_, _, _, _) => CopyKeepsBare(db, s, t, cs);
      case SetWhere(_, _, _, _) => SetKeepsBare(db, s, t, cs);
      case AddColumn(_, _, _) => SameBare(db, next, t, next.tables[t], cs);
      case SetNotNull(_, _) => SameBare(db, next, t, next.tables[t], cs);
    }
  }

  lemma {:induction false} ColumnWorksKeepBare(db: Database, ss: seq<Statement>, t: TableName, cs: set<ColumnName>)
    requires t in db.tables && Migrate(db, ss).Some? && Quiet(db, t, cs)
    requires forall i :: 0 <= i < |ss| ==> ColumnWork(ss[i], t, cs)
    ensures
      var end := Migrate(db, ss).value;
      t in end.tables && Quiet(end, t, cs) && Bare(end, t, cs) == Bare(db, t, cs)
    decreases ss
  {
    if ss != [] {
      ColumnWorkKeepsBare(db, ss[0], t, cs);
      ColumnWorksKeepBare(Execute(db, ss[0]).value, ss[1..], t, cs);
    }
  }

  lemma BareOfAbsent(db: Database, t: TableName, cs: set<ColumnName>)
    requires Declared(db) && t in db.tables && TableOk(db.tables[t]) && db.tables[t].columns.Keys !! cs
    ensures Bare(db, t, cs) == db && Quiet(db, t, cs)
  {
    var table := db.tables[t];
    forall i | 0 <= i < |table.rows|
      ensures table.rows[i] - cs == table.rows[i]
    {
      assert RowOk(table.columns, table.rows[i]);
    }
    assert Stripped(table.rows, cs) == table.rows;
    assert table.columns - cs == table.columns;
    assert db.tables[t := table] == db.tables;
  }

  function Drops(t: TableName, cs: seq<ColumnName>): seq<Statement> {
    if cs == [] then [] else [DropColumn(t, cs[0])] + Drops(t, cs[1..])
  }

  lemma {:induction false} DropsSucceed(db: Database, t: TableName, cs: seq<ColumnName>)
    requires t in db.tables && (forall i :: 0 <= i < |cs| ==> cs[i] in db.tables[t].columns && cs[i] != Id)
    requires forall i, j :: 0 <= i < j < |cs| ==> cs[i] != cs[j]
    ensures Migrate(db, Drops(t, cs)).Some?
    ensures
      var end := Migrate(db, Drops(t, cs)).value;
      t in end.tables && end.tables[t].columns.Keys == db.tables[t].columns.Keys - (set c | c in cs)
    decreases cs
  {
    if cs != [] {
      var next := Execute(db, DropColumn(t, cs[0])).value;
      assert Drops(t, cs)[1..] == Drops(t, cs[1..]);
      DropsSucceed(next, t, cs[1..]);
      assert (set c | c in cs) == {cs[0]} + set c | c in cs[1..];
    }
  }

  lemma {:induction false} DropsAreColumnWork(t: TableName, cs: seq<ColumnName>, all: set<ColumnName>)
    requires forall i :: 0 <= i < |cs| ==> cs[i] in all
    ensures forall i :: 0 <= i < |Drops(t, cs)| ==> ColumnWork(Drops(t, cs)[i], t, all)
    decreases cs
  {
    if cs != [] {
      DropsAreColumnWork(t, cs[1..], all);
    }
  }

  /** Add columns, fill and tighten them; then drop them all: nothing is left of the work. */
  lemma ColumnsRoundTrip(db: Database, ss: seq<Statement>, t: TableName, cs: seq<ColumnName>)
    requires Consistent(db) && t in db.tables && Migrate(db, ss).Some?
    requires db.tables[t].columns.Keys !! (set c | c in cs)
    requires forall i :: 0 <= i < |ss| ==> ColumnWork(ss[i], t, set c | c in cs)
    requires t in Migrate(db, ss).value.tables && Consistent(Migrate(db, ss).value)
    requires forall i :: 0 <= i < |cs| ==> cs[i] in Migrate(db, ss).value.tables[t].columns && cs[i] != Id
    requires forall i, j :: 0 <= i < j < |cs| ==> cs[i] != cs[j]
    ensures Migrate(Migrate(db, ss).value, Drops(t, cs)) == Some(db)
  {
    var all := set c | c in cs;
    var mid := Migrate(db, ss).value;
    ConsistentDeclared(db);
    BareOfAbsent(db, t, all);
    ColumnWorksKeepBare(db, ss, t, all);
    DropsSucceed(mid, t, cs);
    DropsAreColumnWork(t, cs, all);
    ColumnWorksKeepBare(mid, Drops(t, cs), t, all);
    DroppedIsBare(mid, Drops(t, cs), t, all);
  }

  /** Once the columns are gone, taking them away changes nothing. */
  lemma DroppedIsBare(mid: Database, down: seq<Statement>, t: TableName, all: set<ColumnName>)
    requires Consistent(mid) && Migrate(mid, down).Some? && t in Migrate(mid, down).value.tables
    requires Migrate(mid, down).value.tables[t].columns.Keys !! all
    ensures Bare(Migrate(mid, down).value, t, all) == Migrate(mid, down).value
  {
    var end := Migrate(mid, down).value;
    assert down[..|down|] == down;
    MigrateConsistent(mid, down, |down|);
    ConsistentDeclared(end);
    BareOfAbsent(end, t, all);
  }
}
