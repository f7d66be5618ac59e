/** Revision 0030: RADIUS clients take the organization and location of their router, a status
    derived from is_active, a unique code, and a table of code counters. */
module NasClients {
  import opened Wrappers
  import opened Schema
  import opened SchemaUndo
  import opened BaseModel
  import opened ColumnFill

  const Nas := RadiusNasClients
  const Counters := RadiusNasCodeCounters

  function NewColumns(): seq<NewColumn> {
    [NewColumn(OrganizationId, NullableRef()),
     NewColumn(LocationId, NullableRef()),
     NewColumn(NasCode, Column(Varchar(80), true, NoDefault)),
     NewColumn(Status, Column(Varchar(20), false, Constant(Text("active")))),
     NewColumn(Name, Column(Varchar(200), true, NoDefault)),
     NewColumn(Description, Column(LongText, true, NoDefault)),
     NewColumn(IpAddress, Column(Varchar(45), true, NoDefault)),
     NewColumn(Vendor, Column(Varchar(50), false, Constant(Text("MikroTik"))))]
  }

  function ColumnDrops(): seq<ColumnName> {
    [Vendor, IpAddress, Description, Name, Status, NasCode, LocationId, OrganizationId]
  }

  function News(): set<ColumnName> { Names(NewColumns()) }

  const Inactive := Equals(IsActive, Flag(false))

  const OrganizationKey := ForeignKey(Nas, OrganizationId, Organizations, Cascade)
  const LocationKey := ForeignKey(Nas, LocationId, Locations, Cascade)
  const AddOrganizationKey := AddKey(Fk(Nas, OrganizationId), OrganizationKey)
  const AddLocationKey := AddKey(Fk(Nas, LocationId), LocationKey)

  function NasIndexes(): seq<IndexSpec> {
    [Plain(OrganizationId), Plain(LocationId), Partial(NasCode, NotNull(NasCode)), Plain(Status)]
  }

  function NasDrops(): seq<IndexSpec> {
    [Plain(Status), Partial(NasCode, NotNull(NasCode)), Plain(LocationId), Plain(OrganizationId)]
  }

  function CreateCounters(): Statement {
    CreateTable(Counters,
      BaseColumns() + map[CounterKey := Column(Varchar(80), false, NoDefault),
                          LastValue := Column(Integer, false, Constant(Number(0)))],
      map[],
      map[Uq(Counters, CounterKey) := Index(Counters, [CounterKey], true, Everywhere)])
  }

  function CounterIndexes(): seq<IndexSpec> { BaseIndexes() + [UniqueIx(CounterKey)] }
  function CounterDrops(): seq<IndexSpec> { [UniqueIx(CounterKey)] + BaseDrops() }

  function CounterBlock(): seq<Statement> { [CreateCounters()] + Creates(Counters, CounterIndexes()) }

  function Work(): seq<Statement> {
    Adds(Nas, NewColumns())
        + Refinement(Nas, RouterId, Routers, OrganizationId, LocationId, Status, Text("disabled"), Inactive)
  }

  function Extras(): seq<Statement> {
    [AddOrganizationKey] + ([AddLocationKey] + (Creates(Nas, NasIndexes()) + CounterBlock()))
  }

  function Upgrade(): seq<Statement> { Work() + Extras() }

  function Downgrade(): seq<Statement> {
    ((((DropNames(Counters, CounterDrops()) + [DropTable(Counters)]) + DropNames(Nas, NasDrops()))
      + [DropKey(Fk(Nas, LocationId))]) + [DropKey(Fk(Nas, OrganizationId))])
    + Drops(Nas, ColumnDrops())
  }

  /** The constraints earlier revisions put on routers and their RADIUS clients. */
  ghost predicate Constrained(db: Database) {
    && Joinable(db, Nas, Fk(Nas, RouterId), RouterId, Routers, {OrganizationId, LocationId})
    && Fk(Routers, OrganizationId) in db.keys
    && db.keys[Fk(Routers, OrganizationId)] == ForeignKey(Routers, OrganizationId, Organizations, Cascade)
    && Fk(Routers, LocationId) in db.keys
    && db.keys[Fk(Routers, LocationId)] == ForeignKey(Routers, LocationId, Locations, Cascade)
    && IsActive in db.tables[Nas].columns
  }

  ghost predicate LacksNames(db: Database) {
    && Fk(Nas, OrganizationId) !in db.keys && Fk(Nas, LocationId) !in db.keys && Free(db, Nas, NasIndexes())
    && Counters !in db.tables && Free(db, Counters, CounterIndexes()) && Uq(Counters, CounterKey) !in db.indexes
  }

  /** The names the revision introduces are free. */
  ghost predicate Lacks(db: Database)
    requires Nas in db.tables
  {
    db.tables[Nas].columns.Keys !! News() && LacksNames(db)
  }

  ghost predicate AgreesWithRouter(nas: Row, router: Row) {
    && OrganizationId in nas && OrganizationId in router && nas[OrganizationId] == router[OrganizationId]
        && nas[OrganizationId] != Null
    && LocationId in nas && LocationId in router && nas[LocationId] == router[LocationId] && nas[LocationId] != Null
  }

  ghost predicate EveryNasAgrees(db: Database)
    requires Nas in db.tables && Routers in db.tables
  {
    var clients, routers := db.tables[Nas].rows, db.tables[Routers].rows;
    forall i, j :: 0 <= i < |clients| && 0 <= j < |routers|
                   && RouterId in clients[i] && Id in routers[j] && routers[j][Id] == clients[i][RouterId] ==>
      AgreesWithRouter(clients[i], routers[j])
  }

  /** Disabled exactly where the client was inactive, active everywhere else. */
  ghost predicate StatusFollowsActivity(rows: seq<Row>) {
    forall i :: 0 <= i < |rows| ==>
      && Status in rows[i] && IsActive in rows[i]
      && rows[i][Status] == if rows[i][IsActive] == Flag(false) then Text("disabled") else Text("active")
  }

  // ----- the column work -----

  lemma ColumnNames(k: nat)
    requires k < |NewColumns()|
    ensures NewColumns()[k].definition.nullable || Fill(NewColumns()[k].definition) != Null
    ensures NewColumns()[k].name != Id && forall l :: k < l < |NewColumns()| ==>
            NewColumns()[k].name != NewColumns()[l].name
  {
  }

  lemma FourAreNew()
    ensures OrganizationId in News() && LocationId in News() && NasCode in News() && Status in News()
  {
    var ns := NewColumns();
    assert ns[0] in ns && ns[1] in ns && ns[2] in ns && ns[3] in ns;
  }

  lemma ColumnsAddable(table: Table)
    requires table.columns.Keys !! News()
    ensures Addable(table, NewColumns())
  {
  }

  ghost predicate Worked(db: Database, mid: Database) { WorkedWith(db, mid, News()) }

  ghost predicate WorkedWith(db: Database, mid: Database, news: set<ColumnName>) {
    && Staged(db, mid, Nas, news) && Routers in db.tables && OrganizationId in news && LocationId in news
    && Joined(mid.tables[Nas].rows, RouterId, db.tables[Routers].rows, {OrganizationId, LocationId})
    && SetBy(db.tables[Nas].rows, mid.tables[Nas].rows, Status, Text("disabled"), Inactive, Text("active"))
    && Filled(mid.tables[Nas].rows, NasCode, Null) && Filled(mid.tables[Nas].rows, Vendor, Text("MikroTik"))
    && !mid.tables[Nas].columns[OrganizationId].nullable && !mid.tables[Nas].columns[LocationId].nullable
  }

  lemma WorkSucceeds(db: Database)
    requires Consistent(db) && Constrained(db) && Lacks(db)
    ensures Migrate(db, Work()).Some? && Worked(db, Migrate(db, Work()).value)
  {
    FourAreNew();
    StatusAndCode();
    ColumnsAddable(db.tables[Nas]);
    ActivityMentioned(db.tables[Nas]);
    WorkOn(db, NewColumns(), 3, 2, 7);
  }

  lemma ActivityMentioned(table: Table)
    requires IsActive in table.columns
    ensures Mentions(Inactive) <= table.columns.Keys
  {
  }

  lemma WorkOn(db: Database, ns: seq<NewColumn>, k: nat, m: nat, v: nat)
    requires Consistent(db) && Joinable(db, Nas, Fk(Nas, RouterId), RouterId, Routers, {OrganizationId, LocationId})
    requires Addable(db.tables[Nas], ns) && Mentions(Inactive) <= db.tables[Nas].columns.Keys
    requires OrganizationId in Names(ns) && LocationId in Names(ns) && k < |ns| && m < |ns|
             && v < |ns|
    requires ns[k].name == Status && Fill(ns[k].definition) == Text("active")
    requires ns[m].name == NasCode && Fill(ns[m].definition) == Null
    requires ns[v].name == Vendor && Fill(ns[v].definition) == Text("MikroTik")
    ensures
      var work := Adds(Nas, ns)
          + Refinement(Nas, RouterId, Routers, OrganizationId, LocationId, Status, Text("disabled"), Inactive);
      Migrate(db, work).Some? && WorkedWith(db, Migrate(db, work).value, Names(ns))
  {
    RefinementSucceeds(db, Nas, ns, Fk(Nas, RouterId), RouterId, Routers, OrganizationId, LocationId, Status,
                       Text("disabled"), Inactive, k);
    var work := Adds(Nas, ns)
        + Refinement(Nas, RouterId, Routers, OrganizationId, LocationId, Status, Text("disabled"), Inactive);
    WorkedWhen(db, Migrate(db, work).value, ns, m, v);
  }

  lemma WorkedWhen(db: Database, mid: Database, ns: seq<NewColumn>, m: nat, v: nat)
    requires Refined(db, mid, Nas, ns, RouterId, Routers, OrganizationId, LocationId, Status, Text("disabled"),
             Inactive, Text("active"))
    requires OrganizationId in Names(ns) && LocationId in Names(ns)
    requires m < |ns| && ns[m].name == NasCode && Fill(ns[m].definition) == Null
    requires v < |ns| && ns[v].name == Vendor && Fill(ns[v].definition) == Text("MikroTik")
    requires !mid.tables[Nas].columns[OrganizationId].nullable && !mid.tables[Nas].columns[LocationId].nullable
    ensures WorkedWith(db, mid, Names(ns))
  {
    StillFilled(mid.tables[Nas].rows, ns, m);
    StillFilled(mid.tables[Nas].rows, ns, v);
  }

  lemma StillFilled(rows: seq<Row>, ns: seq<NewColumn>, m: nat)
    requires Defaults(rows, ns, {OrganizationId, LocationId, Status})
    requires m < |ns| && ns[m].name !in {OrganizationId, LocationId, Status}
    ensures Filled(rows, ns[m].name, Fill(ns[m].definition))
  {
  }

  lemma StatusAndCode()
    ensures |NewColumns()| == 8 && NewColumns()[3].name == Status && Fill(NewColumns()[3].definition) == Text("active")
    ensures NewColumns()[2].name == NasCode && Fill(NewColumns()[2].definition) == Null
    ensures NewColumns()[7].name == Vendor && Fill(NewColumns()[7].definition) == Text("MikroTik")
  {
  }

  // ----- keys, indexes and the counter table -----

  lemma KeysSucceed(mid: Database)
    requires Consistent(mid) && Constrained(mid)
    requires OrganizationId in mid.tables[Nas].columns && LocationId in mid.tables[Nas].columns
    requires Joined(mid.tables[Nas].rows, RouterId, mid.tables[Routers].rows, {OrganizationId, LocationId})
    ensures KeyDeclared(mid, OrganizationKey) && KeyHolds(mid, OrganizationKey)
    ensures KeyDeclared(mid, LocationKey) && KeyHolds(mid, LocationKey)
  {
    var cs := {OrganizationId, LocationId};
    JoinedKeyHolds(mid, Nas, RouterId, Routers, cs, Fk(Routers, OrganizationId), OrganizationKey);
    JoinedKeyHolds(mid, Nas, RouterId, Routers, cs, Fk(Routers, LocationId), LocationKey);
  }

  /** No client has a code yet, so the partial unique index holds. */
  lemma CodesDistinct(rows: seq<Row>)
    requires Filled(rows, NasCode, Null)
    ensures Distinct(IndexOf(Nas, Partial(NasCode, NotNull(NasCode))), rows)
  {
  }

  lemma IndexesSucceed(db: Database)
    requires Nas in db.tables && News() <= db.tables[Nas].columns.Keys && Free(db, Nas, NasIndexes())
    requires Filled(db.tables[Nas].rows, NasCode, Null)
    ensures Migrate(db, Creates(Nas, NasIndexes())).Some?
    ensures OnlyIndexesOf(db, Migrate(db, Creates(Nas, NasIndexes())).value, Nas)
  {
    FourAreNew();
    CodesDistinct(db.tables[Nas].rows);
    assert NewNames(db, Nas, NasIndexes());
    CreatesSucceed(db, Nas, NasIndexes());
  }

  lemma CountersCreatable(db: Database)
    requires Uq(Counters, CounterKey) !in db.indexes
    ensures NewTableOk(db, Counters, CreateCounters().columns, CreateCounters().keys, CreateCounters().constraints)
  {
  }

  lemma CounterIndexesFit(db: Database)
    requires Free(db, Counters, CounterIndexes())
    ensures NewNames(db, Counters, CounterIndexes())
    ensures forall i :: 0 <= i < |CounterIndexes()| ==>
              && Fits(CreateCounters().columns, Counters, CounterIndexes()[i])
              && NameOf(Counters, CounterIndexes()[i]) !in CreateCounters().constraints
  {
  }

  lemma CountersSucceed(db: Database)
    requires Counters !in db.tables && Free(db, Counters, CounterIndexes()) && Uq(Counters, CounterKey) !in db.indexes
    ensures Migrate(db, CounterBlock()).Some? && WithTable(db, Migrate(db, CounterBlock()).value, CreateCounters())
  {
    CountersCreatable(db);
    CounterIndexesFit(db);
    TableBlockSucceeds(db, CreateCounters(), CounterIndexes());
  }

  lemma CountersStillFree(db: Database, next: Database)
    requires OnlyIndexesOf(db, next, Nas) && Free(db, Counters, CounterIndexes())
             && Uq(Counters, CounterKey) !in db.indexes
    ensures Free(next, Counters, CounterIndexes()) && Uq(Counters, CounterKey) !in next.indexes
  {
  }

  lemma TailSucceeds(db: Database)
    requires Nas in db.tables && News() <= db.tables[Nas].columns.Keys && Free(db, Nas, NasIndexes())
    requires Filled(db.tables[Nas].rows, NasCode, Null)
    requires Counters !in db.tables && Free(db, Counters, CounterIndexes()) && Uq(Counters, CounterKey) !in db.indexes
    ensures Migrate(db, Creates(Nas, NasIndexes()) + CounterBlock()).Some?
    ensures
      Migrate(db, Creates(Nas, NasIndexes()) + CounterBlock()).value.tables
      == db.tables[Counters := Table(CreateCounters().columns, [])]
  {
    IndexesSucceed(db);
    var next := Migrate(db, Creates(Nas, NasIndexes())).value;
    CountersStillFree(db, next);
    CountersSucceed(next);
    MigrateBoth(db, Creates(Nas, NasIndexes()), next, CounterBlock());
  }

  lemma ExtrasSucceed(mid: Database)
    requires Nas in mid.tables && News() <= mid.tables[Nas].columns.Keys && LacksNames(mid)
    requires Filled(mid.tables[Nas].rows, NasCode, Null)
    requires KeyDeclared(mid, OrganizationKey) && KeyHolds(mid, OrganizationKey)
    requires KeyDeclared(mid, LocationKey) && KeyHolds(mid, LocationKey)
    ensures Migrate(mid, Extras()).Some?
    ensures Migrate(mid, Extras()).value.tables == mid.tables[Counters := Table(CreateCounters().columns, [])]
  {
    KeyExecutes(mid, Fk(Nas, OrganizationId), OrganizationKey);
    var x := mid.(keys := mid.keys[Fk(Nas, OrganizationId) := OrganizationKey]);
    assert KeyDeclared(x, LocationKey) && KeyHolds(x, LocationKey);
    KeyExecutes(x, Fk(Nas, LocationId), LocationKey);
    var y := x.(keys := x.keys[Fk(Nas, LocationId) := LocationKey]);
    TailSucceeds(y);
    var tail := Creates(Nas, NasIndexes()) + CounterBlock();
    MigrateFirst(mid, AddOrganizationKey, [AddLocationKey] + tail);
    MigrateFirst(x, AddLocationKey, tail);
  }

  lemma StillConstrained(db: Database, mid: Database)
    requires Constrained(db) && Lacks(db) && Nas in mid.tables
    requires Widened(db.tables[Nas], mid.tables[Nas], News()) && mid == PutTable(db, Nas, mid.tables[Nas])
    ensures Constrained(mid) && LacksNames(mid) && News() <= mid.tables[Nas].columns.Keys
    ensures mid.tables[Routers] == db.tables[Routers]
  {
  }

  lemma WorkedExtras(mid: Database)
    requires Consistent(mid) && Constrained(mid) && LacksNames(mid) && News() <= mid.tables[Nas].columns.Keys
    requires Filled(mid.tables[Nas].rows, NasCode, Null)
    requires Joined(mid.tables[Nas].rows, RouterId, mid.tables[Routers].rows, {OrganizationId, LocationId})
    ensures Migrate(mid, Extras()).Some? && EveryNasAgrees(mid)
    ensures Migrate(mid, Extras()).value.tables == mid.tables[Counters := Table(CreateCounters().columns, [])]
  {
    FourAreNew();
    KeysSucceed(mid);
    ExtrasSucceed(mid);
    assert TableOk(mid.tables[Routers]);
    JoinedAgreesEverywhere(mid);
  }

  lemma JoinedAgreesEverywhere(db: Database)
    requires Nas in db.tables && Routers in db.tables && IdsDistinct(db.tables[Routers].rows)
    requires Joined(db.tables[Nas].rows, RouterId, db.tables[Routers].rows, {OrganizationId, LocationId})
    ensures EveryNasAgrees(db)
  {
  }

  lemma StatusSet(before: seq<Row>, after: seq<Row>)
    requires RowsKept(after, before) && forall i :: 0 <= i < |before| ==> IsActive in before[i]
    requires SetBy(before, after, Status, Text("disabled"), Inactive, Text("active"))
    ensures StatusFollowsActivity(after)
  {
  }

  /** What the upgrade leaves. */
  ghost predicate Extended(db: Database, end: Database) {
    && Nas in db.tables && Routers in db.tables && end.tables.Keys == db.tables.Keys + {Counters}
    && EveryNasAgrees(end) && StatusFollowsActivity(end.tables[Nas].rows)
    && Filled(end.tables[Nas].rows, NasCode, Null) && Filled(end.tables[Nas].rows, Vendor, Text("MikroTik"))
    && Widened(db.tables[Nas], end.tables[Nas], News()) && OrganizationId in News() && LocationId in News()
    && !end.tables[Nas].columns[OrganizationId].nullable && !end.tables[Nas].columns[LocationId].nullable
    && forall t :: t in db.tables && t != Nas ==> end.tables[t] == db.tables[t]
  }

  /** The keys, the index on codes and the counters' constraint, with their targets and columns. */
  ghost predicate Scoped(db: Database) {
    && Fk(Nas, OrganizationId) in db.keys
    && db.keys[Fk(Nas, OrganizationId)] == ForeignKey(Nas, OrganizationId, Organizations, Cascade)
    && Fk(Nas, LocationId) in db.keys
    && db.keys[Fk(Nas, LocationId)] == ForeignKey(Nas, LocationId, Locations, Cascade)
    && Uq(Nas, NasCode) in db.indexes && CodesUnique(db.indexes[Uq(Nas, NasCode)])
    && Counters in db.tables && Uq(Counters, CounterKey) in db.indexes
    && db.indexes[Uq(Counters, CounterKey)] == Index(Counters, [CounterKey], true, Everywhere)
    && Ix(Counters, CounterKey) in db.indexes && db.indexes[Ix(Counters, CounterKey)].unique
  }

  /** No two clients share a code, and a client may have none. */
  ghost predicate CodesUnique(ix: Index) {
    && ix.table == Nas && ix.columns == [NasCode] && ix.unique
    && forall r: Row :: Holds(ix.where, r) <==> NasCode in r && r[NasCode] != Null
  }

  lemma NasIndexesAre()
    ensures |NasIndexes()| == 4 && NasIndexes()[2] == Partial(NasCode, NotNull(NasCode))
    ensures |CounterIndexes()| == 6 && CounterIndexes()[5] == UniqueIx(CounterKey)
    ensures Uq(Counters, CounterKey) in CreateCounters().constraints
    ensures CreateCounters().constraints[Uq(Counters, CounterKey)] == Index(Counters, [CounterKey], true, Everywhere)
  {
  }

  lemma PartsStand(end: Database, all: seq<Statement>, a: Statement, b: Statement, xs: seq<Statement>, c: Statement,
                   ys: seq<Statement>)
    requires all == [a] + ([b] + (xs + ([c] + ys))) && AllStand(all, end)
    ensures Stands(a, end) && Stands(b, end) && Stands(c, end) && AllStand(xs, end) && AllStand(ys, end)
  {
    assert all[0] == a && all[1] == b && all[2 + |xs|] == c;
    assert forall i :: 0 <= i < |xs| ==> xs[i] == all[2 + i];
    assert forall i :: 0 <= i < |ys| ==> ys[i] == all[3 + |xs| + i];
  }

  lemma ExtrasStand(mid: Database)
    requires Migrate(mid, Extras()).Some?
    ensures Scoped(Migrate(mid, Extras()).value)
  {
    ExtrasUndone();
    CreationsStand(mid, Extras());
    NasIndexesAre();
    ListsStand(Migrate(mid, Extras()).value, Extras(), NasIndexes(), CreateCounters(), CounterIndexes());
  }

  lemma {:induction false} ListsStand(end: Database, all: seq<Statement>, xs: seq<IndexSpec>, counters: Statement,
                                      ys: seq<IndexSpec>)
    requires counters.CreateTable? && counters.table == Counters
    requires Uq(Counters, CounterKey) in counters.constraints
    requires counters.constraints[Uq(Counters, CounterKey)] == Index(Counters, [CounterKey], true, Everywhere)
    requires |xs| == 4 && xs[2] == Partial(NasCode, NotNull(NasCode)) && |ys| == 6 && ys[5] == UniqueIx(CounterKey)
    requires
      all == [AddOrganizationKey] + ([AddLocationKey] + (Creates(Nas, xs) + ([counters] + Creates(Counters, ys))))
    requires AllStand(all, end)
    ensures Scoped(end)
  {
    PartsStand(end, all, AddOrganizationKey, AddLocationKey, Creates(Nas, xs), counters, Creates(Counters, ys));
    assert Stands(Creates(Nas, xs)[2], end) && Stands(Creates(Counters, ys)[5], end);
    KeysStand(end);
    CodesStand(end, xs[2]);
    CountersStand(end, counters, ys[5]);
  }

  lemma KeysStand(end: Database)
    requires Stands(AddOrganizationKey, end) && Stands(AddLocationKey, end)
    ensures Fk(Nas, OrganizationId) in end.keys && Fk(Nas, LocationId) in end.keys
    ensures end.keys[Fk(Nas, OrganizationId)] == ForeignKey(Nas, OrganizationId, Organizations, Cascade)
    ensures end.keys[Fk(Nas, LocationId)] == ForeignKey(Nas, LocationId, Locations, Cascade)
  {
  }

  lemma CodesStand(end: Database, x: IndexSpec)
    requires x == Partial(NasCode, NotNull(NasCode)) && Stands(CreateIndex(NameOf(Nas, x), IndexOf(Nas, x)), end)
    ensures Uq(Nas, NasCode) in end.indexes && CodesUnique(end.indexes[Uq(Nas, NasCode)])
  {
  }

  lemma CountersStand(end: Database, counters: Statement, y: IndexSpec)
    requires counters.CreateTable? && counters.table == Counters && Stands(counters, end)
    requires Uq(Counters, CounterKey) in counters.constraints
    requires counters.constraints[Uq(Counters, CounterKey)] == Index(Counters, [CounterKey], true, Everywhere)
    requires y == UniqueIx(CounterKey) && Stands(CreateIndex(NameOf(Counters, y), IndexOf(Counters, y)), end)
    ensures Counters in end.tables && Uq(Counters, CounterKey) in end.indexes
    ensures end.indexes[Uq(Counters, CounterKey)] == Index(Counters, [CounterKey], true, Everywhere)
    ensures Ix(Counters, CounterKey) in end.indexes && end.indexes[Ix(Counters, CounterKey)].unique
  {
  }

  lemma ExtendedAfter(db: Database, mid: Database, end: Database)
    requires Nas in db.tables && Nas in mid.tables && mid == PutTable(db, Nas, mid.tables[Nas])
             && Counters !in db.tables
    requires end.tables == mid.tables[Counters := Table(CreateCounters().columns, [])] && Routers in db.tables
    requires Widened(db.tables[Nas], mid.tables[Nas], News()) && OrganizationId in News() && LocationId in News()
    requires !mid.tables[Nas].columns[OrganizationId].nullable && !mid.tables[Nas].columns[LocationId].nullable
    requires EveryNasAgrees(mid) && StatusFollowsActivity(mid.tables[Nas].rows)
    requires Filled(mid.tables[Nas].rows, NasCode, Null) && Filled(mid.tables[Nas].rows, Vendor, Text("MikroTik"))
    ensures Extended(db, end)
  {
    assert end.tables[Nas] == mid.tables[Nas] && end.tables[Routers] == mid.tables[Routers];
  }

  lemma RowsHaveActivity(db: Database)
    requires Consistent(db) && Constrained(db)
    ensures forall i :: 0 <= i < |db.tables[Nas].rows| ==> IsActive in db.tables[Nas].rows[i]
  {
  }

  /** On every legal database the tightenings, both foreign keys and the partial unique index
      succeed; afterwards each client agrees with its router, its status says whether it was
      active, and its old columns are what they were. */
  lemma UpgradeSucceeds(db: Database)
    requires Consistent(db) && Constrained(db) && Lacks(db)
    ensures Migrate(db, Work()).Some? && Migrate(Migrate(db, Work()).value, Extras()).Some?
    ensures Migrate(db, Upgrade()).Some? && Extended(db, Migrate(db, Upgrade()).value)
    ensures Scoped(Migrate(db, Upgrade()).value)
  {
    WorkSucceeds(db);
    var mid := Migrate(db, Work()).value;
    StillConstrained(db, mid);
    WorkedExtras(mid);
    MigrateBoth(db, Work(), mid, Extras());
    RowsHaveActivity(db);
    StatusSet(db.tables[Nas].rows, mid.tables[Nas].rows);
    ExtrasStand(mid);
    ExtendedAfter(db, mid, Migrate(mid, Extras()).value);
  }

  // ----- the downgrade -----

  lemma DropsMirrorIndexes()
    ensures Mirror(NasIndexes(), NasDrops()) && Mirror(CounterIndexes(), CounterDrops())
  {
  }

  lemma ExtrasUndone()
    ensures AllInvertible(Extras())
    ensures
      UndoAll(Extras())
      == (((DropNames(Counters, CounterDrops()) + [DropTable(Counters)]) + DropNames(Nas, NasDrops()))
          + [DropKey(Fk(Nas, LocationId))]) + [DropKey(Fk(Nas, OrganizationId))]
  {
    DropsMirrorIndexes();
    UndoCreates(Nas, NasIndexes(), NasDrops());
    UndoTable(CreateCounters(), CounterIndexes(), CounterDrops());
    var tail := Creates(Nas, NasIndexes()) + CounterBlock();
    UndoAllConcat(Creates(Nas, NasIndexes()), CounterBlock());
    UndoFirst(AddLocationKey, tail);
    UndoFirst(AddOrganizationKey, [AddLocationKey] + tail);
  }

  lemma DropsListed()
    ensures Lists(ColumnDrops(), News()) && Id !in News()
  {
    forall k | 0 <= k < |NewColumns()|
      ensures NewColumns()[k].name != Id && forall l :: k < l < |NewColumns()| ==>
              NewColumns()[k].name != NewColumns()[l].name
    {
      ColumnNames(k);
    }
    ReverseLists(ColumnDrops(), NewColumns());
  }

  lemma WorkIsColumnWork()
    ensures AllColumnWork(Work(), Nas, News())
  {
    FourAreNew();
    RefinementIsColumnWork(Nas, RouterId, Routers, OrganizationId, LocationId, Status, Text("disabled"), Inactive,
        NewColumns());
  }

  /** The downgrade takes the upgrade back. */
  lemma UpgradeTakenBack(db: Database)
    requires Consistent(db) && Constrained(db) && Lacks(db)
    ensures TakesBack(db, Upgrade(), Downgrade()) && LegalThroughout(db, Upgrade(), Downgrade())
  {
    WorkSucceeds(db);
    UpgradeSucceeds(db);
    ExtrasUndone();
    WorkIsColumnWork();
    DropsListed();
    StagedTakenBack(db, Work(), Migrate(db, Work()).value, Extras(), Nas, News(), ColumnDrops());
  }

  /** The migration on a connection never fails on a constrained, legal database. */
  method RunUpgrade(c: Connection) returns (ok: bool)
    requires Consistent(c.db) && Constrained(c.db) && Lacks(c.db)
    modifies c
    ensures ok && Extended(old(c.db), c.db) && Scoped(c.db) && Consistent(c.db)
    ensures Migrate(c.db, Downgrade()) == Some(old(c.db))
  {
    ghost var db := c.db;
    UpgradeSucceeds(db);
    UpgradeTakenBack(db);
    WholeUpgradeLegal(db, Upgrade(), Downgrade());
    ok := c.Apply(Upgrade());
  }

  // ----- such databases exist, so the theorems are about something -----

  const IdColumn := Column(Uuid, false, NoDefault)
  const ExampleRouters :=
    Table(map[Id := IdColumn, OrganizationId := IdColumn, LocationId := IdColumn],
          [map[Id := Ref(3), OrganizationId := Ref(1), LocationId := Ref(2)]])
  const ExampleClients :=
    Table(map[Id := IdColumn, RouterId := IdColumn, IsActive := Column(Boolean, false, Constant(Flag(true)))],
          [map[Id := Ref(4), RouterId := Ref(3), IsActive := Flag(false)]])
  const ExampleKeys: map<KeyName, ForeignKey> :=
    map[Fk(Routers, OrganizationId) := ForeignKey(Routers, OrganizationId, Organizations, Cascade),
        Fk(Routers, LocationId) := ForeignKey(Routers, LocationId, Locations, Cascade),
        Fk(Nas, RouterId) := ForeignKey(Nas, RouterId, Routers, Cascade)]

  function Example(): Database {
    Database(map[Organizations := Table(map[Id := IdColumn], [map[Id := Ref(1)]]),
                 Locations := Table(map[Id := IdColumn], [map[Id := Ref(2)]]),
                 Routers := ExampleRouters, Nas := ExampleClients],
             ExampleKeys, map[])
  }

  lemma ExampleTables(t: TableName)
    requires t in Example().tables
    ensures TableOk(Example().tables[t])
  {
  }

  lemma ExampleKey(n: KeyName)
    requires n in ExampleKeys
    ensures KeyDeclared(Example(), ExampleKeys[n]) && KeyHolds(Example(), ExampleKeys[n])
  {
    var db := Example();
    assert HasId(db.tables[Organizations].rows, Ref(1)) by { assert db.tables[Organizations].rows[0][Id] == Ref(1); }
    assert HasId(db.tables[Locations].rows, Ref(2)) by { assert db.tables[Locations].rows[0][Id] == Ref(2); }
    assert HasId(db.tables[Routers].rows, Ref(3)) by { assert db.tables[Routers].rows[0][Id] == Ref(3); }
  }

  lemma ExampleConsistent(db: Database)
    requires db == Example()
    ensures Consistent(db)
  {
    forall t | t in db.tables
      ensures TableOk(db.tables[t])
    {
      ExampleTables(t);
    }
    forall n | n in db.keys
      ensures KeyDeclared(db, db.keys[n]) && KeyHolds(db, db.keys[n])
    {
      ExampleKey(n);
    }
  }

  lemma ExampleConstrained()
    ensures Constrained(Example())
  {
  }

  lemma ExampleLacks()
    ensures Lacks(Example())
  {
    NewNamesAre();
  }

  /** A legal database with the constraints, the names free, and an inactive client. */
  lemma ConstraintsCanBeMet(db: Database)
    requires db == Example()
    ensures Consistent(db) && Constrained(db) && Lacks(db) && db.tables[Nas].rows != []
  {
    ExampleConsistent(db);
    ExampleConstrained();
    ExampleLacks();
  }

  lemma NewNamesAre()
    ensures Id !in News() && RouterId !in News() && IsActive !in News()
  {
    forall k | 0 <= k < |NewColumns()|
      ensures NewColumns()[k].name != Id && NewColumns()[k].name != RouterId && NewColumns()[k].name != IsActive
    {
      OldNames(k);
    }
  }

  lemma OldNames(k: nat)
    requires k < |NewColumns()|
    ensures NewColumns()[k].name != Id && NewColumns()[k].name != RouterId && NewColumns()[k].name != IsActive
  {
  }
}
