/** Revision 0081: vouchers carry the organization of their batch. */
module VoucherOrganization {
  import opened Wrappers
  import opened Schema
  import opened SchemaUndo
  import opened BaseModel
  import opened ColumnFill

  const OrganizationKey := ForeignKey(Vouchers, OrganizationId, Organizations, Cascade)

  function NewColumns(): seq<NewColumn> { [NewColumn(OrganizationId, NullableRef())] }

  function Indexes(): seq<IndexSpec> {
    [Plain(OrganizationId), Pair(OrganizationId, RedeemedAt), Pair(OrganizationId, UseCount)]
  }

  function IndexDrops(): seq<IndexSpec> {
    [Pair(OrganizationId, UseCount), Pair(OrganizationId, RedeemedAt), Plain(OrganizationId)]
  }

  function Join(): Statement { CopyFrom(Vouchers, BatchId, VoucherBatches, {OrganizationId}) }

  function Work(): seq<Statement> {
    Adds(Vouchers, NewColumns()) + ([Join()] + [SetNotNull(Vouchers, OrganizationId)])
  }

  function Extras(): seq<Statement> {
    [AddKey(Fk(Vouchers, OrganizationId), OrganizationKey)] + Creates(Vouchers, Indexes())
  }

  function Upgrade(): seq<Statement> { Work() + Extras() }

  function Downgrade(): seq<Statement> {
    (DropNames(Vouchers, IndexDrops()) + [DropKey(Fk(Vouchers, OrganizationId))]) + Drops(Vouchers, [OrganizationId])
  }

  /** The constraints earlier revisions put on vouchers and their batches. */
  ghost predicate Constrained(db: Database) {
    && Joinable(db, Vouchers, Fk(Vouchers, BatchId), BatchId, VoucherBatches, {OrganizationId})
    && Fk(VoucherBatches, OrganizationId) in db.keys
    && db.keys[Fk(VoucherBatches, OrganizationId)] == ForeignKey(VoucherBatches, OrganizationId, Organizations, Cascade)
    && RedeemedAt in db.tables[Vouchers].columns && UseCount in db.tables[Vouchers].columns
  }

  /** The names the revision introduces are free. */
  ghost predicate Lacks(db: Database)
    requires Vouchers in db.tables
  {
    && OrganizationId !in db.tables[Vouchers].columns && Fk(Vouchers, OrganizationId) !in db.keys
    && Free(db, Vouchers, Indexes())
  }

  /** The voucher and the batch it belongs to name the same organization. */
  ghost predicate SameOrganization(voucher: Row, batch: Row) {
    && OrganizationId in voucher && OrganizationId in batch
    && voucher[OrganizationId] != Null && voucher[OrganizationId] == batch[OrganizationId]
  }

  ghost predicate EveryVoucherAgrees(db: Database)
    requires Vouchers in db.tables && VoucherBatches in db.tables
  {
    var vouchers, batches := db.tables[Vouchers].rows, db.tables[VoucherBatches].rows;
    forall i, j :: 0 <= i < |vouchers| && 0 <= j < |batches|
                   && BatchId in vouchers[i] && Id in batches[j] && batches[j][Id] == vouchers[i][BatchId] ==>
      SameOrganization(vouchers[i], batches[j])
  }

  lemma WorkSucceeds(db: Database)
    requires Consistent(db) && Constrained(db) && Lacks(db)
    ensures Migrate(db, Work()).Some?
    ensures
      var mid := Migrate(db, Work()).value;
      && Staged(db, mid, Vouchers, {OrganizationId})
      && Joined(mid.tables[Vouchers].rows, BatchId, db.tables[VoucherBatches].rows, {OrganizationId})
      && !mid.tables[Vouchers].columns[OrganizationId].nullable
  {
    ColumnJoined(db, Vouchers, OrganizationId, NullableRef(), Fk(Vouchers, BatchId), BatchId, VoucherBatches);
  }

  lemma IndexesSucceed(db: Database)
    requires Vouchers in db.tables && Free(db, Vouchers, Indexes())
    requires OrganizationId in db.tables[Vouchers].columns
    requires RedeemedAt in db.tables[Vouchers].columns && UseCount in db.tables[Vouchers].columns
    ensures Migrate(db, Creates(Vouchers, Indexes())).Some?
    ensures Migrate(db, Creates(Vouchers, Indexes())).value.tables == db.tables
  {
    assert NewNames(db, Vouchers, Indexes());
    CreatesSucceed(db, Vouchers, Indexes());
  }

  lemma KeySucceeds(mid: Database)
    requires Consistent(mid) && Constrained(mid) && OrganizationId in mid.tables[Vouchers].columns
    requires Joined(mid.tables[Vouchers].rows, BatchId, mid.tables[VoucherBatches].rows, {OrganizationId})
    ensures KeyDeclared(mid, OrganizationKey) && KeyHolds(mid, OrganizationKey)
  {
  }

  /** The constraints are still there on the widened table. */
  lemma StillConstrained(db: Database, mid: Database)
    requires Constrained(db) && Lacks(db) && Vouchers in mid.tables
    requires Widened(db.tables[Vouchers], mid.tables[Vouchers], {OrganizationId})
    requires mid == PutTable(db, Vouchers, mid.tables[Vouchers])
    ensures Constrained(mid) && OrganizationId in mid.tables[Vouchers].columns
    ensures mid.tables[VoucherBatches] == db.tables[VoucherBatches]
    ensures Fk(Vouchers, OrganizationId) !in mid.keys && Free(mid, Vouchers, Indexes())
  {
  }

  lemma ExtrasSucceed(mid: Database)
    requires Vouchers in mid.tables && KeyDeclared(mid, OrganizationKey) && KeyHolds(mid, OrganizationKey)
    requires Fk(Vouchers, OrganizationId) !in mid.keys && Free(mid, Vouchers, Indexes())
    requires RedeemedAt in mid.tables[Vouchers].columns && UseCount in mid.tables[Vouchers].columns
    ensures Migrate(mid, Extras()).Some? && Migrate(mid, Extras()).value.tables == mid.tables
  {
    var n := Fk(Vouchers, OrganizationId);
    KeyExecutes(mid, n, OrganizationKey);
    IndexesSucceed(mid.(keys := mid.keys[n := OrganizationKey]));
    MigrateFirst(mid, AddKey(n, OrganizationKey), Creates(Vouchers, Indexes()));
  }

  lemma JoinedAgreesEverywhere(db: Database)
    requires Vouchers in db.tables && VoucherBatches in db.tables && IdsDistinct(db.tables[VoucherBatches].rows)
    requires Joined(db.tables[Vouchers].rows, BatchId, db.tables[VoucherBatches].rows, {OrganizationId})
    ensures EveryVoucherAgrees(db)
  {
  }

  /** On every legal database the backfill leaves no NULL, so the tightening, the foreign key
      and the indexes succeed; afterwards every voucher is in its batch's organization, and
      nothing else about any row has changed. */
  lemma UpgradeSucceeds(db: Database)
    requires Consistent(db) && Constrained(db) && Lacks(db)
    ensures Migrate(db, Work()).Some? && Migrate(Migrate(db, Work()).value, Extras()).Some?
    ensures Migrate(db, Upgrade()).Some? && Backfilled(db, Migrate(db, Upgrade()).value)
    ensures Scoped(Migrate(db, Upgrade()).value)
  {
    WorkSucceeds(db);
    var mid := Migrate(db, Work()).value;
    StillConstrained(db, mid);
    WorkedExtras(mid);
    MigrateBoth(db, Work(), mid, Extras());
    ExtrasStand(mid);
    BackfilledAfter(db, mid, Migrate(mid, Extras()).value);
  }

  lemma WorkedExtras(mid: Database)
    requires Consistent(mid) && Constrained(mid) && OrganizationId in mid.tables[Vouchers].columns
    requires Fk(Vouchers, OrganizationId) !in mid.keys && Free(mid, Vouchers, Indexes())
    requires Joined(mid.tables[Vouchers].rows, BatchId, mid.tables[VoucherBatches].rows, {OrganizationId})
    ensures Migrate(mid, Extras()).Some? && Migrate(mid, Extras()).value.tables == mid.tables
    ensures EveryVoucherAgrees(mid)
  {
    KeySucceeds(mid);
    ExtrasSucceed(mid);
    assert TableOk(mid.tables[VoucherBatches]);
    JoinedAgreesEverywhere(mid);
  }

  ghost predicate Backfilled(db: Database, end: Database) {
    && Vouchers in db.tables && VoucherBatches in db.tables
    && end.tables.Keys == db.tables.Keys && EveryVoucherAgrees(end)
    && Widened(db.tables[Vouchers], end.tables[Vouchers], {OrganizationId})
    && !end.tables[Vouchers].columns[OrganizationId].nullable
    && forall t :: t in db.tables && t != Vouchers ==> end.tables[t] == db.tables[t]
  }

  /** The key and the indexes the revision is for, with their targets and columns. */
  ghost predicate Scoped(db: Database) {
    && Fk(Vouchers, OrganizationId) in db.keys
    && db.keys[Fk(Vouchers, OrganizationId)] == ForeignKey(Vouchers, OrganizationId, Organizations, Cascade)
    && Ix(Vouchers, OrganizationId) in db.indexes
    && db.indexes[Ix(Vouchers, OrganizationId)] == Index(Vouchers, [OrganizationId], false, Everywhere)
    && Ix2(Vouchers, OrganizationId, RedeemedAt) in db.indexes
    && db.indexes[Ix2(Vouchers, OrganizationId, RedeemedAt)]
       == Index(Vouchers, [OrganizationId, RedeemedAt], false, Everywhere)
    && Ix2(Vouchers, OrganizationId, UseCount) in db.indexes
    && db.indexes[Ix2(Vouchers, OrganizationId, UseCount)]
       == Index(Vouchers, [OrganizationId, UseCount], false, Everywhere)
  }

  lemma ExtrasAre(i: nat)
    requires i < |Indexes()|
    ensures |Extras()| == 4 && Extras()[0] == AddKey(Fk(Vouchers, OrganizationId), OrganizationKey)
    ensures Extras()[i + 1] == CreateIndex(NameOf(Vouchers, Indexes()[i]), IndexOf(Vouchers, Indexes()[i]))
  {
  }

  lemma ExtrasStand(mid: Database)
    requires Migrate(mid, Extras()).Some?
    ensures Scoped(Migrate(mid, Extras()).value)
  {
    ExtrasUndone();
    CreationsStand(mid, Extras());
    ExtrasAre(0);
    ExtrasAre(1);
    ExtrasAre(2);
  }

  lemma BackfilledAfter(db: Database, mid: Database, end: Database)
    requires end.tables == mid.tables && Staged(db, mid, Vouchers, {OrganizationId})
    requires VoucherBatches in db.tables && EveryVoucherAgrees(mid)
             && !mid.tables[Vouchers].columns[OrganizationId].nullable
    ensures Backfilled(db, end)
  {
  }

  lemma ExtrasUndone()
    ensures AllInvertible(Extras())
    ensures UndoAll(Extras()) == DropNames(Vouchers, IndexDrops()) + [DropKey(Fk(Vouchers, OrganizationId))]
  {
    var key := AddKey(Fk(Vouchers, OrganizationId), OrganizationKey);
    UndoCreates(Vouchers, Indexes(), IndexDrops());
    UndoFirst(key, Creates(Vouchers, Indexes()));
  }

  lemma WorkIsColumnWork()
    ensures AllColumnWork(Work(), Vouchers, {OrganizationId})
  {
  }

  lemma OneColumn()
    ensures Lists([OrganizationId], {OrganizationId})
  {
  }

  /** The downgrade takes the upgrade back. */
  lemma UpgradeTakenBack(db: Database)
    requires Consistent(db) && Constrained(db) && Lacks(db)
    ensures TakesBack(db, Upgrade(), Downgrade()) && LegalThroughout(db, Upgrade(), Downgrade())
  {
    WorkSucceeds(db);
    UpgradeSucceeds(db);
    ExtrasUndone();
    WorkIsColumnWork();
    OneColumn();
    StagedTakenBack(db, Work(), Migrate(db, Work()).value, Extras(), Vouchers, {OrganizationId}, [OrganizationId]);
  }

  /** The migration on a connection never fails on a constrained, legal database. */
  method RunUpgrade(c: Connection) returns (ok: bool)
    requires Consistent(c.db) && Constrained(c.db) && Lacks(c.db)
    modifies c
    ensures ok && Backfilled(old(c.db), c.db) && Scoped(c.db) && Consistent(c.db)
    ensures Migrate(c.db, Downgrade()) == Some(old(c.db))
  {
    ghost var db := c.db;
    UpgradeSucceeds(db);
    UpgradeTakenBack(db);
    WholeUpgradeLegal(db, Upgrade(), Downgrade());
    ok := c.Apply(Upgrade());
  }

  /** Such a database with a voucher in it exists, so the theorems are about something. */
  lemma ConstraintsCanBeMet() returns (db: Database)
    ensures Consistent(db) && Constrained(db) && Lacks(db) && db.tables[Vouchers].rows != []
  {
    var id := Column(Uuid, false, NoDefault);
    var organization: Row := map[Id := Ref(1)];
    var batch: Row := map[Id := Ref(2), OrganizationId := Ref(1)];
    var voucher: Row := map[Id := Ref(3), BatchId := Ref(2), RedeemedAt := Null, UseCount := Number(0)];
    var organizations := Table(map[Id := id], [organization]);
    var batches := Table(map[Id := id, OrganizationId := id], [batch]);
    var vouchers := Table(map[Id := id, BatchId := id, RedeemedAt := Moment(true),
                              UseCount := Column(Integer, false, NoDefault)], [voucher]);
    db := Database(map[Organizations := organizations, VoucherBatches := batches, Vouchers := vouchers],
                   map[Fk(VoucherBatches, OrganizationId) :=
                       ForeignKey(VoucherBatches, OrganizationId, Organizations, Cascade),
                       Fk(Vouchers, BatchId) := ForeignKey(Vouchers, BatchId, VoucherBatches, Cascade)],
                   map[]);
    OneRowOk(organizations.columns, organization);
    OneRowOk(batches.columns, batch);
    OneRowOk(vouchers.columns, voucher);
    assert HasId(organizations.rows, Ref(1)) by { assert organizations.rows[0] == organization; }
    assert HasId(batches.rows, Ref(2)) by { assert batches.rows[0] == batch; }
  }
}
