/** Revision 0096: demo_bookings and the partial unique index that prevents double booking. */
module BookingTable {
  import opened Wrappers
  import opened Schema
  import opened SchemaUndo
  import opened BaseModel
  import B = Bookings

  function CreateBookings(): Statement {
    CreateTable(DemoBookings,
      BaseColumns() + map[
        DemoRequestId := RequiredRef(), StartsAt := Moment(false), EndsAt := Moment(false),
        Status := Column(Varchar(20), false, NoDefault), BookedTimezone := Column(Varchar(64), false, NoDefault),
        ManageTokenHash := Column(Varchar(64), false, NoDefault),
        CancellationReason := Column(LongText, true, NoDefault), CancelledAt := Moment(true),
        GuestConfirmationDeliveryId := NullableRef(), TeamNotificationDeliveryId := NullableRef()],
      map[
        Fk(DemoBookings, DemoRequestId) := ForeignKey(DemoBookings, DemoRequestId, DemoRequests, Restrict),
        Fk(DemoBookings, GuestConfirmationDeliveryId) :=
          ForeignKey(DemoBookings, GuestConfirmationDeliveryId, NotificationDeliveries, SetNull),
        Fk(DemoBookings, TeamNotificationDeliveryId) :=
          ForeignKey(DemoBookings, TeamNotificationDeliveryId, NotificationDeliveries, SetNull)],
      map[])
  }

  function ActiveSlot(): Where { Both(Equals(Status, Text("confirmed")), Equals(IsDeleted, Flag(false))) }

  function BookingIndexes(): seq<IndexSpec> {
    BaseIndexes()
    + [Partial(StartsAt, ActiveSlot()), Plain(StartsAt), Plain(Status), Plain(DemoRequestId), Plain(ManageTokenHash)]
  }

  function BookingDrops(): seq<IndexSpec> {
    [Plain(ManageTokenHash), Plain(DemoRequestId), Plain(Status), Plain(StartsAt), Partial(StartsAt, ActiveSlot())]
    + BaseDrops()
  }

  function Upgrade(): seq<Statement> { [CreateBookings()] + Creates(DemoBookings, BookingIndexes()) }
  function Downgrade(): seq<Statement> { DropNames(DemoBookings, BookingDrops()) + [DropTable(DemoBookings)] }

  /** The referenced tables are there and every new name is free. */
  ghost predicate Ready(db: Database) {
    && DemoRequests in db.tables && NotificationDeliveries in db.tables && DemoBookings !in db.tables
    && Fk(DemoBookings, DemoRequestId) !in db.keys && Fk(DemoBookings, GuestConfirmationDeliveryId) !in db.keys
    && Fk(DemoBookings, TeamNotificationDeliveryId) !in db.keys && Free(db, DemoBookings, BookingIndexes())
  }

  lemma BookingsDiffer(i: nat, j: nat)
    requires i < j < |BookingIndexes()|
    ensures NameOf(CreateBookings().table, BookingIndexes()[i]) != NameOf(CreateBookings().table, BookingIndexes()[j])
  {
  }

  lemma BookingsBelong(i: nat)
    requires i < |BookingIndexes()|
    ensures Fits(CreateBookings().columns, CreateBookings().table, BookingIndexes()[i])
  {
  }

  lemma BookingsFit()
    ensures SpecsFit(CreateBookings(), BookingIndexes())
  {
    forall i, j | 0 <= i < j < |BookingIndexes()|
      ensures NameOf(CreateBookings().table, BookingIndexes()[i]) != NameOf(CreateBookings().table, BookingIndexes()[j])
    {
      BookingsDiffer(i, j);
    }
    forall i | 0 <= i < |BookingIndexes()|
      ensures Fits(CreateBookings().columns, CreateBookings().table, BookingIndexes()[i])
    {
      BookingsBelong(i);
    }
  }

  lemma KeysPlaced(db: Database)
    requires Ready(db)
    ensures CreateBookings().keys.Keys !! db.keys.Keys
    ensures forall n :: n in CreateBookings().keys ==>
              && n.table == DemoBookings && CreateBookings().keys[n].table == DemoBookings
              && CreateBookings().keys[n].column in CreateBookings().columns
                  && CreateBookings().keys[n].target in db.tables
  {
  }

  lemma BookingsCreatable(db: Database)
    requires Ready(db)
    ensures Creatable(db, CreateBookings(), BookingIndexes(), {})
  {
    KeysPlaced(db);
    BookingsFit();
    CreatableWhen(db, CreateBookings(), BookingIndexes(), {});
  }

  lemma UpgradeSucceedsExactlyWhen(db: Database)
    ensures Migrate(db, Upgrade()).Some? <==> Ready(db)
  {
    if Ready(db) {
      BookingsCreatable(db);
      CreatableSucceeds(db, CreateBookings(), BookingIndexes());
    }
    if Migrate(db, Upgrade()).Some? {
      BlockNeeds(db, CreateBookings(), BookingIndexes());
      ReadyWhen(db, CreateBookings().keys);
    }
  }

  lemma ReadyWhen(db: Database, keys: map<KeyName, ForeignKey>)
    requires keys == CreateBookings().keys && DemoBookings !in db.tables && keys.Keys !! db.keys.Keys
    requires Free(db, DemoBookings, BookingIndexes())
    requires forall n :: n in keys ==> keys[n].target == DemoBookings || keys[n].target in db.tables
    ensures Ready(db)
  {
    KeysTarget(keys);
  }

  lemma KeysTarget(keys: map<KeyName, ForeignKey>)
    requires keys == CreateBookings().keys
    ensures Fk(DemoBookings, DemoRequestId) in keys && keys[Fk(DemoBookings, DemoRequestId)].target == DemoRequests
    ensures Fk(DemoBookings, GuestConfirmationDeliveryId) in keys
            && Fk(DemoBookings, TeamNotificationDeliveryId) in keys
    ensures keys[Fk(DemoBookings, GuestConfirmationDeliveryId)].target == NotificationDeliveries
  {
  }

  lemma DropsMirrorIndexes()
    ensures Mirror(BookingIndexes(), BookingDrops())
  {
  }

  /** On every legal database with the names free, 0096 applies, its downgrade takes it back,
      and every statement of both leaves the database legal. */
  lemma UpgradeTakenBack(db: Database)
    requires Consistent(db) && Ready(db)
    ensures TakesBack(db, Upgrade(), Downgrade()) && LegalThroughout(db, Upgrade(), Downgrade())
  {
    UpgradeSucceedsExactlyWhen(db);
    DropsMirrorIndexes();
    UndoTable(CreateBookings(), BookingIndexes(), BookingDrops());
    CreationsTakenBack(db, Upgrade());
    StaysLegal(db, Upgrade(), Downgrade());
  }

  // ----- the index is the rule the bookings live under -----

  function StatusText(s: B.Status): Value {
    match s
    case Confirmed => Text("confirmed")
    case Cancelled => Text("cancelled")
    case Completed => Text("completed")
    case NoShow => Text("no_show")
  }

  /** The table's row is this booking, whatever its other columns hold. */
  predicate IsBooking(r: Row, b: B.Booking) {
    && StartsAt in r && r[StartsAt] == Number(b.startsAt)
    && Status in r && r[Status] == StatusText(b.status)
    && IsDeleted in r && r[IsDeleted] == Flag(b.deleted)
  }

  ghost predicate AreBookings(rows: seq<Row>, bs: seq<B.Booking>) {
    |rows| == |bs| && forall i :: 0 <= i < |bs| ==> IsBooking(rows[i], bs[i])
  }

  lemma StatusTextDistinguishes(s: B.Status)
    ensures StatusText(s) == Text("confirmed") <==> s == B.Confirmed
  {
  }

  lemma ClashIsConflict(r: Row, s: Row, a: B.Booking, b: B.Booking)
    requires IsBooking(r, a) && IsBooking(s, b)
    ensures Clash(IndexOf(DemoBookings, Partial(StartsAt, ActiveSlot())), r, s) <==> B.Conflict(a, b)
  {
    StatusTextDistinguishes(a.status);
    StatusTextDistinguishes(b.status);
    var ix := IndexOf(DemoBookings, Partial(StartsAt, ActiveSlot()));
    assert StartsAt in ix.columns && forall c :: c in ix.columns ==> c == StartsAt;
    assert Holds(ix.where, r) <==> B.Active(a);
    assert Holds(ix.where, s) <==> B.Active(b);
  }

  /** The table's rows satisfy the unique index exactly when no start has two active bookings. */
  lemma IndexIsExclusive(rows: seq<Row>, bs: seq<B.Booking>)
    requires AreBookings(rows, bs)
    ensures Distinct(IndexOf(DemoBookings, Partial(StartsAt, ActiveSlot())), rows) <==> B.Exclusive(bs)
  {
    var ix := IndexOf(DemoBookings, Partial(StartsAt, ActiveSlot()));
    forall i, j | 0 <= i < j < |bs|
      ensures Clash(ix, rows[i], rows[j]) <==> B.Conflict(bs[i], bs[j])
    {
      ClashIsConflict(rows[i], rows[j], bs[i], bs[j]);
    }
  }

  /** The index refuses a new row exactly when the booking is refused. */
  lemma InsertIsIndexed(rows: seq<Row>, bs: seq<B.Booking>, r: Row, b: B.Booking)
    requires AreBookings(rows, bs) && B.Exclusive(bs) && IsBooking(r, b)
    ensures Distinct(IndexOf(DemoBookings, Partial(StartsAt, ActiveSlot())), rows + [r]) <==> B.Insert(bs, b).ok
  {
    IndexIsExclusive(rows + [r], bs + [b]);
    ExclusiveWithOneMore(bs, b);
  }

  lemma ExclusiveWithOneMore(bs: seq<B.Booking>, b: B.Booking)
    requires B.Exclusive(bs)
    ensures B.Exclusive(bs + [b]) <==> !B.Blocked(bs, |bs|, b)
  {
    var all := bs + [b];
    if B.Blocked(bs, |bs|, b) {
      var j :| 0 <= j < |bs| && B.Conflict(bs[j], b);
      assert B.Conflict(all[j], all[|bs|]);
    }
  }

  /** It refuses a changed row exactly when the change is refused. */
  lemma UpdateIsIndexed(rows: seq<Row>, bs: seq<B.Booking>, i: nat, r: Row, b: B.Booking)
    requires AreBookings(rows, bs) && B.Exclusive(bs) && i < |bs| && IsBooking(r, b)
    ensures Distinct(IndexOf(DemoBookings, Partial(StartsAt, ActiveSlot())), rows[i := r]) <==> B.Update(bs, i, b).ok
  {
    IndexIsExclusive(rows[i := r], bs[i := b]);
    ExclusiveWithOneChanged(bs, i, b);
  }

  lemma ExclusiveWithOneChanged(bs: seq<B.Booking>, i: nat, b: B.Booking)
    requires B.Exclusive(bs) && i < |bs|
    ensures B.Exclusive(bs[i := b]) <==> !B.Blocked(bs, i, b)
  {
    var all := bs[i := b];
    if B.Blocked(bs, i, b) {
      var j :| 0 <= j < |bs| && j != i && B.Conflict(bs[j], b);
      assert all[j] == bs[j] && all[i] == b;
      assert B.Conflict(all[j], all[i]) && B.Conflict(all[i], all[j]);
    } else {
      forall j, k | 0 <= j < k < |all|
        ensures !B.Conflict(all[j], all[k])
      {
        assert !B.Conflict(bs[j], bs[k]);
        if j == i {
          assert !B.Conflict(bs[k], b);
        }
      }
    }
  }

  /** The bookings in any legal database that has the revision's index are exclusive. */
  lemma LegalTableIsExclusive(db: Database, bs: seq<B.Booking>)
    requires Consistent(db) && DemoBookings in db.tables && AreBookings(db.tables[DemoBookings].rows, bs)
    requires Uq(DemoBookings, StartsAt) in db.indexes
    requires db.indexes[Uq(DemoBookings, StartsAt)] == IndexOf(DemoBookings, Partial(StartsAt, ActiveSlot()))
    ensures B.Exclusive(bs)
  {
    LegalIndexHolds(db, Uq(DemoBookings, StartsAt));
    HeldIndexIsExclusive(db, bs);
  }

  lemma HeldIndexIsExclusive(db: Database, bs: seq<B.Booking>)
    requires DemoBookings in db.tables && AreBookings(db.tables[DemoBookings].rows, bs)
    requires IndexDeclared(db, IndexOf(DemoBookings, Partial(StartsAt, ActiveSlot())))
    requires IndexHolds(db, IndexOf(DemoBookings, Partial(StartsAt, ActiveSlot())))
    ensures B.Exclusive(bs)
  {
    IndexIsExclusive(db.tables[DemoBookings].rows, bs);
  }

  lemma LegalIndexHolds(db: Database, n: IndexName)
    requires Consistent(db) && n in db.indexes
    ensures IndexDeclared(db, db.indexes[n]) && IndexHolds(db, db.indexes[n])
  {
  }

  // ----- what the revision leaves -----

  /** The double-booking index, column by column. */
  ghost predicate SlotsGuarded(db: Database) {
    && DemoBookings in db.tables && Uq(DemoBookings, StartsAt) in db.indexes
    && var ix := db.indexes[Uq(DemoBookings, StartsAt)];
       && ix.table == DemoBookings && ix.columns == [StartsAt] && ix.unique
       && forall r: Row :: Holds(ix.where, r) <==>
            Status in r && r[Status] == Text("confirmed") && IsDeleted in r && r[IsDeleted] == Flag(false)
  }

  ghost predicate Keyed(keys: map<KeyName, ForeignKey>) {
    && Fk(DemoBookings, DemoRequestId) in keys
    && keys[Fk(DemoBookings, DemoRequestId)] == ForeignKey(DemoBookings, DemoRequestId, DemoRequests, Restrict)
    && Fk(DemoBookings, GuestConfirmationDeliveryId) in keys
    && keys[Fk(DemoBookings, GuestConfirmationDeliveryId)]
       == ForeignKey(DemoBookings, GuestConfirmationDeliveryId, NotificationDeliveries, SetNull)
    && Fk(DemoBookings, TeamNotificationDeliveryId) in keys
    && keys[Fk(DemoBookings, TeamNotificationDeliveryId)]
       == ForeignKey(DemoBookings, TeamNotificationDeliveryId, NotificationDeliveries, SetNull)
  }

  lemma ActiveSlotMeans(r: Row)
    ensures Holds(ActiveSlot(), r) <==>
            Status in r && r[Status] == Text("confirmed") && IsDeleted in r && r[IsDeleted] == Flag(false)
  {
  }

  lemma RevisionLists()
    ensures |BookingIndexes()| == 10 && BookingIndexes()[5] == Partial(StartsAt, ActiveSlot())
    ensures Keyed(CreateBookings().keys)
  {
  }

  /** Every successful upgrade leaves the index that forbids double booking: unique on the start
      alone, over the confirmed bookings that are not deleted. */
  lemma UpgradeGuardsSlots(db: Database)
    requires Ready(db)
    ensures Migrate(db, Upgrade()).Some?
    ensures SlotsGuarded(Migrate(db, Upgrade()).value) && Keyed(Migrate(db, Upgrade()).value.keys)
  {
    UpgradeSucceedsExactlyWhen(db);
    RevisionLists();
    BlockGuardsSlots(db, CreateBookings(), BookingIndexes(), 5);
  }

  /** And the columns it looks at cannot be NULL, so that no row escapes it. */
  lemma UpgradeRequiresSlots(db: Database)
    requires Ready(db)
    ensures Migrate(db, Upgrade()).Some? && DemoBookings in Migrate(db, Upgrade()).value.tables
    ensures
      var columns := Migrate(db, Upgrade()).value.tables[DemoBookings].columns;
      forall c :: c in {StartsAt, Status, IsDeleted} ==> c in columns && !columns[c].nullable
  {
    BookingsCreatable(db);
    CreatableSucceeds(db, CreateBookings(), BookingIndexes());
    SlotColumns(CreateBookings().columns);
  }

  lemma SlotColumns(columns: map<ColumnName, Column>)
    requires columns == CreateBookings().columns
    ensures forall c :: c in {StartsAt, Status, IsDeleted} ==> c in columns && !columns[c].nullable
  {
  }

  lemma {:induction false} BlockGuardsSlots(db: Database, create: Statement, xs: seq<IndexSpec>, k: nat)
    requires create.CreateTable? && create.table == DemoBookings && Keyed(create.keys)
    requires k < |xs| && xs[k] == Partial(StartsAt, ActiveSlot())
    requires Migrate(db, [create] + Creates(create.table, xs)).Some?
    ensures
      var end := Migrate(db, [create] + Creates(create.table, xs)).value;
      SlotsGuarded(end) && Keyed(end.keys)
  {
    BlockStands(db, create, xs);
    assert NameOf(create.table, xs[k]) == Uq(DemoBookings, StartsAt);
    forall r: Row
      ensures Holds(ActiveSlot(), r) <==>
              Status in r && r[Status] == Text("confirmed") && IsDeleted in r && r[IsDeleted] == Flag(false)
    {
      ActiveSlotMeans(r);
    }
  }

  /** Any legal database with the schema the upgrade leaves, whatever was written since, holds
      at most one confirmed, undeleted booking for each start. */
  lemma UpgradedTableIsExclusive(db: Database, used: Database, bs: seq<B.Booking>)
    requires Migrate(db, Upgrade()).Some? && SameShape(Migrate(db, Upgrade()).value, used)
    requires Consistent(used) && DemoBookings in used.tables && AreBookings(used.tables[DemoBookings].rows, bs)
    ensures B.Exclusive(bs)
    ensures forall i, j ::
              (0 <= i < j < |bs| && bs[i].status.Confirmed? && !bs[i].deleted
               && bs[j].status.Confirmed? && !bs[j].deleted) ==> bs[i].startsAt != bs[j].startsAt
  {
    UpgradeSucceedsExactlyWhen(db);
    UpgradeGuardsSlots(db);
    LegalIndexHolds(used, Uq(DemoBookings, StartsAt));
    GuardedIsExclusive(used, used.tables[DemoBookings].rows, bs);
  }

  lemma GuardedIsExclusive(db: Database, rows: seq<Row>, bs: seq<B.Booking>)
    requires SlotsGuarded(db) && Distinct(db.indexes[Uq(DemoBookings, StartsAt)], rows) && AreBookings(rows, bs)
    ensures B.Exclusive(bs)
    ensures forall i, j ::
              (0 <= i < j < |bs| && bs[i].status.Confirmed? && !bs[i].deleted
               && bs[j].status.Confirmed? && !bs[j].deleted) ==> bs[i].startsAt != bs[j].startsAt
  {
    var ix := db.indexes[Uq(DemoBookings, StartsAt)];
    forall i, j | 0 <= i < j < |bs| && bs[i].status.Confirmed? && !bs[i].deleted
                  && bs[j].status.Confirmed? && !bs[j].deleted
      ensures bs[i].startsAt != bs[j].startsAt
    {
      assert IsBooking(rows[i], bs[i]) && IsBooking(rows[j], bs[j]);
      assert !Clash(ix, rows[i], rows[j]);
    }
  }

  // ----- a legal table with bookings in it -----

  function BookingRow(id: int, b: B.Booking): Row {
    map[Id := Ref(id), StartsAt := Number(b.startsAt), EndsAt := Number(b.endsAt), Status := StatusText(b.status),
        IsDeleted := Flag(b.deleted)]
  }

  function FewColumns(): map<ColumnName, Column> {
    map[Id := RequiredRef(), StartsAt := Moment(false), EndsAt := Moment(false),
        Status := Column(Varchar(20), false, NoDefault), IsDeleted := Column(Boolean, false, NoDefault)]
  }

  function TwoBookings(a: B.Booking, b: B.Booking): Database {
    Database(map[DemoBookings := Table(FewColumns(), [BookingRow(1, a), BookingRow(2, b)])], map[],
             map[Uq(DemoBookings, StartsAt) := IndexOf(DemoBookings, Partial(StartsAt, ActiveSlot()))])
  }

  lemma BookingRowOk(id: int, b: B.Booking)
    ensures RowOk(FewColumns(), BookingRow(id, b)) && IsBooking(BookingRow(id, b), b)
  {
  }

  lemma SlotIndexDeclared(db: Database)
    requires DemoBookings in db.tables && db.tables[DemoBookings].columns == FewColumns()
    ensures IndexDeclared(db, IndexOf(DemoBookings, Partial(StartsAt, ActiveSlot())))
  {
    assert Mentions(ActiveSlot()) == {Status, IsDeleted};
  }

  lemma PairExclusive(a: B.Booking, b: B.Booking)
    ensures B.Exclusive([a, b]) <==> !B.Conflict(a, b)
  {
    assert [a, b][0] == a && [a, b][1] == b;
  }

  /** Two bookings make a legal table exactly when they do not conflict: of two for one time, one
      must be cancelled or deleted. */
  lemma TwoBookingsLegalExactlyWhen(a: B.Booking, b: B.Booking)
    ensures AreBookings(TwoBookings(a, b).tables[DemoBookings].rows, [a, b])
    ensures Consistent(TwoBookings(a, b)) <==> !B.Conflict(a, b)
  {
    var db := TwoBookings(a, b);
    BookingRowOk(1, a);
    BookingRowOk(2, b);
    TwoRowsOk(FewColumns(), BookingRow(1, a), BookingRow(2, b));
    SlotIndexDeclared(db);
    OneTableLegal(db, DemoBookings);
    IndexIsExclusive(db.tables[DemoBookings].rows, [a, b]);
    PairExclusive(a, b);
    var ix := db.indexes[Uq(DemoBookings, StartsAt)];
    assert IndexHolds(db, ix) <==> Distinct(ix, db.tables[DemoBookings].rows);
    assert (forall n :: n in db.indexes ==> IndexHolds(db, db.indexes[n])) <==> IndexHolds(db, ix);
  }

  /** The migration on a connection: it applies exactly when the database is ready for it and
      otherwise leaves it alone; either way the database stays legal. */
  method RunUpgrade(c: Connection) returns (ok: bool)
    requires Consistent(c.db)
    modifies c
    ensures ok <==> Ready(old(c.db))
    ensures !ok ==> c.db == old(c.db)
    ensures ok ==> Migrate(old(c.db), Upgrade()) == Some(c.db) && Migrate(c.db, Downgrade()) == Some(old(c.db))
    ensures ok ==> SlotsGuarded(c.db) && Keyed(c.db.keys)
    ensures Consistent(c.db)
  {
    ghost var db := c.db;
    UpgradeSucceedsExactlyWhen(db);
    ok := c.Apply(Upgrade());
    if ok {
      UpgradeTakenBack(db);
      UpgradeGuardsSlots(db);
      WholeUpgradeLegal(db, Upgrade(), Downgrade());
    }
  }
}
