/** Revision 0029: policies, policy_versions and policy_assignments. A policy points at its
    current version and a version at its policy, so one of the two keys has to come late. */
module PolicyTables {
  import opened Wrappers
  import opened Schema
  import opened SchemaUndo
  import opened BaseModel

  function CreatePolicies(): Statement {
    CreateTable(Policies,
      BaseColumns() + map[
        OrganizationId := NullableRef(), PolicyType := Column(Varchar(30), false, NoDefault),
        Name := Column(Varchar(200), false, NoDefault), Description := Column(LongText, true, NoDefault),
        IsActive := Column(Boolean, false, Constant(Flag(true))),
        CurrentVersionId := NullableRef(), CreatedByUserId := NullableRef()],
      map[Fk(Policies, OrganizationId) := ForeignKey(Policies, OrganizationId, Organizations, Cascade)],
      map[])
  }

  function CreateVersions(): Statement {
    CreateTable(PolicyVersions,
      BaseColumns() + map[
        PolicyId := RequiredRef(), VersionNumber := Column(Integer, false, NoDefault),
        Status := Column(Varchar(20), false, Constant(Text("draft"))),
        Rules := Column(Jsonb, false, Constant(Text("{}"))), PublishedAt := Moment(true),
        CreatedByUserId := NullableRef()],
      map[Fk(PolicyVersions, PolicyId) := ForeignKey(PolicyVersions, PolicyId, Policies, Cascade)],
      map[])
  }

  function CreateAssignments(): Statement {
    CreateTable(PolicyAssignments,
      BaseColumns() + map[
        PolicyId := RequiredRef(), ScopeType := Column(Varchar(20), false, NoDefault),
        ScopeId := NullableRef(), Priority := Column(Integer, false, Constant(Number(0))),
        IsActive := Column(Boolean, false, Constant(Flag(true))), CreatedByUserId := NullableRef()],
      map[Fk(PolicyAssignments, PolicyId) := ForeignKey(PolicyAssignments, PolicyId, Policies, Cascade)],
      map[])
  }

  const CurrentVersionFk := Fk(Policies, CurrentVersionId)
  const CurrentVersionKey := ForeignKey(Policies, CurrentVersionId, PolicyVersions, SetNull)

  function PolicyIndexes(): seq<IndexSpec> {
    BaseIndexes()
    + [Plain(OrganizationId), Plain(PolicyType), Plain(IsActive)]
  }

  function PolicyDrops(): seq<IndexSpec> { [Plain(IsActive), Plain(PolicyType), Plain(OrganizationId)] + BaseDrops() }

  function VersionIndexes(): seq<IndexSpec> {
    BaseIndexes() + [Plain(PolicyId), Plain(Status), UniquePair(PolicyId, VersionNumber)]
  }

  function VersionDrops(): seq<IndexSpec> {
    [UniquePair(PolicyId, VersionNumber), Plain(Status), Plain(PolicyId)] + BaseDrops()
  }

  function AssignmentIndexes(): seq<IndexSpec> {
    BaseIndexes() + [Plain(PolicyId), Plain(ScopeType), Plain(ScopeId), Plain(IsActive)]
  }

  function AssignmentDrops(): seq<IndexSpec> {
    [Plain(IsActive), Plain(ScopeId), Plain(ScopeType), Plain(PolicyId)] + BaseDrops()
  }

  function PolicyBlock(): seq<Statement> { [CreatePolicies()] + Creates(Policies, PolicyIndexes()) }
  function VersionBlock(): seq<Statement> { [CreateVersions()] + Creates(PolicyVersions, VersionIndexes()) }
  function LateKey(): Statement { AddKey(CurrentVersionFk, CurrentVersionKey) }
  function AssignmentBlock(): seq<Statement> { [CreateAssignments()] + Creates(PolicyAssignments, AssignmentIndexes()) }

  function Upgrade(): seq<Statement> { PolicyBlock() + (VersionBlock() + ([LateKey()] + AssignmentBlock())) }

  function Downgrade(): seq<Statement> {
    (((DropNames(PolicyAssignments, AssignmentDrops()) + [DropTable(PolicyAssignments)])
      + [DropKey(CurrentVersionFk)])
     + (DropNames(PolicyVersions, VersionDrops()) + [DropTable(PolicyVersions)]))
    + (DropNames(Policies, PolicyDrops()) + [DropTable(Policies)])
  }

  /** organizations is there, and every name the revision introduces is free. */
  ghost predicate Ready(db: Database) {
    && Organizations in db.tables
    && Policies !in db.tables && PolicyVersions !in db.tables && PolicyAssignments !in db.tables
    && Fk(Policies, OrganizationId) !in db.keys && Fk(PolicyVersions, PolicyId) !in db.keys
    && CurrentVersionFk !in db.keys && Fk(PolicyAssignments, PolicyId) !in db.keys
    && Free(db, Policies, PolicyIndexes()) && Free(db, PolicyVersions, VersionIndexes())
    && Free(db, PolicyAssignments, AssignmentIndexes())
  }

  // ----- two tables, the key that closes their cycle, a third table -----

  /** Creating one table leaves another creatable. */
  lemma StillCreatable(db: Database, next: Database, done: Statement, create: Statement, xs: seq<IndexSpec>,
                       given: set<TableName>)
    requires done.CreateTable? && done.constraints == map[] && WithTable(db, next, done)
    requires forall n :: n in done.keys ==> n.table == done.table
    requires Creatable(db, create, xs, given) && create.table != done.table
    ensures Creatable(next, create, xs, given - {done.table})
  {
    FreeAfterOtherTable(db, next, done, create.table, xs);
  }

  lemma CreatableWithKey(db: Database, n: KeyName, k: ForeignKey, create: Statement, xs: seq<IndexSpec>)
    requires Creatable(db, create, xs, {}) && n.table != create.table
    ensures Creatable(db.(keys := db.keys[n := k]), create, xs, {})
  {
  }

  lemma MigrateFour(db: Database, a: seq<Statement>, b: seq<Statement>, s: Statement, d: seq<Statement>)
    ensures Migrate(db, a + (b + ([s] + d))) ==
            match Migrate(db, a) case None => None case Some(x) =>
              match Migrate(x, b) case None => None case Some(y) =>
                match Execute(y, s) case None => None case Some(z) => Migrate(z, d)
  {
    MigrateConcat(db, a, b + ([s] + d));
    if Migrate(db, a).Some? {
      var x := Migrate(db, a).value;
      MigrateConcat(x, b, [s] + d);
      if Migrate(x, b).Some? {
        MigrateConcat(Migrate(x, b).value, [s], d);
        MigrateOne(Migrate(x, b).value, s);
      }
    }
  }

  lemma UndoFour(a: seq<Statement>, b: seq<Statement>, s: Statement, d: seq<Statement>)
    requires AllInvertible(a) && AllInvertible(b) && Invertible(s) && AllInvertible(d)
    ensures AllInvertible(a + (b + ([s] + d)))
    ensures UndoAll(a + (b + ([s] + d))) == ((UndoAll(d) + [Undo(s)]) + UndoAll(b)) + UndoAll(a)
  {
    assert [s][1..] == [];
    assert UndoAll([s]) == UndoAll([]) + [Undo(s)] == [Undo(s)];
    UndoAllConcat([s], d);
    UndoAllConcat(b, [s] + d);
    UndoAllConcat(a, b + ([s] + d));
  }

  /** What the four parts leave: the tables, and the keys with the late one. */
  ghost predicate Closed(db: Database, end: Database, first: Statement, second: Statement, key: Statement,
                         third: Statement) {
    && first.CreateTable? && second.CreateTable? && third.CreateTable? && key.AddKey?
    && end.tables == db.tables[first.table := Table(first.columns, [])][second.table := Table(second.columns, [])]
                     [third.table := Table(third.columns, [])]
    && end.keys == (db.keys + first.keys + second.keys)[key.key := key.foreignKey] + third.keys
  }

  lemma KeyAdded(db: Database, key: Statement)
    requires key.AddKey? && key.key !in db.keys && KeyDeclared(db, key.foreignKey)
             && db.tables[key.foreignKey.table].rows == []
    ensures Execute(db, key) == Some(db.(keys := db.keys[key.key := key.foreignKey]))
  {
  }

  lemma CycleCreated(db: Database, first: Statement, xs: seq<IndexSpec>, second: Statement, ys: seq<IndexSpec>,
                     key: Statement, third: Statement, zs: seq<IndexSpec>)
    requires Creatable(db, first, xs, {}) && Creatable(db, second, ys, {first.table})
             && Creatable(db, third, zs, {first.table})
    requires first.table != second.table && first.table != third.table && second.table != third.table
    requires key.AddKey? && key.key !in db.keys && key.key !in first.keys && key.key !in second.keys
             && key.key.table != third.table
    requires key.foreignKey.table == first.table && key.foreignKey.column in first.columns
             && key.foreignKey.target == second.table
    ensures
      var up := ([first] + Creates(first.table, xs))
          + (([second] + Creates(second.table, ys)) + ([key] + ([third] + Creates(third.table, zs))));
      Migrate(db, up).Some? && Closed(db, Migrate(db, up).value, first, second, key, third)
  {
    var block1, block2 := [first] + Creates(first.table, xs), [second] + Creates(second.table, ys);
    var block3 := [third] + Creates(third.table, zs);
    MigrateFour(db, block1, block2, key, block3);
    CreatableSucceeds(db, first, xs);
    var a := Migrate(db, block1).value;
    StillCreatable(db, a, first, second, ys, {first.table});
    StillCreatable(db, a, first, third, zs, {first.table});
    assert {first.table} - {first.table} == {};
    CreatableSucceeds(a, second, ys);
    var b := Migrate(a, block2).value;
    StillCreatable(a, b, second, third, zs, {});
    var none: set<TableName> := {};
    assert none - {second.table} == none;
    KeyAdded(b, key);
    CreatableWithKey(b, key.key, key.foreignKey, third, zs);
    CreatableSucceeds(Execute(b, key).value, third, zs);
  }

  /** And none of it can succeed unless every name was free and every target in place. */
  lemma CycleNeeds(db: Database, first: Statement, xs: seq<IndexSpec>, second: Statement, ys: seq<IndexSpec>,
                   key: Statement, third: Statement, zs: seq<IndexSpec>)
    requires first.CreateTable? && second.CreateTable? && third.CreateTable? && key.AddKey?
    requires first.constraints == map[] && second.constraints == map[] && third.constraints == map[]
    requires
      var up := ([first] + Creates(first.table, xs))
          + (([second] + Creates(second.table, ys)) + ([key] + ([third] + Creates(third.table, zs))));
      Migrate(db, up).Some?
    ensures first.table !in db.tables && second.table !in db.tables && third.table !in db.tables
    ensures first.keys.Keys !! db.keys.Keys && second.keys.Keys !! db.keys.Keys && key.key !in db.keys
            && third.keys.Keys !! db.keys.Keys
    ensures Free(db, first.table, xs) && Free(db, second.table, ys) && Free(db, third.table, zs)
    ensures forall n :: n in first.keys ==> first.keys[n].target == first.table || first.keys[n].target in db.tables
  {
    var block1, block2 := [first] + Creates(first.table, xs), [second] + Creates(second.table, ys);
    var block3 := [third] + Creates(third.table, zs);
    MigrateFour(db, block1, block2, key, block3);
    BlockNeeds(db, first, xs);
    var a := Migrate(db, block1).value;
    NeededBefore(db, a, second, ys);
    var b := Migrate(a, block2).value;
    BlockNeeds(a, second, ys);
    KeyNeeds(b, key);
    GrewChain(db, a, b);
    GrewChain(db, b, Execute(b, key).value);
    NeededBefore(db, Execute(b, key).value, third, zs);
  }

  /** No name has gone. */
  ghost predicate Grew(db: Database, next: Database) {
    db.tables.Keys <= next.tables.Keys && db.keys.Keys <= next.keys.Keys && db.indexes.Keys <= next.indexes.Keys
  }

  lemma GrewChain(a: Database, b: Database, c: Database)
    requires Grew(a, b) && Grew(b, c)
    ensures Grew(a, c)
  {
  }

  lemma KeyNeeds(db: Database, key: Statement)
    requires key.AddKey? && Execute(db, key).Some?
    ensures key.key !in db.keys && Grew(db, Execute(db, key).value)
  {
  }

  /** What a later block needs free was free from the start. */
  lemma NeededBefore(db: Database, next: Database, create: Statement, xs: seq<IndexSpec>)
    requires create.CreateTable? && create.constraints == map[] && Grew(db, next)
    requires Migrate(next, [create] + Creates(create.table, xs)).Some?
    ensures create.table !in db.tables && create.keys.Keys !! db.keys.Keys && Free(db, create.table, xs)
  {
    BlockNeeds(next, create, xs);
  }

  // ----- 0029 itself -----

  lemma PoliciesDiffer(i: nat, j: nat)
    requires i < j < |PolicyIndexes()|
    ensures NameOf(CreatePolicies().table, PolicyIndexes()[i]) != NameOf(CreatePolicies().table, PolicyIndexes()[j])
  {
  }

  lemma PoliciesBelong(i: nat)
    requires i < |PolicyIndexes()|
    ensures Fits(CreatePolicies().columns, CreatePolicies().table, PolicyIndexes()[i])
  {
  }

  lemma PoliciesFit()
    ensures SpecsFit(CreatePolicies(), PolicyIndexes())
  {
    forall i, j | 0 <= i < j < |PolicyIndexes()|
      ensures NameOf(CreatePolicies().table, PolicyIndexes()[i]) != NameOf(CreatePolicies().table, PolicyIndexes()[j])
    {
      PoliciesDiffer(i, j);
    }
    forall i | 0 <= i < |PolicyIndexes()|
      ensures Fits(CreatePolicies().columns, CreatePolicies().table, PolicyIndexes()[i])
    {
      PoliciesBelong(i);
    }
  }

  lemma PoliciesCreatable(db: Database)
    requires Ready(db)
    ensures Creatable(db, CreatePolicies(), PolicyIndexes(), {})
  {
    PoliciesFit();
    CreatableWhen(db, CreatePolicies(), PolicyIndexes(), {});
  }

  lemma VersionsDiffer(i: nat, j: nat)
    requires i < j < |VersionIndexes()|
    ensures NameOf(CreateVersions().table, VersionIndexes()[i]) != NameOf(CreateVersions().table, VersionIndexes()[j])
  {
  }

  lemma VersionsBelong(i: nat)
    requires i < |VersionIndexes()|
    ensures Fits(CreateVersions().columns, CreateVersions().table, VersionIndexes()[i])
  {
  }

  lemma VersionsFit()
    ensures SpecsFit(CreateVersions(), VersionIndexes())
  {
    forall i, j | 0 <= i < j < |VersionIndexes()|
      ensures NameOf(CreateVersions().table, VersionIndexes()[i]) != NameOf(CreateVersions().table, VersionIndexes()[j])
    {
      VersionsDiffer(i, j);
    }
    forall i | 0 <= i < |VersionIndexes()|
      ensures Fits(CreateVersions().columns, CreateVersions().table, VersionIndexes()[i])
    {
      VersionsBelong(i);
    }
  }

  lemma VersionsCreatable(db: Database)
    requires Ready(db)
    ensures Creatable(db, CreateVersions(), VersionIndexes(), {Policies})
  {
    VersionsFit();
    CreatableWhen(db, CreateVersions(), VersionIndexes(), {Policies});
  }

  lemma AssignmentsDiffer(i: nat, j: nat)
    requires i < j < |AssignmentIndexes()|
    ensures NameOf(PolicyAssignments, AssignmentIndexes()[i]) != NameOf(PolicyAssignments, AssignmentIndexes()[j])
  {
  }

  lemma AssignmentsBelong(i: nat)
    requires i < |AssignmentIndexes()|
    ensures Fits(CreateAssignments().columns, CreateAssignments().table, AssignmentIndexes()[i])
  {
  }

  lemma AssignmentsFit()
    ensures SpecsFit(CreateAssignments(), AssignmentIndexes())
  {
    forall i, j | 0 <= i < j < |AssignmentIndexes()|
      ensures NameOf(PolicyAssignments, AssignmentIndexes()[i]) != NameOf(PolicyAssignments, AssignmentIndexes()[j])
    {
      AssignmentsDiffer(i, j);
    }
    forall i | 0 <= i < |AssignmentIndexes()|
      ensures Fits(CreateAssignments().columns, CreateAssignments().table, AssignmentIndexes()[i])
    {
      AssignmentsBelong(i);
    }
  }

  lemma AssignmentsCreatable(db: Database)
    requires Ready(db)
    ensures Creatable(db, CreateAssignments(), AssignmentIndexes(), {Policies})
  {
    AssignmentsFit();
    CreatableWhen(db, CreateAssignments(), AssignmentIndexes(), {Policies});
  }

  lemma UpgradeSucceeds(db: Database)
    requires Ready(db)
    ensures Migrate(db, Upgrade()).Some?
    ensures Closed(db, Migrate(db, Upgrade()).value, CreatePolicies(), CreateVersions(), LateKey(), CreateAssignments())
  {
    PoliciesCreatable(db);
    VersionsCreatable(db);
    AssignmentsCreatable(db);
    CycleCreated(db, CreatePolicies(), PolicyIndexes(), CreateVersions(), VersionIndexes(), LateKey(),
        CreateAssignments(), AssignmentIndexes());
  }

  /** The upgrade succeeds exactly on a ready database. */
  lemma UpgradeSucceedsExactlyWhen(db: Database)
    ensures Migrate(db, Upgrade()).Some? <==> Ready(db)
  {
    if Ready(db) {
      UpgradeSucceeds(db);
    }
    if Migrate(db, Upgrade()).Some? {
      CycleNeeds(db, CreatePolicies(), PolicyIndexes(), CreateVersions(), VersionIndexes(), LateKey(),
          CreateAssignments(), AssignmentIndexes());
      assert CreatePolicies().keys[Fk(Policies, OrganizationId)].target == Organizations;
      assert Fk(PolicyVersions, PolicyId) in CreateVersions().keys
             && Fk(PolicyAssignments, PolicyId) in CreateAssignments().keys;
    }
  }

  lemma DropsMirrorIndexes()
    ensures Mirror(PolicyIndexes(), PolicyDrops()) && Mirror(VersionIndexes(), VersionDrops())
    ensures Mirror(AssignmentIndexes(), AssignmentDrops())
  {
  }

  /** The downgrade is the upgrade undone, last statement first. */
  lemma DowngradeIsUndo()
    ensures AllInvertible(Upgrade()) && Downgrade() == UndoAll(Upgrade())
  {
    DropsMirrorIndexes();
    UndoTable(CreatePolicies(), PolicyIndexes(), PolicyDrops());
    UndoTable(CreateVersions(), VersionIndexes(), VersionDrops());
    UndoTable(CreateAssignments(), AssignmentIndexes(), AssignmentDrops());
    UndoFour(PolicyBlock(), VersionBlock(), LateKey(), AssignmentBlock());
  }

  /** On every legal database with the names free, 0029 applies and its downgrade takes it
      back; both keep the database legal at every statement. */
  lemma UpgradeTakenBack(db: Database)
    requires Consistent(db) && Ready(db)
    ensures TakesBack(db, Upgrade(), Downgrade())
    ensures LegalThroughout(db, Upgrade(), Downgrade())
  {
    UpgradeSucceeds(db);
    DowngradeIsUndo();
    CreationsTakenBack(db, Upgrade());
    StaysLegal(db, Upgrade(), Downgrade());
  }

  // ----- the cycle leaves no other order -----

  /** With the key written inline, policies could not be created first, whatever is there. */
  lemma InlineKeyFails(db: Database, columns: map<ColumnName, Column>, keys: map<KeyName, ForeignKey>)
    requires PolicyVersions !in db.tables && CurrentVersionFk in keys && keys[CurrentVersionFk] == CurrentVersionKey
    ensures Execute(db, CreateTable(Policies, columns, keys, map[])) == None
  {
  }

  /** Nor could policy_versions come first. */
  lemma VersionsFirstFails(db: Database)
    requires Policies !in db.tables
    ensures Execute(db, CreateVersions()) == None
  {
    assert CreateVersions().keys[Fk(PolicyVersions, PolicyId)].target == Policies;
  }

  lemma CycleKeys(keys: map<KeyName, ForeignKey>, before: map<KeyName, ForeignKey>)
    requires keys == (before + CreatePolicies().keys + CreateVersions().keys)[CurrentVersionFk := CurrentVersionKey]
             + CreateAssignments().keys
    ensures HasCycle(keys) && OwnedAndAssigned(keys)
  {
  }

  ghost predicate HasCycle(keys: map<KeyName, ForeignKey>) {
    && Fk(Policies, CurrentVersionId) in keys
    && keys[Fk(Policies, CurrentVersionId)] == ForeignKey(Policies, CurrentVersionId, PolicyVersions, SetNull)
    && Fk(PolicyVersions, PolicyId) in keys
    && keys[Fk(PolicyVersions, PolicyId)] == ForeignKey(PolicyVersions, PolicyId, Policies, Cascade)
  }

  ghost predicate OwnedAndAssigned(keys: map<KeyName, ForeignKey>) {
    && Fk(Policies, OrganizationId) in keys
    && keys[Fk(Policies, OrganizationId)] == ForeignKey(Policies, OrganizationId, Organizations, Cascade)
    && Fk(PolicyAssignments, PolicyId) in keys
    && keys[Fk(PolicyAssignments, PolicyId)] == ForeignKey(PolicyAssignments, PolicyId, Policies, Cascade)
  }

  /** No policy has two versions of one number. */
  ghost predicate VersionsNumbered(indexes: map<IndexName, Index>) {
    && Uq2(PolicyVersions, PolicyId, VersionNumber) in indexes
    && indexes[Uq2(PolicyVersions, PolicyId, VersionNumber)]
       == Index(PolicyVersions, [PolicyId, VersionNumber], true, Everywhere)
  }

  lemma SecondStands(all: seq<Statement>, a: seq<Statement>, b: seq<Statement>, c: seq<Statement>, end: Database)
    requires all == a + (b + c) && AllStand(all, end)
    ensures AllStand(b, end)
  {
    assert forall i :: 0 <= i < |b| ==> b[i] == all[|a| + i];
  }

  lemma VersionIndexListed()
    ensures |VersionIndexes()| == 8 && VersionIndexes()[7] == UniquePair(PolicyId, VersionNumber)
  {
  }

  lemma {:induction false} IndexStands(create: Statement, xs: seq<IndexSpec>, k: nat, end: Database)
    requires create.CreateTable? && AllStand([create] + Creates(create.table, xs), end) && k < |xs|
    ensures NameOf(create.table, xs[k]) in end.indexes
    ensures end.indexes[NameOf(create.table, xs[k])] == IndexOf(create.table, xs[k])
  {
    assert ([create] + Creates(create.table, xs))[k + 1] == Creates(create.table, xs)[k];
  }

  lemma UpgradeStands(db: Database)
    requires Migrate(db, Upgrade()).Some?
    ensures AllStand(Upgrade(), Migrate(db, Upgrade()).value)
  {
    DowngradeIsUndo();
    CreationsStand(db, Upgrade());
  }

  lemma {:induction false} VersionsNumberedWhen(end: Database, create: Statement, xs: seq<IndexSpec>)
    requires create.CreateTable? && create.table == PolicyVersions
    requires AllStand([create] + Creates(create.table, xs), end)
    requires |xs| == 8 && xs[7] == UniquePair(PolicyId, VersionNumber)
    ensures VersionsNumbered(end.indexes)
  {
    IndexStands(create, xs, 7, end);
  }

  lemma UpgradeNumbersVersions(db: Database)
    requires Migrate(db, Upgrade()).Some?
    ensures VersionsNumbered(Migrate(db, Upgrade()).value.indexes)
  {
    var end := Migrate(db, Upgrade()).value;
    UpgradeStands(db);
    SecondStands(Upgrade(), PolicyBlock(), VersionBlock(), [LateKey()] + AssignmentBlock(), end);
    VersionIndexListed();
    VersionsNumberedWhen(end, CreateVersions(), VersionIndexes());
  }

  /** Every successful upgrade leaves both keys of the cycle, the keys to the owner and from the
      assignments, and the unique numbering of versions. */
  lemma UpgradeLeavesCycle(db: Database)
    requires Ready(db)
    ensures Migrate(db, Upgrade()).Some? && HasCycle(Migrate(db, Upgrade()).value.keys)
    ensures OwnedAndAssigned(Migrate(db, Upgrade()).value.keys)
    ensures VersionsNumbered(Migrate(db, Upgrade()).value.indexes)
  {
    UpgradeSucceeds(db);
    CycleKeys(Migrate(db, Upgrade()).value.keys, db.keys);
    UpgradeNumbersVersions(db);
  }

  /** While both keys stand, whatever rows there are, neither table can be dropped; once the
      late key is dropped, policy_versions can be, if no key outside the cycle targets it. */
  lemma CycleBlocksDrops(db: Database)
    requires Policies in db.tables && PolicyVersions in db.tables && HasCycle(db.keys)
    ensures Execute(db, DropTable(Policies)) == None && Execute(db, DropTable(PolicyVersions)) == None
    ensures
      var cut := db.(keys := db.keys - {CurrentVersionFk});
      Execute(db, DropKey(CurrentVersionFk)) == Some(cut)
      && (Execute(cut, DropTable(PolicyVersions)).Some? <==>
          forall n :: n in db.keys && n != CurrentVersionFk && db.keys[n].target == PolicyVersions ==>
              db.keys[n].table == PolicyVersions)
  {
    assert Referenced(db, Policies) by {
      assert db.keys[Fk(PolicyVersions, PolicyId)].target == Policies;
    }
    assert Referenced(db, PolicyVersions) by {
      assert db.keys[CurrentVersionFk].target == PolicyVersions;
    }
    var cut := db.(keys := db.keys - {CurrentVersionFk});
    forall n | n in db.keys && n != CurrentVersionFk
      ensures n in cut.keys && cut.keys[n] == db.keys[n]
    {
    }
    if Referenced(cut, PolicyVersions) {
      var n :| n in cut.keys && cut.keys[n].target == PolicyVersions && cut.keys[n].table != PolicyVersions;
      assert n in db.keys && n != CurrentVersionFk;
    }
  }

  /** The migration on a connection: it applies exactly when the database is ready for it and
      otherwise leaves it alone; either way the database stays legal. */
  method RunUpgrade(c: Connection) returns (ok: bool)
    requires Consistent(c.db)
    modifies c
    ensures ok <==> Ready(old(c.db))
    ensures !ok ==> c.db == old(c.db)
    ensures ok ==> Migrate(old(c.db), Upgrade()) == Some(c.db) && Migrate(c.db, Downgrade()) == Some(old(c.db))
    ensures ok ==> HasCycle(c.db.keys) && OwnedAndAssigned(c.db.keys) && VersionsNumbered(c.db.indexes)
    ensures Consistent(c.db)
  {
    ghost var db := c.db;
    UpgradeSucceedsExactlyWhen(db);
    ok := c.Apply(Upgrade());
    if ok {
      UpgradeTakenBack(db);
      UpgradeLeavesCycle(db);
      WholeUpgradeLegal(db, Upgrade(), Downgrade());
    }
  }
}
