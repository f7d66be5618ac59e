/** Migrations that add columns to a filled table, copy values into them over a foreign key,
    and then tighten them: why no step of that can fail on legal data. */
module ColumnFill {
  import opened Wrappers
  import opened Schema
  import opened SchemaUndo
  import opened BaseModel

  datatype NewColumn = NewColumn(name: ColumnName, definition: Column)

  function Adds(t: TableName, ns: seq<NewColumn>): seq<Statement> {
    if ns == [] then [] else [AddColumn(t, ns[0].name, ns[0].definition)] + Adds(t, ns[1..])
  }

  function Widen(table: Table, ns: seq<NewColumn>): Table
    decreases ns
  {
    if ns == [] then table
    else
      var n := ns[0];
      Widen(Table(table.columns[n.name := n.definition], WithColumn(table.rows, n.name, Fill(n.definition))), ns[1..])
  }

  /** Absent from the table, different from one another, and fillable. */
  ghost predicate Addable(table: Table, ns: seq<NewColumn>) {
    && (forall k :: 0 <= k < |ns| ==>
        ns[k].name !in table.columns && (ns[k].definition.nullable || Fill(ns[k].definition) != Null))
    && forall k, l :: 0 <= k < l < |ns| ==> ns[k].name != ns[l].name
  }

  function Names(ns: seq<NewColumn>): set<ColumnName> { set n | n in ns :: n.name }

  ghost predicate Filled(rows: seq<Row>, c: ColumnName, v: Value) {
    forall i :: 0 <= i < |rows| ==> c in rows[i] && rows[i][c] == v
  }

  /** Every row extends its original: same order, old columns unchanged. */
  ghost predicate Widened(before: Table, after: Table, news: set<ColumnName>) {
    && before.columns.Keys !! news && after.columns.Keys == before.columns.Keys + news
    && (forall c :: c in before.columns ==> after.columns[c] == before.columns[c])
    && RowsKept(after.rows, before.rows)
  }

  lemma OneColumnWidened(table: Table, n: NewColumn)
    requires n.name !in table.columns && TableOk(table)
    ensures
      var after := Table(table.columns[n.name := n.definition], WithColumn(table.rows, n.name, Fill(n.definition)));
      Widened(table, after, {n.name}) && Filled(after.rows, n.name, Fill(n.definition))
  {
  }

  lemma WidenedChain(a: Table, b: Table, c: Table, x: set<ColumnName>, y: set<ColumnName>)
    requires Widened(a, b, x) && Widened(b, c, y)
    ensures Widened(a, c, x + y)
  {
  }

  lemma FilledKept(after: seq<Row>, before: seq<Row>, c: ColumnName, v: Value)
    requires RowsKept(after, before) && Filled(before, c, v)
    ensures Filled(after, c, v)
  {
  }

  lemma AddOne(db: Database, t: TableName, n: NewColumn)
    requires Consistent(db) && t in db.tables && n.name !in db.tables[t].columns
             && (n.definition.nullable || Fill(n.definition) != Null)
    ensures
      var table := db.tables[t];
      var after := Table(table.columns[n.name := n.definition], WithColumn(table.rows, n.name, Fill(n.definition)));
      Execute(db, AddColumn(t, n.name, n.definition)) == Some(PutTable(db, t, after))
          && Consistent(PutTable(db, t, after))
  {
    ExecuteConsistent(db, AddColumn(t, n.name, n.definition));
  }

  lemma NamesSplit(ns: seq<NewColumn>)
    requires ns != []
    ensures Names(ns) == {ns[0].name} + Names(ns[1..])
  {
  }

  /** Adding columns that may be NULL or have a default always succeeds. */
  lemma {:induction false} AddsSucceed(db: Database, t: TableName, ns: seq<NewColumn>)
    requires Consistent(db) && t in db.tables && Addable(db.tables[t], ns)
    ensures Migrate(db, Adds(t, ns)) == Some(PutTable(db, t, Widen(db.tables[t], ns)))
    ensures Consistent(PutTable(db, t, Widen(db.tables[t], ns)))
    decreases ns
  {
    if ns == [] {
      PutBack(db, t, db.tables[t]);
      PutSame(db, t);
    } else {
      AddOne(db, t, ns[0]);
      var table := db.tables[t];
      var after := Table(table.columns[ns[0].name := ns[0].definition],
          WithColumn(table.rows, ns[0].name, Fill(ns[0].definition)));
      assert Adds(t, ns)[1..] == Adds(t, ns[1..]);
      AddsSucceed(PutTable(db, t, after), t, ns[1..]);
      PutTwice(db, t, after, Widen(after, ns[1..]));
    }
  }

  lemma PutSame(db: Database, t: TableName)
    requires t in db.tables
    ensures PutTable(db, t, db.tables[t]) == db
  {
  }

  lemma PutTwice(db: Database, t: TableName, a: Table, b: Table)
    ensures PutTable(PutTable(db, t, a), t, b) == PutTable(db, t, b)
  {
  }

  lemma OneColumnOk(table: Table, n: NewColumn)
    requires TableOk(table) && n.name !in table.columns && (n.definition.nullable || Fill(n.definition) != Null)
    ensures TableOk(Table(table.columns[n.name := n.definition], WithColumn(table.rows, n.name, Fill(n.definition))))
  {
    forall i | 0 <= i < |table.rows|
      ensures RowOk(table.columns[n.name := n.definition], WithColumn(table.rows, n.name, Fill(n.definition))[i])
    {
      assert RowOk(table.columns, table.rows[i]);
    }
  }

  /** What the widened table holds. */
  lemma {:induction false} WidenHolds(table: Table, ns: seq<NewColumn>, k: int)
    requires TableOk(table) && Addable(table, ns)
    ensures Widened(table, Widen(table, ns), Names(ns))
    ensures 0 <= k < |ns| ==>
              && ns[k].name in Widen(table, ns).columns && Widen(table, ns).columns[ns[k].name] == ns[k].definition
              && Filled(Widen(table, ns).rows, ns[k].name, Fill(ns[k].definition))
    decreases ns
  {
    if ns != [] {
      var n := ns[0];
      var after := Table(table.columns[n.name := n.definition], WithColumn(table.rows, n.name, Fill(n.definition)));
      OneColumnWidened(table, n);
      OneColumnOk(table, n);
      WidenHolds(after, ns[1..], k - 1);
      NamesSplit(ns);
      WidenedChain(table, after, Widen(after, ns[1..]), {n.name}, Names(ns[1..]));
      if k == 0 {
        FilledKept(Widen(after, ns[1..]).rows, after.rows, n.name, Fill(n.definition));
      }
    } else {
      assert table.columns.Keys + {} == table.columns.Keys;
    }
  }

  // ----- rewriting only the new columns -----

  ghost predicate AgreeOff(rows: seq<Row>, out: seq<Row>, cs: set<ColumnName>) {
    |out| == |rows| && forall i :: 0 <= i < |rows| ==> RowAgreesOff(rows[i], out[i], cs)
  }

  ghost predicate RowAgreesOff(r: Row, s: Row, cs: set<ColumnName>) {
    r.Keys == s.Keys && forall c :: c in r && c !in cs ==> r[c] == s[c]
  }

  lemma AgreeingIds(rows: seq<Row>, out: seq<Row>, cs: set<ColumnName>)
    requires AgreeOff(rows, out, cs) && Id !in cs && IdsDistinct(rows)
    ensures IdsDistinct(out)
  {
  }

  /** Values written to columns no key and no index looks at keep the database legal. */
  lemma QuietRewrite(db: Database, t: TableName, out: seq<Row>, cs: set<ColumnName>)
    requires Consistent(db) && t in db.tables && Quiet(db, t, cs) && Id !in cs
    requires AgreeOff(db.tables[t].rows, out, cs)
    requires forall i :: 0 <= i < |out| ==> RowOk(db.tables[t].columns, out[i])
    ensures Consistent(PutTable(db, t, db.tables[t].(rows := out)))
  {
    var table := db.tables[t];
    var kept := table.columns.Keys - cs;
    assert TableOk(table);
    AgreeingIds(table.rows, out, cs);
    forall i, c | 0 <= i < |out| && c in kept
      ensures c in out[i] && c in table.rows[i] && out[i][c] == table.rows[i][c]
    {
      assert RowAgreesOff(table.rows[i], out[i], cs) && RowOk(table.columns, out[i]);
    }
    forall n | n in db.keys && db.keys[n].table == t
      ensures db.keys[n].column in kept
    {
      assert KeyDeclared(db, db.keys[n]);
    }
    forall n | n in db.indexes && db.indexes[n].table == t
      ensures (forall c :: c in db.indexes[n].columns ==> c in kept) && Mentions(db.indexes[n].where) <= kept
    {
      QuietIndex(db, t, cs, n);
    }
    RewriteConsistent(db, t, table.(rows := out), kept);
  }

  lemma QuietIndex(db: Database, t: TableName, cs: set<ColumnName>, n: IndexName)
    requires Quiet(db, t, cs) && n in db.indexes && db.indexes[n].table == t && IndexDeclared(db, db.indexes[n])
    ensures forall c :: c in db.indexes[n].columns ==> c in db.tables[t].columns.Keys - cs
    ensures Mentions(db.indexes[n].where) <= db.tables[t].columns.Keys - cs
  {
  }

  // ----- the join -----

  /** Row `r` carries the non-NULL values, in columns `cs`, of the source row it points at. */
  ghost predicate RowJoined(r: Row, via: ColumnName, source: seq<Row>, cs: set<ColumnName>) {
    exists j :: 0 <= j < |source| && MatchesRow(r, via, source[j], cs)
  }

  ghost predicate MatchesRow(r: Row, via: ColumnName, s: Row, cs: set<ColumnName>) {
    && via in r && Id in s && s[Id] == r[via]
    && forall c :: c in cs ==> c in r && c in s && r[c] == s[c] && r[c] != Null
  }

  ghost predicate Joined(rows: seq<Row>, via: ColumnName, source: seq<Row>, cs: set<ColumnName>) {
    forall i :: 0 <= i < |rows| ==> RowJoined(rows[i], via, source, cs)
  }

  lemma {:induction false} FindIdFinds(rows: seq<Row>, v: Value) returns (j: nat)
    requires HasId(rows, v)
    ensures j < |rows| && FindId(rows, v) == Some(rows[j]) && Id in rows[j] && rows[j][Id] == v
    decreases rows
  {
    if Id in rows[0] && rows[0][Id] == v {
      j := 0;
    } else {
      var i :| 0 <= i < |rows| && Id in rows[i] && rows[i][Id] == v;
      assert rows[1..][i - 1] == rows[i];
      j := FindIdFinds(rows[1..], v);
      j := j + 1;
    }
  }

  /** What the join needs: a required reference and required values at its other end. */
  ghost predicate Joinable(db: Database, t: TableName, n: KeyName, via: ColumnName, source: TableName,
                           cs: set<ColumnName>) {
    && t in db.tables && source in db.tables && t != source
    && via in db.tables[t].columns && !db.tables[t].columns[via].nullable
    && n in db.keys && db.keys[n].table == t && db.keys[n].column == via && db.keys[n].target == source
    && forall c :: c in cs ==> c in db.tables[source].columns && !db.tables[source].columns[c].nullable
  }

  lemma RowCopied(db: Database, t: TableName, n: KeyName, via: ColumnName, source: TableName, cs: set<ColumnName>,
                  i: nat)
    requires Consistent(db) && Joinable(db, t, n, via, source, cs) && i < |db.tables[t].rows|
    requires via !in cs && cs <= db.tables[t].columns.Keys
    ensures
      var r, out := db.tables[t].rows[i], CopyRows(db.tables[t].rows, via, db.tables[source].rows, cs)[i];
      RowOk(db.tables[t].columns, out) && RowAgreesOff(r, out, cs) && RowJoined(out, via, db.tables[source].rows, cs)
  {
    var r := db.tables[t].rows[i];
    assert TableOk(db.tables[t]) && RowOk(db.tables[t].columns, r);
    assert KeyHolds(db, db.keys[n]);
    var j := FindIdFinds(db.tables[source].rows, r[via]);
    var s := db.tables[source].rows[j];
    assert TableOk(db.tables[source]) && RowOk(db.tables[source].columns, s);
    assert MatchesRow(Copied(r, s, cs), via, s, cs);
  }

  lemma RowsCopied(db: Database, t: TableName, n: KeyName, via: ColumnName, source: TableName, cs: set<ColumnName>,
                   out: seq<Row>)
    requires Consistent(db) && Joinable(db, t, n, via, source, cs) && via !in cs && cs <= db.tables[t].columns.Keys
    requires out == CopyRows(db.tables[t].rows, via, db.tables[source].rows, cs)
    ensures AgreeOff(db.tables[t].rows, out, cs) && Joined(out, via, db.tables[source].rows, cs)
    ensures forall i :: 0 <= i < |out| ==> RowOk(db.tables[t].columns, out[i])
  {
    forall i | 0 <= i < |out|
      ensures RowOk(db.tables[t].columns, out[i]) && RowAgreesOff(db.tables[t].rows[i], out[i], cs)
      ensures RowJoined(out[i], via, db.tables[source].rows, cs)
    {
      RowCopied(db, t, n, via, source, cs, i);
    }
  }

  lemma CopyExecutes(db: Database, t: TableName, via: ColumnName, source: TableName, cs: set<ColumnName>,
                     next: Database)
    requires t in db.tables && source in db.tables && Consistent(next)
    requires next == PutTable(db, t,
             db.tables[t].(rows := CopyRows(db.tables[t].rows, via, db.tables[source].rows, cs)))
    ensures Execute(db, CopyFrom(t, via, source, cs)) == Some(next)
  {
  }

  /** The join update reaches every row: it succeeds, writes only its columns, and leaves in
      each row the values of the row it references. */
  lemma CopySucceeds(db: Database, t: TableName, n: KeyName, via: ColumnName, source: TableName, cs: set<ColumnName>)
    requires Consistent(db) && Joinable(db, t, n, via, source, cs) && Quiet(db, t, cs)
    requires via !in cs && Id !in cs && cs <= db.tables[t].columns.Keys
    ensures
      var out := CopyRows(db.tables[t].rows, via, db.tables[source].rows, cs);
      && Execute(db, CopyFrom(t, via, source, cs)) == Some(PutTable(db, t, db.tables[t].(rows := out)))
      && Consistent(PutTable(db, t, db.tables[t].(rows := out)))
      && AgreeOff(db.tables[t].rows, out, cs) && Joined(out, via, db.tables[source].rows, cs)
  {
    var out := CopyRows(db.tables[t].rows, via, db.tables[source].rows, cs);
    RowsCopied(db, t, n, via, source, cs, out);
    QuietRewrite(db, t, out, cs);
    CopyExecutes(db, t, via, source, cs, PutTable(db, t, db.tables[t].(rows := out)));
  }

  /** Ids being unique, the joined row is the only one it can be. */
  lemma JoinedRowIsUnique(r: Row, via: ColumnName, source: seq<Row>, cs: set<ColumnName>, j: nat, c: ColumnName)
    requires RowJoined(r, via, source, cs) && IdsDistinct(source) && via in r
    requires j < |source| && Id in source[j] && source[j][Id] == r[via] && c in cs
    ensures c in r && c in source[j] && r[c] == source[j][c] && r[c] != Null
  {
  }

  /** A conditional constant written to a quiet column. */
  lemma SetSucceeds(db: Database, t: TableName, c: ColumnName, v: Value, w: Where)
    requires Consistent(db) && t in db.tables && c in db.tables[t].columns && Quiet(db, t, {c}) && c != Id && v != Null
    ensures
      var out := SetRows(db.tables[t].rows, c, v, w);
      && Execute(db, SetWhere(t, c, v, w)) == Some(PutTable(db, t, db.tables[t].(rows := out)))
      && Consistent(PutTable(db, t, db.tables[t].(rows := out))) && AgreeOff(db.tables[t].rows, out, {c})
  {
    var out := SetRows(db.tables[t].rows, c, v, w);
    assert TableOk(db.tables[t]);
    SetRowsOk(db.tables[t], c, v, w);
    QuietRewrite(db, t, out, {c});
    SetExecutes(db, t, c, v, w, PutTable(db, t, db.tables[t].(rows := out)));
  }

  lemma SetRowsOk(table: Table, c: ColumnName, v: Value, w: Where)
    requires TableOk(table) && v != Null
    ensures
      var out := SetRows(table.rows, c, v, w);
      AgreeOff(table.rows, out, {c}) && forall i :: 0 <= i < |out| ==> RowOk(table.columns, out[i])
  {
    var out := SetRows(table.rows, c, v, w);
    forall i | 0 <= i < |out|
      ensures RowOk(table.columns, out[i]) && RowAgreesOff(table.rows[i], out[i], {c})
    {
      assert RowOk(table.columns, table.rows[i]);
    }
  }

  lemma SetExecutes(db: Database, t: TableName, c: ColumnName, v: Value, w: Where, next: Database)
    requires t in db.tables && Consistent(next)
             && next == PutTable(db, t, db.tables[t].(rows := SetRows(db.tables[t].rows, c, v, w)))
    ensures Execute(db, SetWhere(t, c, v, w)) == Some(next)
  {
  }

  lemma JoinedAgrees(rows: seq<Row>, out: seq<Row>, off: set<ColumnName>, via: ColumnName, source: seq<Row>,
                     cs: set<ColumnName>)
    requires AgreeOff(rows, out, off) && Joined(rows, via, source, cs) && via !in off && off !! cs
    ensures Joined(out, via, source, cs)
  {
  }

  lemma FilledAgrees(rows: seq<Row>, out: seq<Row>, off: set<ColumnName>, c: ColumnName, v: Value)
    requires AgreeOff(rows, out, off) && Filled(rows, c, v) && c !in off
    ensures Filled(out, c, v)
  {
  }

  lemma KeptAgrees(before: seq<Row>, rows: seq<Row>, out: seq<Row>, off: set<ColumnName>)
    requires RowsKept(rows, before) && AgreeOff(rows, out, off)
    requires forall i :: 0 <= i < |before| ==> before[i].Keys !! off
    ensures RowsKept(out, before)
  {
  }

  /** Joined columns are never NULL, so they can be tightened. */
  lemma TightenSucceeds(db: Database, t: TableName, c: ColumnName, via: ColumnName, source: seq<Row>,
                        cs: set<ColumnName>)
    requires Consistent(db) && t in db.tables && c in db.tables[t].columns && c in cs
             && Joined(db.tables[t].rows, via, source, cs)
    ensures
      var table := db.tables[t];
      var next := PutTable(db, t, table.(columns := table.columns[c := table.columns[c].(nullable := false)]));
      Execute(db, SetNotNull(t, c)) == Some(next) && Consistent(next)
  {
    forall i | 0 <= i < |db.tables[t].rows|
      ensures c in db.tables[t].rows[i] && db.tables[t].rows[i][c] != Null
    {
      assert RowJoined(db.tables[t].rows[i], via, source, cs);
    }
    ExecuteConsistent(db, SetNotNull(t, c));
  }

  /** The joined values were keys of the source's rows, so they are keys here too. */
  lemma JoinedKeyHolds(db: Database, t: TableName, via: ColumnName, source: TableName, cs: set<ColumnName>,
                       n: KeyName, k: ForeignKey)
    requires Consistent(db) && t in db.tables && source in db.tables
             && Joined(db.tables[t].rows, via, db.tables[source].rows, cs)
    requires n in db.keys && db.keys[n].table == source && db.keys[n].column in cs
    requires k.table == t && k.column == db.keys[n].column && k.target == db.keys[n].target
             && k.column in db.tables[t].columns
    ensures KeyDeclared(db, k) && KeyHolds(db, k)
  {
  }

  // ----- a table part way through the work -----

  /** Only table `t` differs, by the new columns, and the database is legal. */
  ghost predicate Staged(db: Database, mid: Database, t: TableName, news: set<ColumnName>) {
    && t in db.tables && t in mid.tables && mid == PutTable(db, t, mid.tables[t])
    && Consistent(mid) && Widened(db.tables[t], mid.tables[t], news)
  }

  lemma StagedQuiet(db: Database, mid: Database, t: TableName, news: set<ColumnName>, cs: set<ColumnName>)
    requires Declared(db) && Staged(db, mid, t, news) && cs <= news
    ensures Quiet(mid, t, cs)
  {
    forall n | n in mid.keys && mid.keys[n].table == t
      ensures mid.keys[n].column !in cs
    {
      assert KeyDeclared(db, db.keys[n]);
    }
    forall n, c | n in mid.indexes && c in cs
      ensures !Uses(mid.indexes[n], t, c)
    {
      assert IndexDeclared(db, db.indexes[n]);
    }
  }

  lemma StagedRewrite(db: Database, mid: Database, t: TableName, news: set<ColumnName>, out: seq<Row>,
                      cs: set<ColumnName>)
    requires TableOkAt(db, t) && Staged(db, mid, t, news) && cs <= news && AgreeOff(mid.tables[t].rows, out, cs)
    requires Consistent(PutTable(mid, t, mid.tables[t].(rows := out)))
    ensures Staged(db, PutTable(mid, t, mid.tables[t].(rows := out)), t, news)
  {
    var before := db.tables[t];
    forall i | 0 <= i < |before.rows|
      ensures before.rows[i].Keys !! cs
    {
      assert RowOk(before.columns, before.rows[i]);
    }
    KeptAgrees(before.rows, mid.tables[t].rows, out, cs);
    PutTwice(db, t, mid.tables[t], mid.tables[t].(rows := out));
  }

  ghost predicate TableOkAt(db: Database, t: TableName) { t in db.tables && TableOk(db.tables[t]) }

  lemma StagedAdds(db: Database, t: TableName, ns: seq<NewColumn>)
    requires Consistent(db) && t in db.tables && Addable(db.tables[t], ns)
    ensures Migrate(db, Adds(t, ns)).Some?
    ensures
      var mid := Migrate(db, Adds(t, ns)).value;
      Staged(db, mid, t, Names(ns))
      && forall k :: 0 <= k < |ns| ==>
           ns[k].name in mid.tables[t].columns && Filled(mid.tables[t].rows, ns[k].name, Fill(ns[k].definition))
  {
    AddsSucceed(db, t, ns);
    var wide := Widen(db.tables[t], ns);
    assert TableOk(db.tables[t]);
    WidenHolds(db.tables[t], ns, 0);
    forall k | 0 <= k < |ns|
      ensures ns[k].name in wide.columns && Filled(wide.rows, ns[k].name, Fill(ns[k].definition))
    {
      WidenHolds(db.tables[t], ns, k);
    }
  }

  lemma StagedCopy(db: Database, mid: Database, t: TableName, news: set<ColumnName>, n: KeyName, via: ColumnName,
                   source: TableName, cs: set<ColumnName>)
    requires Consistent(db) && Staged(db, mid, t, news) && Joinable(db, t, n, via, source, cs) && cs <= news
    ensures Execute(mid, CopyFrom(t, via, source, cs)).Some?
    ensures
      var next := Execute(mid, CopyFrom(t, via, source, cs)).value;
      && Staged(db, next, t, news) && next.tables[t].columns == mid.tables[t].columns
      && AgreeOff(mid.tables[t].rows, next.tables[t].rows, cs)
      && Joined(next.tables[t].rows, via, db.tables[source].rows, cs)
  {
    ConsistentDeclared(db);
    StagedQuiet(db, mid, t, news, cs);
    assert TableOk(db.tables[t]);
    CopySucceeds(mid, t, n, via, source, cs);
    StagedRewrite(db, mid, t, news, CopyRows(mid.tables[t].rows, via, mid.tables[source].rows, cs), cs);
  }

  lemma StagedSet(db: Database, mid: Database, t: TableName, news: set<ColumnName>, c: ColumnName, v: Value, w: Where)
    requires Consistent(db) && Staged(db, mid, t, news) && c in news && v != Null
    ensures Execute(mid, SetWhere(t, c, v, w)).Some?
    ensures
      var next := Execute(mid, SetWhere(t, c, v, w)).value;
      && Staged(db, next, t, news) && next.tables[t].columns == mid.tables[t].columns
      && AgreeOff(mid.tables[t].rows, next.tables[t].rows, {c})
      && next.tables[t].rows == SetRows(mid.tables[t].rows, c, v, w)
  {
    ConsistentDeclared(db);
    StagedQuiet(db, mid, t, news, {c});
    assert TableOk(db.tables[t]);
    SetSucceeds(mid, t, c, v, w);
    StagedRewrite(db, mid, t, news, SetRows(mid.tables[t].rows, c, v, w), {c});
  }

  lemma StagedTighten(db: Database, mid: Database, t: TableName, news: set<ColumnName>, c: ColumnName, via: ColumnName,
                      source: seq<Row>, cs: set<ColumnName>)
    requires Staged(db, mid, t, news) && c in cs && cs <= news && Joined(mid.tables[t].rows, via, source, cs)
    ensures Execute(mid, SetNotNull(t, c)).Some?
    ensures
      var next := Execute(mid, SetNotNull(t, c)).value;
      && Staged(db, next, t, news) && next.tables[t].rows == mid.tables[t].rows
      && next.tables[t].columns[c].nullable == false
      && forall d :: d in mid.tables[t].columns && d != c ==> next.tables[t].columns[d] == mid.tables[t].columns[d]
  {
    TightenSucceeds(mid, t, c, via, source, cs);
    var table := mid.tables[t];
    PutTwice(db, t, table, table.(columns := table.columns[c := table.columns[c].(nullable := false)]));
  }

  lemma MigrateFirst(db: Database, s: Statement, ss: seq<Statement>)
    ensures Migrate(db, [s] + ss) == match Execute(db, s) case None => None case Some(next) => Migrate(next, ss)
  {
  }

  lemma {:induction false} AddsAreColumnWork(t: TableName, ns: seq<NewColumn>, cs: set<ColumnName>)
    requires Names(ns) <= cs
    ensures forall i :: 0 <= i < |Adds(t, ns)| ==> ColumnWork(Adds(t, ns)[i], t, cs)
    decreases ns
  {
    if ns != [] {
      NamesSplit(ns);
      AddsAreColumnWork(t, ns[1..], cs);
      forall i | 0 <= i < |Adds(t, ns)|
        ensures ColumnWork(Adds(t, ns)[i], t, cs)
      {
        if i > 0 {
          assert Adds(t, ns)[i] == Adds(t, ns[1..])[i - 1];
        }
      }
    }
  }

  /** Add one nullable column, fill it over the join, tighten it. */
  lemma ColumnJoined(db: Database, t: TableName, c: ColumnName, definition: Column, n: KeyName, via: ColumnName,
                     source: TableName)
    requires Consistent(db) && Joinable(db, t, n, via, source, {c}) && c !in db.tables[t].columns && definition.nullable
    ensures
      var work := Adds(t, [NewColumn(c, definition)]) + ([CopyFrom(t, via, source, {c})] + [SetNotNull(t, c)]);
      Migrate(db, work).Some?
      && var mid := Migrate(db, work).value;
      && Staged(db, mid, t, {c}) && Joined(mid.tables[t].rows, via, db.tables[source].rows, {c})
      && !mid.tables[t].columns[c].nullable
  {
    var ns := [NewColumn(c, definition)];
    var copy, tighten := CopyFrom(t, via, source, {c}), SetNotNull(t, c);
    assert Names(ns) == {c} by {
      assert ns[0].name == c;
    }
    StagedAdds(db, t, ns);
    var a := Migrate(db, Adds(t, ns)).value;
    StagedCopy(db, a, t, {c}, n, via, source, {c});
    var b := Execute(a, copy).value;
    StagedTighten(db, b, t, {c}, c, via, db.tables[source].rows, {c});
    MigrateConcat(db, Adds(t, ns), [copy] + [tighten]);
    MigrateFirst(a, copy, [tighten]);
    MigrateOne(b, tighten);
  }

  // ----- several columns, two joined and one set by a condition -----

  /** The columns of `ns` outside `off` still hold their defaults. */
  ghost predicate Defaults(rows: seq<Row>, ns: seq<NewColumn>, off: set<ColumnName>) {
    forall k :: 0 <= k < |ns| && ns[k].name !in off ==> Filled(rows, ns[k].name, Fill(ns[k].definition))
  }

  /** Column `c` is `v` where the original row met `w`, and `otherwise` elsewhere. */
  ghost predicate SetBy(before: seq<Row>, after: seq<Row>, c: ColumnName, v: Value, w: Where, otherwise: Value) {
    |after| == |before|
    && forall i :: 0 <= i < |after| ==> c in after[i] && after[i][c] == if Holds(w, before[i]) then v else otherwise
  }

  lemma SetRowsSet(before: seq<Row>, rows: seq<Row>, c: ColumnName, v: Value, w: Where, otherwise: Value)
    requires RowsKept(rows, before) && Filled(rows, c, otherwise)
    requires forall i :: 0 <= i < |before| ==> Mentions(w) <= before[i].Keys
    ensures SetBy(before, SetRows(rows, c, v, w), c, v, w, otherwise)
  {
    forall i | 0 <= i < |rows|
      ensures Holds(w, rows[i]) == Holds(w, before[i])
    {
      assert RowKept(rows[i], before[i]);
      HoldsAgrees(w, before[i], rows[i]);
    }
  }

  /** Copy two columns over the join, set a third by a condition, tighten the two. */
  function Refinement(t: TableName, via: ColumnName, source: TableName, a: ColumnName, b: ColumnName,
                      c: ColumnName, v: Value, w: Where): seq<Statement>
  {
    [CopyFrom(t, via, source, {a, b})] + ([SetWhere(t, c, v, w)] + ([SetNotNull(t, a)] + [SetNotNull(t, b)]))
  }

  ghost predicate Refined(db: Database, mid: Database, t: TableName, ns: seq<NewColumn>, via: ColumnName,
                          source: TableName,
                          a: ColumnName, b: ColumnName, c: ColumnName, v: Value, w: Where, otherwise: Value)
  {
    && Staged(db, mid, t, Names(ns)) && source in db.tables
    && Joined(mid.tables[t].rows, via, db.tables[source].rows, {a, b})
    && SetBy(db.tables[t].rows, mid.tables[t].rows, c, v, w, otherwise)
    && Defaults(mid.tables[t].rows, ns, {a, b, c})
  }

  lemma CopiedAndSet(db: Database, mid: Database, t: TableName, ns: seq<NewColumn>, n: KeyName, via: ColumnName,
                     source: TableName, a: ColumnName, b: ColumnName, c: ColumnName, v: Value, w: Where,
                         otherwise: Value)
    requires Consistent(db) && Joinable(db, t, n, via, source, {a, b}) && Staged(db, mid, t, Names(ns))
    requires a in Names(ns) && b in Names(ns) && c in Names(ns) && c !in {a, b} && v != Null
    requires Mentions(w) <= db.tables[t].columns.Keys
    requires Defaults(mid.tables[t].rows, ns, {}) && Filled(mid.tables[t].rows, c, otherwise)
    ensures
      var copy, write := CopyFrom(t, via, source, {a, b}), SetWhere(t, c, v, w);
      && Execute(mid, copy).Some? && Execute(Execute(mid, copy).value, write).Some?
      && Refined(db, Execute(Execute(mid, copy).value, write).value, t, ns, via, source, a, b, c, v, w, otherwise)
  {
    StagedCopy(db, mid, t, Names(ns), n, via, source, {a, b});
    var x := Execute(mid, CopyFrom(t, via, source, {a, b})).value;
    StagedSet(db, x, t, Names(ns), c, v, w);
    RowsMention(db, t, w);
    RowsRefined(db.tables[t].rows, mid.tables[t].rows, x.tables[t].rows, ns, via, db.tables[source].rows, a, b, c, v,
        w, otherwise);
  }

  /** The same on the rows alone. */
  lemma RowsRefined(before: seq<Row>, added: seq<Row>, rows: seq<Row>, ns: seq<NewColumn>, via: ColumnName,
                    source: seq<Row>, a: ColumnName, b: ColumnName, c: ColumnName, v: Value, w: Where, otherwise: Value)
    requires RowsKept(rows, before) && Defaults(added, ns, {}) && Filled(added, c, otherwise) && c !in {a, b}
    requires AgreeOff(added, rows, {a, b}) && Joined(rows, via, source, {a, b}) && via != c
    requires forall i :: 0 <= i < |before| ==> Mentions(w) <= before[i].Keys
    ensures
      var out := SetRows(rows, c, v, w);
      Joined(out, via, source, {a, b}) && SetBy(before, out, c, v, w, otherwise) && Defaults(out, ns, {a, b, c})
  {
    var out := SetRows(rows, c, v, w);
    SetAgrees(rows, c, v, w);
    FilledAgrees(added, rows, {a, b}, c, otherwise);
    SetRowsSet(before, rows, c, v, w, otherwise);
    DefaultsTwice(added, rows, out, ns, a, b, c);
    JoinedAgrees(rows, out, {c}, via, source, {a, b});
  }

  lemma SetAgrees(rows: seq<Row>, c: ColumnName, v: Value, w: Where)
    ensures AgreeOff(rows, SetRows(rows, c, v, w), {c})
  {
  }

  lemma DefaultsTwice(added: seq<Row>, rows: seq<Row>, out: seq<Row>, ns: seq<NewColumn>, a: ColumnName,
                      b: ColumnName, c: ColumnName)
    requires Defaults(added, ns, {}) && AgreeOff(added, rows, {a, b}) && AgreeOff(rows, out, {c})
    ensures Defaults(out, ns, {a, b, c})
  {
  }

  lemma RowsMention(db: Database, t: TableName, w: Where)
    requires Consistent(db) && t in db.tables && Mentions(w) <= db.tables[t].columns.Keys
    ensures forall i :: 0 <= i < |db.tables[t].rows| ==> Mentions(w) <= db.tables[t].rows[i].Keys
  {
  }

  lemma MigrateFourSteps(db: Database, p: Statement, q: Statement, r: Statement, s: Statement)
    ensures Migrate(db, [p] + ([q] + ([r] + [s]))) ==
            match Execute(db, p) case None => None case Some(x) =>
              match Execute(x, q) case None => None case Some(y) =>
                match Execute(y, r) case None => None case Some(z) => Execute(z, s)
  {
    MigrateFirst(db, p, [q] + ([r] + [s]));
    if Execute(db, p).Some? {
      var x := Execute(db, p).value;
      MigrateFirst(x, q, [r] + [s]);
      if Execute(x, q).Some? {
        var y := Execute(x, q).value;
        MigrateFirst(y, r, [s]);
        if Execute(y, r).Some? {
          MigrateOne(Execute(y, r).value, s);
        }
      }
    }
  }

  /** None of the steps can fail, and this is what they leave. */
  lemma RefinementSucceeds(db: Database, t: TableName, ns: seq<NewColumn>, n: KeyName, via: ColumnName,
                           source: TableName, a: ColumnName, b: ColumnName, c: ColumnName, v: Value, w: Where, k: nat)
    requires Consistent(db) && Joinable(db, t, n, via, source, {a, b}) && Addable(db.tables[t], ns)
    requires a in Names(ns) && b in Names(ns) && k < |ns| && ns[k].name == c && c !in {a, b} && a != b && v != Null
    requires Mentions(w) <= db.tables[t].columns.Keys
    ensures
      var work := Adds(t, ns) + Refinement(t, via, source, a, b, c, v, w);
      Migrate(db, work).Some?
      && var mid := Migrate(db, work).value;
      && Refined(db, mid, t, ns, via, source, a, b, c, v, w, Fill(ns[k].definition))
      && !mid.tables[t].columns[a].nullable && !mid.tables[t].columns[b].nullable
  {
    var news, f := Names(ns), Fill(ns[k].definition);
    StagedAdds(db, t, ns);
    var added := Migrate(db, Adds(t, ns)).value;
    assert ns[k].name in news;
    CopiedAndSet(db, added, t, ns, n, via, source, a, b, c, v, w, f);
    var copy, write := CopyFrom(t, via, source, {a, b}), SetWhere(t, c, v, w);
    var x := Execute(Execute(added, copy).value, write).value;
    StagedTighten(db, x, t, news, a, via, db.tables[source].rows, {a, b});
    var y := Execute(x, SetNotNull(t, a)).value;
    StagedTighten(db, y, t, news, b, via, db.tables[source].rows, {a, b});
    MigrateConcat(db, Adds(t, ns), Refinement(t, via, source, a, b, c, v, w));
    MigrateFourSteps(added, copy, write, SetNotNull(t, a), SetNotNull(t, b));
  }

  lemma RefinementIsColumnWork(t: TableName, via: ColumnName, source: TableName, a: ColumnName, b: ColumnName,
                               c: ColumnName, v: Value, w: Where, ns: seq<NewColumn>)
    requires {a, b, c} <= Names(ns)
    ensures
      var work := Adds(t, ns) + Refinement(t, via, source, a, b, c, v, w);
      AllColumnWork(work, t, Names(ns))
  {
    AddsAreColumnWork(t, ns, Names(ns));
    var rest := Refinement(t, via, source, a, b, c, v, w);
    assert rest == [CopyFrom(t, via, source, {a, b}), SetWhere(t, c, v, w), SetNotNull(t, a), SetNotNull(t, b)];
    assert forall i :: 0 <= i < |rest| ==> ColumnWork(rest[i], t, Names(ns));
  }

  lemma OneRowOk(columns: map<ColumnName, Column>, r: Row)
    requires Id in columns && !columns[Id].nullable && RowOk(columns, r)
    ensures TableOk(Table(columns, [r]))
  {
  }

  // ----- taking it back -----

  ghost predicate AllColumnWork(ss: seq<Statement>, t: TableName, cs: set<ColumnName>) {
    forall i :: 0 <= i < |ss| ==> ColumnWork(ss[i], t, cs)
  }

  /** Column work followed by keys, indexes and tables: dropping the latter in reverse and then
      the columns restores the database. */
  lemma MixedTakenBack(db: Database, work: seq<Statement>, extras: seq<Statement>, t: TableName, cs: seq<ColumnName>)
    requires Consistent(db) && t in db.tables && Migrate(db, work).Some? && AllInvertible(extras)
    requires Migrate(Migrate(db, work).value, extras).Some?
    requires db.tables[t].columns.Keys !! (set c | c in cs)
    requires forall i :: 0 <= i < |work| ==> ColumnWork(work[i], t, set c | c in cs)
    requires t in Migrate(db, work).value.tables
    requires forall i :: 0 <= i < |cs| ==> cs[i] in Migrate(db, work).value.tables[t].columns && cs[i] != Id
    requires forall i, j :: 0 <= i < j < |cs| ==> cs[i] != cs[j]
    ensures TakesBack(db, work + extras, UndoAll(extras) + Drops(t, cs))
    ensures LegalThroughout(db, work + extras, UndoAll(extras) + Drops(t, cs))
  {
    var mid := Migrate(db, work).value;
    MigrateConsistent(db, work, |work|);
    assert work[..|work|] == work;
    MigrateConcat(db, work, extras);
    var end := Migrate(mid, extras).value;
    RoundTrip(mid, extras);
    ColumnsRoundTrip(db, work, t, cs);
    MigrateConcat(end, UndoAll(extras), Drops(t, cs));
    AllRemove(extras, t, cs);
    TakesBackWhen(db, work + extras, UndoAll(extras) + Drops(t, cs));
    StaysLegal(db, work + extras, UndoAll(extras) + Drops(t, cs));
  }

  /** The same, from what staged work leaves. */
  lemma StagedTakenBack(db: Database, work: seq<Statement>, mid: Database, extras: seq<Statement>, t: TableName,
                        news: set<ColumnName>, cs: seq<ColumnName>)
    requires Consistent(db) && Migrate(db, work) == Some(mid) && Staged(db, mid, t, news)
    requires AllInvertible(extras) && Migrate(mid, extras).Some?
    requires Lists(cs, news) && Id !in news && AllColumnWork(work, t, news)
    ensures TakesBack(db, work + extras, UndoAll(extras) + Drops(t, cs))
    ensures LegalThroughout(db, work + extras, UndoAll(extras) + Drops(t, cs))
  {
    MixedTakenBack(db, work, extras, t, cs);
  }

  ghost predicate Lists(cs: seq<ColumnName>, news: set<ColumnName>) {
    && (set c | c in cs) == news && forall i, j :: 0 <= i < j < |cs| ==> cs[i] != cs[j]
  }

  lemma ReverseLists(cs: seq<ColumnName>, ns: seq<NewColumn>)
    requires |cs| == |ns| && forall k :: 0 <= k < |ns| ==> ns[k].name == cs[|ns| - 1 - k]
    requires forall k, l :: 0 <= k < l < |ns| ==> ns[k].name != ns[l].name
    ensures Lists(cs, Names(ns))
  {
    forall i | 0 <= i < |cs|
      ensures cs[i] == ns[|ns| - 1 - i].name && cs[i] in Names(ns)
    {
      assert ns[|ns| - 1 - i].name == cs[i] && ns[|ns| - 1 - i] in ns;
    }
  }

  lemma KeyExecutes(db: Database, n: KeyName, k: ForeignKey)
    requires n !in db.keys && KeyDeclared(db, k) && KeyHolds(db, k)
    ensures Execute(db, AddKey(n, k)) == Some(db.(keys := db.keys[n := k]))
  {
  }

  lemma MigrateBoth(db: Database, a: seq<Statement>, mid: Database, b: seq<Statement>)
    requires Migrate(db, a) == Some(mid)
    ensures Migrate(db, a + b) == Migrate(mid, b)
  {
    MigrateConcat(db, a, b);
  }

  lemma AllRemove(extras: seq<Statement>, t: TableName, cs: seq<ColumnName>)
    requires AllInvertible(extras)
    ensures var down := UndoAll(extras) + Drops(t, cs); forall i :: 0 <= i < |down| ==> Removes(down[i])
  {
    UndoAllRemoves(extras);
    DropsAreColumnWork(t, cs, set c | c in cs);
    DropsDrop(t, cs);
  }

  lemma {:induction false} DropsDrop(t: TableName, cs: seq<ColumnName>)
    ensures forall i :: 0 <= i < |Drops(t, cs)| ==> Drops(t, cs)[i].DropColumn?
    decreases cs
  {
    if cs != [] {
      DropsDrop(t, cs[1..]);
    }
  }
}
