/** app/domains/traffic_flow/threat_list.py, class `_Ranges`: listed net-blocks kept as sorted,
    non-overlapping integer ranges and searched by bisection. */
module NetBlocks {
  import opened Wrappers

  datatype Row = Row(first: int, last: int, entry: string)

  predicate Inside(v: int, r: Row) { r.first <= v <= r.last }
  predicate Within(s: Row, r: Row) { r.first <= s.first && s.last <= r.last }
  predicate Proper(r: Row) { r.first <= r.last }

  // ----- net-blocks -----

  function Pow2(n: nat): (p: nat)
    ensures p >= 1
  {
    if n == 0 then 1 else 2 * Pow2(n - 1)
  }

  /** `prefix` is the network part of the address as a number and `hostBits` the address width
      less the prefix length, so host bits are already masked off (`strict=False`). */
  datatype Net = Net(v4: bool, prefix: int, hostBits: nat, entry: string)

  function RowOf(n: Net): Row {
    Row(n.prefix * Pow2(n.hostBits), (n.prefix + 1) * Pow2(n.hostBits) - 1, n.entry)
  }

  lemma {:induction false} Pow2Splits(m: nat, n: nat)
    requires m <= n
    ensures Pow2(n) == Pow2(n - m) * Pow2(m)
    decreases n
  {
    if m < n {
      Pow2Splits(m, n - 1);
      MulAssoc(2, Pow2(n - 1 - m), Pow2(m));
    }
  }

  lemma MulAssoc(a: int, b: int, c: int)
    ensures a * (b * c) == (a * b) * c
  {
  }

  /** Two multiples of `s` with the first below the second's successor are ordered. */
  lemma MultiplesStep(p: int, q: int, s: nat)
    requires s >= 1 && p * s < (q + 1) * s
    ensures p * s <= q * s
  {
    assert q >= p;
  }

  /** A block of `s` addresses that meets a block of `k * s`, both aligned to `s`, lies in it. */
  lemma MultiplesNest(u: int, p: int, k: nat, s: nat)
    requires s >= 1 && u * s < (p + k) * s && p * s < (u + 1) * s
    ensures p * s <= u * s && (u + 1) * s <= (p + k) * s
  {
    MultiplesStep(p, u, s);
    assert (p + k) * s == (p + k - 1 + 1) * s;
    assert (u + 1) * s < (p + k + 1) * s by {
      assert (p + k + 1) * s == (p + k) * s + s;
      assert (u + 1) * s == u * s + s;
    }
    MultiplesStep(u + 1, p + k, s);
  }

  /** Any two rows are disjoint or one lies within the other. */
  ghost predicate Laminar(rows: seq<Row>) {
    forall r, s :: r in rows && s in rows && r.first <= s.last && s.first <= r.last ==> Within(r, s) || Within(s, r)
  }

  lemma NarrowerNests(m: Net, n: Net)
    requires m.hostBits <= n.hostBits
    requires RowOf(m).first <= RowOf(n).last && RowOf(n).first <= RowOf(m).last
    ensures Within(RowOf(m), RowOf(n))
  {
    var s, k := Pow2(m.hostBits), Pow2(n.hostBits - m.hostBits);
    Pow2Splits(m.hostBits, n.hostBits);
    MulAssoc(n.prefix, k, s);
    MulAssoc(n.prefix + 1, k, s);
    Distribute(n.prefix, 1, k);
    MultiplesNest(m.prefix, n.prefix * k, k, s);
  }

  lemma Distribute(a: int, b: int, s: int)
    ensures (a + b) * s == a * s + b * s
  {
  }

  /** Blocks written as address/prefix never partly overlap. */
  lemma CidrBlocksAreLaminar(nets: seq<Net>)
    ensures Laminar(Rows(nets))
    ensures forall r :: r in Rows(nets) ==> Proper(r)
  {
    var rows := Rows(nets);
    forall r | r in rows
      ensures Proper(r)
    {
      var i :| 0 <= i < |rows| && rows[i] == r;
      Distribute(nets[i].prefix, 1, Pow2(nets[i].hostBits));
    }
    forall r, s | r in rows && s in rows && r.first <= s.last && s.first <= r.last
      ensures Within(r, s) || Within(s, r)
    {
      var i :| 0 <= i < |rows| && rows[i] == r;
      var j :| 0 <= j < |rows| && rows[j] == s;
      if nets[i].hostBits <= nets[j].hostBits {
        NarrowerNests(nets[i], nets[j]);
      } else {
        NarrowerNests(nets[j], nets[i]);
      }
    }
  }

  function Rows(nets: seq<Net>): seq<Row> {
    seq(|nets|, i requires 0 <= i < |nets| => RowOf(nets[i]))
  }

  // ----- sorting, as Python's stable `sorted` with key (first, -(last - first)) -----

  predicate Before(r: Row, s: Row) {
    r.first < s.first || (r.first == s.first && r.last >= s.last)
  }

  ghost predicate SortedRows(rows: seq<Row>) {
    forall i, j :: 0 <= i < j < |rows| ==> Before(rows[i], rows[j])
  }

  /** Insert after every row that sorts no later. */
  function Insert(rows: seq<Row>, r: Row): seq<Row> {
    if rows == [] then [r]
    else if Before(rows[|rows| - 1], r) then rows + [r]
    else Insert(rows[..|rows| - 1], r) + [rows[|rows| - 1]]
  }

  function SortRows(raw: seq<Row>): seq<Row> {
    if raw == [] then [] else Insert(SortRows(raw[..|raw| - 1]), raw[|raw| - 1])
  }

  lemma {:induction false} InsertKeeps(rows: seq<Row>, r: Row)
    ensures multiset(Insert(rows, r)) == multiset(rows) + multiset{r}
    decreases rows
  {
    if rows != [] {
      LastCounted(rows, |rows| - 1);
      if !Before(rows[|rows| - 1], r) {
        InsertKeeps(rows[..|rows| - 1], r);
      }
    }
  }

  lemma InsertMember(rows: seq<Row>, r: Row, x: Row)
    ensures x in Insert(rows, r) <==> x == r || x in rows
  {
    InsertKeeps(rows, r);
    assert x in Insert(rows, r) <==> x in multiset(Insert(rows, r));
    assert x in rows <==> x in multiset(rows);
  }

  lemma {:induction false} InsertSorts(rows: seq<Row>, r: Row)
    requires SortedRows(rows)
    ensures SortedRows(Insert(rows, r))
    ensures multiset(Insert(rows, r)) == multiset(rows) + multiset{r}
    decreases rows
  {
    InsertKeeps(rows, r);
    if rows != [] && !Before(rows[|rows| - 1], r) {
      var n := |rows| - 1;
      InsertSorts(rows[..n], r);
      var part := Insert(rows[..n], r);
      forall i | 0 <= i < |part|
        ensures Before(part[i], rows[n])
      {
        InsertMember(rows[..n], r, part[i]);
      }
    }
  }

  lemma {:induction false} SortRowsSorts(raw: seq<Row>)
    ensures SortedRows(SortRows(raw)) && multiset(SortRows(raw)) == multiset(raw)
    decreases raw
  {
    if raw != [] {
      var n := |raw| - 1;
      SortRowsSorts(raw[..n]);
      InsertSorts(SortRows(raw[..n]), raw[n]);
      LastCounted(raw, n);
    }
  }

  lemma LastCounted(raw: seq<Row>, n: nat)
    requires |raw| == n + 1
    ensures multiset(raw) == multiset(raw[..n]) + multiset{raw[n]}
  {
    assert raw == raw[..n] + [raw[n]];
  }

  lemma SameMembers(raw: seq<Row>, r: Row)
    ensures r in SortRows(raw) <==> r in raw
  {
    SortRowsSorts(raw);
    assert r in SortRows(raw) <==> r in multiset(SortRows(raw));
    assert r in raw <==> r in multiset(raw);
  }

  // ----- the sweep of `freeze` -----

  /** What the sweep makes of the rows still to come, given those kept so far. */
  function Keep(kept: seq<Row>, todo: seq<Row>): seq<Row>
    decreases todo
  {
    if todo == [] then kept
    else if kept != [] && todo[0].first <= kept[|kept| - 1].last then Keep(kept, todo[1..])
    else Keep(kept + [todo[0]], todo[1..])
  }

  /** Ascending and pairwise disjoint. */
  ghost predicate Frozen(rows: seq<Row>) {
    && (forall r :: r in rows ==> Proper(r))
    && (forall i, j :: 0 <= i < j < |rows| ==> rows[i].last < rows[j].first)
  }

  ghost predicate Covered(s: Row, kept: seq<Row>) {
    exists r :: r in kept && Before(r, s) && Inside(s.first, r)
  }

  /** Dropping or keeping the next row leaves kept-then-pending sorted. */
  lemma StillSorted(kept: seq<Row>, todo: seq<Row>)
    requires SortedRows(kept + todo) && todo != []
    ensures SortedRows(kept + todo[1..]) && SortedRows(kept + [todo[0]] + todo[1..])
    ensures kept != [] ==> Before(kept[|kept| - 1], todo[0])
  {
    var all := kept + todo;
    assert kept + [todo[0]] + todo[1..] == all;
    assert kept != [] ==> Before(all[|kept| - 1], all[|kept|]);
    var less := kept + todo[1..];
    forall i, j | 0 <= i < j < |less|
      ensures Before(less[i], less[j])
    {
      assert less[i] == all[if i < |kept| then i else i + 1];
      assert less[j] == all[if j < |kept| then j else j + 1];
    }
  }

  lemma StillFrozen(kept: seq<Row>, s: Row)
    requires Frozen(kept) && Proper(s) && (kept != [] ==> kept[|kept| - 1].last < s.first)
    ensures Frozen(kept + [s])
  {
    forall i | 0 <= i < |kept|
      ensures kept[i].last < s.first
    {
      assert kept[|kept| - 1] in kept;
    }
  }

  lemma {:induction false} KeepSweeps(kept: seq<Row>, todo: seq<Row>)
    requires Frozen(kept) && SortedRows(kept + todo)
    requires forall r :: r in todo ==> Proper(r)
    ensures Frozen(Keep(kept, todo)) && kept <= Keep(kept, todo)
    ensures forall r :: r in Keep(kept, todo) ==> r in kept || r in todo
    ensures forall s :: s in todo ==> Covered(s, Keep(kept, todo))
    decreases todo
  {
    if todo != [] {
      var s, out := todo[0], Keep(kept, todo);
      StillSorted(kept, todo);
      assert Proper(s);
      if kept != [] && s.first <= kept[|kept| - 1].last {
        KeepSweeps(kept, todo[1..]);
        assert out[|kept| - 1] == kept[|kept| - 1];
        assert Covered(s, out);
      } else {
        StillFrozen(kept, s);
        KeepSweeps(kept + [s], todo[1..]);
        assert out[|kept|] == s;
        assert Before(s, s) && Inside(s.first, s);
        assert Covered(s, out);
      }
      forall t | t in todo
        ensures Covered(t, out)
      {
        assert t == s || t in todo[1..];
      }
    }
  }

  function FreezeRows(raw: seq<Row>): seq<Row> { Keep([], SortRows(raw)) }

  /** The kept rows are disjoint and sorted, and all of them listed. */
  lemma FreezeTheorem(raw: seq<Row>)
    requires forall r :: r in raw ==> Proper(r)
    ensures Frozen(FreezeRows(raw))
    ensures forall r :: r in FreezeRows(raw) ==> r in raw
  {
    SweepSorted(raw);
  }

  lemma SweepSorted(raw: seq<Row>)
    requires forall r :: r in raw ==> Proper(r)
    ensures Frozen(FreezeRows(raw))
    ensures forall r :: r in FreezeRows(raw) ==> r in raw
    ensures forall s :: s in raw ==> Covered(s, FreezeRows(raw))
  {
    SortRowsSorts(raw);
    forall r
      ensures r in SortRows(raw) <==> r in raw
    {
      SameMembers(raw, r);
    }
    assert [] + SortRows(raw) == SortRows(raw);
    KeepSweeps([], SortRows(raw));
  }

  /** Each listed row starts inside a kept row that sorts no later. */
  lemma FreezeCovers(raw: seq<Row>, s: Row)
    requires (forall r :: r in raw ==> Proper(r)) && s in raw
    ensures Covered(s, FreezeRows(raw))
  {
    SweepSorted(raw);
  }

  lemma CoveringRow(raw: seq<Row>, s: Row) returns (k: nat)
    requires (forall r :: r in raw ==> Proper(r)) && s in raw
    ensures k < |FreezeRows(raw)| && Before(FreezeRows(raw)[k], s) && Inside(s.first, FreezeRows(raw)[k])
    ensures FreezeRows(raw)[k] in raw
  {
    FreezeCovers(raw, s);
    FreezeTheorem(raw);
    var r :| r in FreezeRows(raw) && Before(r, s) && Inside(s.first, r);
    k :| 0 <= k < |FreezeRows(raw)| && FreezeRows(raw)[k] == r;
  }

  /** Over blocks that do not partly overlap, every listed block lies within a kept one. */
  lemma KeptBlock(raw: seq<Row>, s: Row) returns (k: nat)
    requires Laminar(raw) && (forall r :: r in raw ==> Proper(r)) && s in raw
    ensures k < |FreezeRows(raw)| && Within(s, FreezeRows(raw)[k])
  {
    k := CoveringRow(raw, s);
    var r := FreezeRows(raw)[k];
    assert r.first <= s.last && s.first <= r.last;
  }

  lemma {:induction false} SortedStays(rows: seq<Row>)
    requires SortedRows(rows)
    ensures SortRows(rows) == rows
    decreases rows
  {
    if rows != [] {
      var n := |rows| - 1;
      SortedStays(rows[..n]);
      assert n > 0 ==> Before(rows[n - 1], rows[n]);
      assert rows == rows[..n] + [rows[n]];
    }
  }

  lemma {:induction false} DisjointKept(kept: seq<Row>, todo: seq<Row>)
    requires Frozen(kept + todo)
    ensures Keep(kept, todo) == kept + todo
    decreases todo
  {
    if todo == [] {
      AddNothing(kept);
    } else {
      var all := kept + todo;
      assert kept != [] ==> all[|kept| - 1].last < all[|kept|].first;
      assert kept + [todo[0]] + todo[1..] == all;
      DisjointKept(kept + [todo[0]], todo[1..]);
    }
  }

  /** A list published in order and without overlaps, as DROP is, is kept whole. */
  lemma DisjointListIsKept(rows: seq<Row>)
    requires Frozen(rows)
    ensures FreezeRows(rows) == rows
  {
    assert forall i :: 0 <= i < |rows| ==> rows[i] in rows;
    SortedStays(rows);
    AddNothing(rows);
    DisjointKept([], rows);
  }

  // ----- lookup -----

  /** The row of a frozen table that holds `v`, if there is one. */
  function FindRow(rows: seq<Row>, v: int): Option<Row> {
    if rows == [] then None
    else if Inside(v, rows[0]) then Some(rows[0])
    else FindRow(rows[1..], v)
  }

  lemma {:induction false} FindRowIs(rows: seq<Row>, v: int, k: nat)
    requires Frozen(rows) && k < |rows| && Inside(v, rows[k])
    ensures FindRow(rows, v) == Some(rows[k])
    decreases rows
  {
    if k > 0 {
      assert rows[0].last < rows[k].first;
      assert forall r :: r in rows[1..] ==> r in rows;
      FindRowIs(rows[1..], v, k - 1);
    }
  }

  lemma {:induction false} FindRowNone(rows: seq<Row>, v: int)
    ensures FindRow(rows, v).None? <==> forall r :: r in rows ==> !Inside(v, r)
    ensures FindRow(rows, v).Some? ==> FindRow(rows, v).value in rows && Inside(v, FindRow(rows, v).value)
    decreases rows
  {
    if rows != [] {
      FindRowNone(rows[1..], v);
      assert forall r :: r in rows <==> r == rows[0] || r in rows[1..];
    }
  }

  /** Over blocks that do not partly overlap, any listed block holding `v` lies within the row
      the lookup returns. */
  lemma LookupFinds(raw: seq<Row>, v: int, s: Row)
    requires Laminar(raw) && (forall r :: r in raw ==> Proper(r)) && s in raw && Inside(v, s)
    ensures FindRow(FreezeRows(raw), v).Some? && Within(s, FindRow(FreezeRows(raw), v).value)
  {
    var k := KeptBlock(raw, s);
    assert Frozen(FreezeRows(raw)) by { FreezeTheorem(raw); }
    FindRowIs(FreezeRows(raw), v, k);
  }

  /** Over any list of net-blocks: the frozen table answers an address exactly when some listed
      block holds it, and the answer is the widest listed block that does. */
  lemma LookupTheorem(nets: seq<Net>, v: int)
    ensures
      var found := FindRow(FreezeRows(Rows(nets)), v);
      && (found.Some? <==> exists s :: s in Rows(nets) && Inside(v, s))
      && (found.Some? ==>
            && found.value in Rows(nets) && Inside(v, found.value)
            && forall s :: s in Rows(nets) && Inside(v, s) ==> Within(s, found.value))
  {
    var raw := Rows(nets);
    CidrBlocksAreLaminar(nets);
    FreezeTheorem(raw);
    FindRowNone(FreezeRows(raw), v);
    forall s | s in raw && Inside(v, s)
      ensures FindRow(FreezeRows(raw), v).Some? && Within(s, FindRow(FreezeRows(raw), v).value)
    {
      LookupFinds(raw, v, s);
    }
  }

  /** The address shifted right by `n` bits. */
  function TopBits(v: int, n: nat): int
    decreases n
  {
    if n == 0 then v else TopBits(v / 2, n - 1)
  }

  /** `v` lies in the network: its bits above the host part are the network's prefix. */
  predicate Matches(v: int, n: Net) { TopBits(v, n.hostBits) == n.prefix }

  lemma HalfInside(v: int, a: int, b: int)
    ensures 2 * a <= v <= 2 * b - 1 <==> a <= v / 2 <= b - 1
  {
  }

  /** The integer range of a net-block holds exactly the addresses of the network. */
  lemma {:induction false} RangeIsNetwork(v: int, n: Net)
    ensures Inside(v, RowOf(n)) <==> Matches(v, n)
    ensures RowOf(n).entry == n.entry
    decreases n.hostBits
  {
    if n.hostBits > 0 {
      var half := n.(hostBits := n.hostBits - 1);
      RangeIsNetwork(v / 2, half);
      MulAssoc(n.prefix, 2, Pow2(half.hostBits));
      MulAssoc(n.prefix + 1, 2, Pow2(half.hostBits));
      MulAssoc(2, n.prefix, Pow2(half.hostBits));
      MulAssoc(2, n.prefix + 1, Pow2(half.hostBits));
      HalfInside(v, RowOf(half).first, RowOf(half).last + 1);
    }
  }

  /** A single host, and an IPv4 /24. */
  lemma BlockSizes(n: Net)
    ensures n.hostBits == 0 ==> RowOf(n).first == RowOf(n).last == n.prefix
    ensures n.hostBits == 8 ==> RowOf(n).first == 256 * n.prefix && RowOf(n).last == 256 * n.prefix + 255
  {
    if n.hostBits == 8 {
      Pow2Splits(4, 8);
      assert Pow2(4) == 16;
    }
  }

  lemma WiderHasMoreHostBits(m: Net, n: Net)
    requires Within(RowOf(m), RowOf(n))
    ensures m.hostBits <= n.hostBits
  {
    Distribute(m.prefix, 1, Pow2(m.hostBits));
    Distribute(n.prefix, 1, Pow2(n.hostBits));
    if m.hostBits > n.hostBits {
      Pow2Splits(n.hostBits + 1, m.hostBits);
      MultiplesGrow(Pow2(m.hostBits - n.hostBits - 1), Pow2(n.hostBits + 1));
    }
  }

  lemma MultiplesGrow(k: nat, s: nat)
    requires k >= 1
    ensures k * s >= s
  {
    assert k * s == (k - 1) * s + s;
  }

  /** The lookup in terms of the networks alone: an address is answered exactly when its leading
      bits are those of a listed network, with the entry of the shortest such prefix. */
  lemma LookupByPrefix(nets: seq<Net>, v: int)
    ensures
      var found := FindRow(FreezeRows(Rows(nets)), v);
      && (found.Some? <==> exists n :: n in nets && Matches(v, n))
      && (found.Some? ==>
            exists n :: n in nets && Matches(v, n) && found.value.entry == n.entry
              && forall m :: m in nets && Matches(v, m) ==> m.hostBits <= n.hostBits)
  {
    var rows := Rows(nets);
    LookupTheorem(nets, v);
    var found := FindRow(FreezeRows(rows), v);
    forall m | m in nets && Matches(v, m)
      ensures found.Some? && Within(RowOf(m), found.value)
    {
      RangeIsNetwork(v, m);
      var j :| 0 <= j < |nets| && nets[j] == m;
      assert rows[j] in rows;
    }
    if found.Some? {
      var i :| 0 <= i < |rows| && rows[i] == found.value;
      RangeIsNetwork(v, nets[i]);
      assert nets[i] in nets;
      forall m | m in nets && Matches(v, m)
        ensures m.hostBits <= nets[i].hostBits
      {
        WiderHasMoreHostBits(m, nets[i]);
      }
    }
  }

  lemma StartsAscend(rows: seq<Row>, i: nat, j: nat)
    requires Frozen(rows) && i <= j < |rows|
    ensures rows[i].first <= rows[j].first
  {
    assert rows[i] in rows;
  }

  class Ranges {
    var raw: seq<Row>
    var starts: seq<int>
    var rows: seq<Row>

    ghost predicate Ready() reads this {
      Frozen(rows) && |starts| == |rows| && forall i :: 0 <= i < |rows| ==> starts[i] == rows[i].first
    }

    constructor ()
      ensures Ready() && raw == [] && rows == []
    {
      raw, starts, rows := [], [], [];
    }

    method Add(n: Net)
      requires Ready()
      modifies this`raw
      ensures Ready() && raw == old(raw) + [RowOf(n)]
    {
      raw := raw + [RowOf(n)];
    }

    method Freeze()
      requires forall r :: r in raw ==> Proper(r)
      modifies this`starts, this`rows
      ensures Ready() && rows == FreezeRows(raw)
    {
      FreezeTheorem(raw);
      var sorted := SortRows(raw);
      var kept: seq<Row> := [];
      var first: seq<int> := [];
      for i := 0 to |sorted|
        invariant Keep([], sorted) == Keep(kept, sorted[i..])
        invariant |first| == |kept| && forall k :: 0 <= k < |kept| ==> first[k] == kept[k].first
      {
        assert sorted[i..][0] == sorted[i] && sorted[i..][1..] == sorted[i + 1..];
        if kept == [] || sorted[i].first > kept[|kept| - 1].last {
          kept := kept + [sorted[i]];
          first := first + [sorted[i].first];
        }
      }
      rows, starts := kept, first;
    }

    /** `bisect_right` over the starts, then one comparison with the end of the row before it. */
    method Find(v: int) returns (entry: Option<string>)
      requires Ready()
      ensures entry == match FindRow(rows, v) case Some(r) => Some(r.entry) case None => None
    {
      var lo, hi := 0, |starts|;
      while lo < hi
        invariant 0 <= lo <= hi <= |starts|
        invariant forall i :: 0 <= i < lo ==> starts[i] <= v
        invariant forall i :: hi <= i < |starts| ==> v < starts[i]
      {
        var mid := (lo + hi) / 2;
        forall i | 0 <= i < |starts|
          ensures (i <= mid ==> starts[i] <= starts[mid]) && (mid <= i ==> starts[mid] <= starts[i])
        {
          if i <= mid { StartsAscend(rows, i, mid); } else { StartsAscend(rows, mid, i); }
        }
        if v < starts[mid] { hi := mid; } else { lo := mid + 1; }
      }
      FindRowNone(rows, v);
      if lo == 0 {
        return None;
      }
      var row := rows[lo - 1];
      if v <= row.last {
        FindRowIs(rows, v, lo - 1);
        return Some(row.entry);
      }
      assert forall i :: 0 <= i < lo - 1 ==> rows[i].last < row.first;
      return None;
    }
  }
}
