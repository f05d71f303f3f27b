/** What the store's `aggregate` (with `_sum`) and `groupBy` (with one key)
    compute, stated as folds over the table in table order, together with the
    reference definitions they are proved against: the plain sum of a numeric
    field, the number of records holding a value, and the distinct values of a
    column in first-seen order. */
module Aggregation {
  import opened Records

  // ---------------------------------------------------------------- sums

  /** The value the accumulator holds for one key. JavaScript's `+=` on a missing
      or non-numeric property yields NaN or a string; both are `NotANumber` here. */
  datatype Total = Sum(n: int) | NotANumber

  /** The first record sets the accumulator entry to its own property. */
  function Start(v: Option<Value>): (t: Total)
    ensures t == Add(Sum(0), v)
  {
    if v.Some? && v.value.Num? then Sum(v.value.n) else NotANumber
  }

  /** Each later record adds its property to the entry. */
  function Add(t: Total, v: Option<Value>): (r: Total)
    ensures t.NotANumber? ==> r.NotANumber?
    ensures r.Sum? ==> t.Sum? && v.Some? && v.value.Num? && r.n == t.n + v.value.n
    ensures t.Sum? && v.Some? && v.value.Num? ==> r == Sum(t.n + v.value.n)
  {
    if t.Sum? && v.Some? && v.value.Num? then Sum(t.n + v.value.n) else NotANumber
  }

  /** The accumulator entry for `k` after reducing over `rows`; absent for an empty table. */
  function Accumulated(rows: seq<Record>, k: Field): (r: Option<Total>)
    ensures r.None? <==> rows == []
    ensures r.Some? && r.value.Sum? ==> r.value.n == NumSum(rows, k)
  {
    if rows == [] then None
    else
      var prev := Accumulated(rows[..|rows| - 1], k);
      var v := Get(rows[|rows| - 1], k);
      Some(if prev.None? then Start(v) else Add(prev.value, v))
  }

  /** The numeric value of field `k`, 0 when it has none. */
  function NumAt(r: Record, k: Field): int {
    if k in r && r[k].Num? then r[k].n else 0
  }

  /** Reference definition: the arithmetic sum of field `k` over the table. */
  function NumSum(rows: seq<Record>, k: Field): int {
    if rows == [] then 0 else NumSum(rows[..|rows| - 1], k) + NumAt(rows[|rows| - 1], k)
  }

  /** Every record holds a number in field `k`. */
  predicate AllNumeric(rows: seq<Record>, k: Field) {
    forall i :: 0 <= i < |rows| ==> k in rows[i] && rows[i][k].Num?
  }

  /** On a non-empty table whose records all hold a number in `k`, the
      accumulated entry is exactly the arithmetic sum; otherwise it is not a number. */
  lemma {:induction false} AccumulatedIsSum(rows: seq<Record>, k: Field)
    requires rows != []
    ensures AllNumeric(rows, k) ==> Accumulated(rows, k) == Some(Sum(NumSum(rows, k)))
    ensures !AllNumeric(rows, k) ==> Accumulated(rows, k) == Some(NotANumber)
    decreases |rows|
  {
    var n := |rows|;
    AllNumericSnoc(rows, k);
    if n > 1 {
      AccumulatedIsSum(rows[..n - 1], k);
    } else {
      assert rows[..n - 1] == [];
    }
  }

  /** A table is all numeric exactly when its records before the last are and
      the last one holds a number. */
  lemma AllNumericSnoc(rows: seq<Record>, k: Field)
    requires rows != []
    ensures AllNumeric(rows, k)
        <==> AllNumeric(rows[..|rows| - 1], k) && k in rows[|rows| - 1] && rows[|rows| - 1][k].Num?
  {
    var init := rows[..|rows| - 1];
    assert forall i :: 0 <= i < |init| ==> init[i] == rows[i];
  }

  /** A table of `n` records that all hold the same number `c` sums to `n * c`. */
  lemma {:induction false} NumSumConstant(rows: seq<Record>, k: Field, c: int)
    requires forall i :: 0 <= i < |rows| ==> k in rows[i] && rows[i][k] == Num(c)
    ensures NumSum(rows, k) == |rows| * c
    decreases |rows|
  {
    if rows != [] {
      var init := rows[..|rows| - 1];
      assert forall i :: 0 <= i < |init| ==> init[i] == rows[i];
      NumSumConstant(init, k, c);
    }
  }

  /** Five farms of `totalArea` 100 sum to 500; five of 70 arable and 30
      vegetation area sum to 350 and 150. */
  lemma FiveFarmsTotals(rows: seq<Record>)
    requires |rows| == 5
    requires forall i :: 0 <= i < 5 ==> TotalArea in rows[i] && rows[i][TotalArea] == Num(100)
    requires forall i :: 0 <= i < 5 ==> ArableArea in rows[i] && rows[i][ArableArea] == Num(70)
    requires forall i :: 0 <= i < 5 ==> VegetationArea in rows[i] && rows[i][VegetationArea] == Num(30)
    ensures Accumulated(rows, TotalArea) == Some(Sum(500))
    ensures Accumulated(rows, ArableArea) == Some(Sum(350))
    ensures Accumulated(rows, VegetationArea) == Some(Sum(150))
  {
    NumSumConstant(rows, TotalArea, 100);
    NumSumConstant(rows, ArableArea, 70);
    NumSumConstant(rows, VegetationArea, 30);
    AccumulatedIsSum(rows, TotalArea);
    AccumulatedIsSum(rows, ArableArea);
    AccumulatedIsSum(rows, VegetationArea);
  }

  // ---------------------------------------------------------------- grouping

  /** One `groupBy` row: the key's value (possibly `undefined`) and `_count.id`. */
  datatype GroupRow = GroupRow(key: Option<Value>, count: nat)

  predicate Distinct<T(==)>(xs: seq<T>) {
    forall i, j :: 0 <= i < j < |xs| ==> xs[i] != xs[j]
  }

  /** The position of the group holding `v` (an array `findIndex`). */
  function GroupIndex(groups: seq<GroupRow>, v: Option<Value>): (g: Option<nat>)
    ensures g.Some? ==> g.value < |groups| && groups[g.value].key == v
    ensures g.Some? ==> forall j :: 0 <= j < g.value ==> groups[j].key != v
    ensures g.None? <==> forall j :: 0 <= j < |groups| ==> groups[j].key != v
  {
    if groups == [] then None
    else if groups[0].key == v then Some(0)
    else
      match GroupIndex(groups[1..], v)
      case None => None
      case Some(j) => Some(j + 1)
  }

  /** One record's step: count it in its group, or open a group for it. */
  function Tally(groups: seq<GroupRow>, v: Option<Value>): (t: seq<GroupRow>)
    ensures |groups| <= |t| <= |groups| + 1
    ensures forall j :: 0 <= j < |groups| ==> t[j].key == groups[j].key
  {
    match GroupIndex(groups, v)
    case Some(g) => groups[g := groups[g].(count := groups[g].count + 1)]
    case None => groups + [GroupRow(v, 1)]
  }

  /** The groups `groupBy` builds by visiting the records in table order. */
  function Grouped(rows: seq<Record>, byKey: Field): seq<GroupRow> {
    if rows == [] then []
    else Tally(Grouped(rows[..|rows| - 1], byKey), Get(rows[|rows| - 1], byKey))
  }

  /** One more record: the groups of a prefix one longer are the old groups
      with that record tallied. */
  lemma GroupedSnoc(rows: seq<Record>, byKey: Field, k: nat)
    requires k < |rows|
    ensures Grouped(rows[..k + 1], byKey) == Tally(Grouped(rows[..k], byKey), Get(rows[k], byKey))
  {
    assert rows[..k + 1][..k] == rows[..k];
  }

  /** The values the records hold in field `byKey`, in table order. */
  function Column(rows: seq<Record>, byKey: Field): (c: seq<Option<Value>>)
    ensures |c| == |rows| && forall i :: 0 <= i < |rows| ==> c[i] == Get(rows[i], byKey)
  {
    seq(|rows|, i requires 0 <= i < |rows| => Get(rows[i], byKey))
  }

  function Keys(groups: seq<GroupRow>): (ks: seq<Option<Value>>)
    ensures |ks| == |groups| && forall i :: 0 <= i < |groups| ==> ks[i] == groups[i].key
  {
    seq(|groups|, i requires 0 <= i < |groups| => groups[i].key)
  }

  /** Reference definition: the distinct elements of `xs`, in first-seen order. */
  function Dedup<T(==)>(xs: seq<T>): seq<T> {
    if xs == [] then []
    else
      var d := Dedup(xs[..|xs| - 1]);
      if xs[|xs| - 1] in d then d else d + [xs[|xs| - 1]]
  }

  /** Reference definition: how many records hold `v` in field `byKey`. */
  function Occurrences(rows: seq<Record>, byKey: Field, v: Option<Value>): nat {
    if rows == [] then 0
    else Occurrences(rows[..|rows| - 1], byKey, v) + (if Get(rows[|rows| - 1], byKey) == v then 1 else 0)
  }

  function SumCounts(groups: seq<GroupRow>): nat {
    if groups == [] then 0 else groups[0].count + SumCounts(groups[1..])
  }

  /** `Dedup` keeps exactly the elements of its input, each once. */
  lemma {:induction false} DedupFacts<T>(xs: seq<T>)
    ensures Distinct(Dedup(xs))
    ensures forall v :: v in Dedup(xs) <==> v in xs
    decreases |xs|
  {
    if xs != [] {
      var init := xs[..|xs| - 1];
      DedupFacts(init);
      assert xs == init + [xs[|xs| - 1]];
    }
  }

  /** A value occurs in the column exactly when some record holds it. */
  lemma {:induction false} OccurrencesInColumn(rows: seq<Record>, byKey: Field, v: Option<Value>)
    ensures Occurrences(rows, byKey, v) > 0 <==> v in Column(rows, byKey)
    decreases |rows|
  {
    if rows != [] {
      var init := rows[..|rows| - 1];
      OccurrencesInColumn(init, byKey, v);
      assert Column(rows, byKey) == Column(init, byKey) + [Get(rows[|rows| - 1], byKey)];
    }
  }

  /** The group keys are the distinct values of the column, in first-seen order. */
  lemma {:induction false} GroupedKeys(rows: seq<Record>, byKey: Field)
    ensures Keys(Grouped(rows, byKey)) == Dedup(Column(rows, byKey))
    decreases |rows|
  {
    if rows != [] {
      var init := rows[..|rows| - 1];
      var v := Get(rows[|rows| - 1], byKey);
      var gs := Grouped(init, byKey);
      GroupedKeys(init, byKey);
      assert Column(rows, byKey)[..|rows| - 1] == Column(init, byKey);
      match GroupIndex(gs, v)
      case Some(g) =>
        assert v in Keys(gs);
        assert Keys(Tally(gs, v)) == Keys(gs);
      case None =>
        assert v !in Keys(gs);
        assert Keys(Tally(gs, v)) == Keys(gs) + [v];
    }
  }

  /** Each group's count is the number of records holding its key. */
  lemma {:induction false} GroupedCounts(rows: seq<Record>, byKey: Field)
    ensures forall g :: 0 <= g < |Grouped(rows, byKey)| ==>
      Grouped(rows, byKey)[g].count == Occurrences(rows, byKey, Grouped(rows, byKey)[g].key)
    decreases |rows|
  {
    if rows != [] {
      var init := rows[..|rows| - 1];
      var v := Get(rows[|rows| - 1], byKey);
      var gs := Grouped(init, byKey);
      GroupedCounts(init, byKey);
      GroupedKeys(init, byKey);
      DedupFacts(Column(init, byKey));
      assert Distinct(Keys(gs));
      match GroupIndex(gs, v)
      case Some(g) =>
        forall h | 0 <= h < |gs| && h != g ensures gs[h].key != v {
          assert Keys(gs)[h] != Keys(gs)[g];
        }
      case None =>
        OccurrencesInColumn(init, byKey, v);
        assert v !in Keys(gs);
    }
  }

  /** Counting one more record in group `g` raises the total by one. */
  lemma {:induction false} SumCountsBump(groups: seq<GroupRow>, g: nat)
    requires g < |groups|
    ensures SumCounts(groups[g := groups[g].(count := groups[g].count + 1)]) == SumCounts(groups) + 1
    decreases |groups|
  {
    if g > 0 {
      var bumped := groups[g := groups[g].(count := groups[g].count + 1)];
      assert bumped[1..] == groups[1..][g - 1 := groups[g].(count := groups[g].count + 1)];
      SumCountsBump(groups[1..], g - 1);
    }
  }

  lemma {:induction false} SumCountsAppend(groups: seq<GroupRow>, row: GroupRow)
    ensures SumCounts(groups + [row]) == SumCounts(groups) + row.count
    decreases |groups|
  {
    if groups == [] {
      assert [row][1..] == [];
    } else {
      assert (groups + [row])[1..] == groups[1..] + [row];
      SumCountsAppend(groups[1..], row);
    }
  }

  /** The counts add up to the number of records. */
  lemma {:induction false} GroupedTotal(rows: seq<Record>, byKey: Field)
    ensures SumCounts(Grouped(rows, byKey)) == |rows|
    decreases |rows|
  {
    if rows != [] {
      var init := rows[..|rows| - 1];
      var v := Get(rows[|rows| - 1], byKey);
      var gs := Grouped(init, byKey);
      GroupedTotal(init, byKey);
      match GroupIndex(gs, v)
      case Some(g) => SumCountsBump(gs, g);
      case None => SumCountsAppend(gs, GroupRow(v, 1));
    }
  }

  /** Everything `groupBy` on one key promises: one group per distinct value, in
      first-seen order, each counting the records holding that value (so at
      least one), and the counts adding up to the table length. */
  lemma GroupedSpec(rows: seq<Record>, byKey: Field)
    ensures Keys(Grouped(rows, byKey)) == Dedup(Column(rows, byKey))
    ensures Distinct(Keys(Grouped(rows, byKey)))
    ensures forall v :: v in Keys(Grouped(rows, byKey)) <==> Occurrences(rows, byKey, v) > 0
    ensures forall g :: 0 <= g < |Grouped(rows, byKey)| ==>
      Grouped(rows, byKey)[g].count == Occurrences(rows, byKey, Grouped(rows, byKey)[g].key) >= 1
    ensures SumCounts(Grouped(rows, byKey)) == |rows|
  {
    GroupedKeys(rows, byKey);
    GroupedCounts(rows, byKey);
    GroupedTotal(rows, byKey);
    DedupFacts(Column(rows, byKey));
    forall v ensures v in Keys(Grouped(rows, byKey)) <==> Occurrences(rows, byKey, v) > 0 {
      OccurrencesInColumn(rows, byKey, v);
    }
    forall g | 0 <= g < |Grouped(rows, byKey)| ensures Occurrences(rows, byKey, Grouped(rows, byKey)[g].key) >= 1 {
      assert Grouped(rows, byKey)[g].key == Keys(Grouped(rows, byKey))[g];
    }
  }

  /** One step of `groupBy` on a prefix of the table, for a record whose value
      no group holds yet: it opens a group at the end. */
  lemma GroupedStepNew(rows: seq<Record>, byKey: Field, k: nat, groups: seq<GroupRow>)
    requires k < |rows| && Grouped(rows[..k], byKey) == groups
    requires forall j :: 0 <= j < |groups| ==> groups[j].key != Column(rows, byKey)[k]
    ensures Grouped(rows[..k + 1], byKey) == groups + [GroupRow(Column(rows, byKey)[k], 1)]
  {
    assert rows[..k + 1][..k] == rows[..k];
  }

  /** One step of `groupBy` on a prefix of the table, for a record whose value
      the group `GroupRow(v, n)` holds, no earlier group holding it: the count
      there becomes `n + 1`. */
  lemma GroupedStepHit(rows: seq<Record>, byKey: Field, k: nat,
                       before: seq<GroupRow>, v: Option<Value>, n: nat, after: seq<GroupRow>)
    requires k < |rows| && Grouped(rows[..k], byKey) == before + [GroupRow(v, n)] + after
    requires Column(rows, byKey)[k] == v
    requires forall j :: 0 <= j < |before| ==> before[j].key != v
    ensures Grouped(rows[..k + 1], byKey) == before + [GroupRow(v, n + 1)] + after
  {
    assert rows[..k + 1][..k] == rows[..k];
    var groups := before + [GroupRow(v, n)] + after;
    var g := |before|;
    assert groups[g] == GroupRow(v, n);
    assert forall j :: 0 <= j < g ==> groups[j] == before[j];
    assert groups[g := GroupRow(v, n + 1)] == before + [GroupRow(v, n + 1)] + after;
  }

  /** The first three rows of the column x, y, y, y, z give the groups x: 1, y: 2. */
  lemma FiveRowGroupsPrefix(rows: seq<Record>, byKey: Field, x: Option<Value>, y: Option<Value>, z: Option<Value>)
    requires Column(rows, byKey) == [x, y, y, y, z]
    requires x != y && y != z && x != z
    ensures Grouped(rows[..3], byKey) == [GroupRow(x, 1), GroupRow(y, 2)]
  {
    assert rows[..0] == [];
    GroupedStepNew(rows, byKey, 0, []);
    GroupedStepNew(rows, byKey, 1, [GroupRow(x, 1)]);
    assert Grouped(rows[..2], byKey) == [GroupRow(x, 1)] + [GroupRow(y, 1)] + [];
    GroupedStepHit(rows, byKey, 2, [GroupRow(x, 1)], y, 1, []);
  }

  /** A column reading x, y, y, y, z with three distinct values gives the
      groups x: 1, y: 3, z: 1, in that order. */
  lemma FiveRowGroups(rows: seq<Record>, byKey: Field, x: Option<Value>, y: Option<Value>, z: Option<Value>)
    requires Column(rows, byKey) == [x, y, y, y, z]
    requires x != y && y != z && x != z
    ensures Grouped(rows, byKey) == [GroupRow(x, 1), GroupRow(y, 3), GroupRow(z, 1)]
  {
    FiveRowGroupsFour(rows, byKey, x, y, z);
    GroupedStepNew(rows, byKey, 4, [GroupRow(x, 1), GroupRow(y, 3)]);
    assert rows[..5] == rows;
  }

  /** The first four rows of the column x, y, y, y, z give the groups x: 1, y: 3. */
  lemma FiveRowGroupsFour(rows: seq<Record>, byKey: Field, x: Option<Value>, y: Option<Value>, z: Option<Value>)
    requires Column(rows, byKey) == [x, y, y, y, z]
    requires x != y && y != z && x != z
    ensures Grouped(rows[..4], byKey) == [GroupRow(x, 1), GroupRow(y, 3)]
  {
    FiveRowGroupsPrefix(rows, byKey, x, y, z);
    assert Grouped(rows[..3], byKey) == [GroupRow(x, 1)] + [GroupRow(y, 2)] + [];
    GroupedStepHit(rows, byKey, 3, [GroupRow(x, 1)], y, 2, []);
    assert [GroupRow(x, 1)] + [GroupRow(y, 3)] + [] == [GroupRow(x, 1), GroupRow(y, 3)];
  }

  /** The first two rows of the column x, y, z, x give the groups x: 1, y: 1. */
  lemma FourRowGroupsPrefix(rows: seq<Record>, byKey: Field, x: Option<Value>, y: Option<Value>, z: Option<Value>)
    requires Column(rows, byKey) == [x, y, z, x]
    requires x != y && y != z && x != z
    ensures Grouped(rows[..2], byKey) == [GroupRow(x, 1), GroupRow(y, 1)]
  {
    assert rows[..0] == [];
    GroupedStepNew(rows, byKey, 0, []);
    GroupedStepNew(rows, byKey, 1, [GroupRow(x, 1)]);
  }

  /** A column reading x, y, z, x with three distinct values gives the groups
      x: 2, y: 1, z: 1, in that order. */
  lemma FourRowGroups(rows: seq<Record>, byKey: Field, x: Option<Value>, y: Option<Value>, z: Option<Value>)
    requires Column(rows, byKey) == [x, y, z, x]
    requires x != y && y != z && x != z
    ensures Grouped(rows, byKey) == [GroupRow(x, 2), GroupRow(y, 1), GroupRow(z, 1)]
  {
    FourRowGroupsPrefix(rows, byKey, x, y, z);
    GroupedStepNew(rows, byKey, 2, [GroupRow(x, 1), GroupRow(y, 1)]);
    assert Grouped(rows[..3], byKey) == [] + [GroupRow(x, 1)] + [GroupRow(y, 1), GroupRow(z, 1)];
    GroupedStepHit(rows, byKey, 3, [], x, 1, [GroupRow(y, 1), GroupRow(z, 1)]);
    assert rows[..4] == rows;
  }

  /** Farms in SP, MG, MG, MG, RJ: one in SP, three in MG, one in RJ. */
  lemma StatesExample(rows: seq<Record>)
    requires Column(rows, State) == [Some(Str("SP")), Some(Str("MG")), Some(Str("MG")), Some(Str("MG")), Some(Str("RJ"))]
    ensures Grouped(rows, State) == [GroupRow(Some(Str("SP")), 1), GroupRow(Some(Str("MG")), 3), GroupRow(Some(Str("RJ")), 1)]
  {
    FiveRowGroups(rows, State, Some(Str("SP")), Some(Str("MG")), Some(Str("RJ")));
  }

  /** Crops named Milho, Soja, Arroz, Milho: two Milho, one Soja, one Arroz. */
  lemma CropNamesExample(rows: seq<Record>)
    requires Column(rows, Name) == [Some(Str("Milho")), Some(Str("Soja")), Some(Str("Arroz")), Some(Str("Milho"))]
    ensures Grouped(rows, Name) == [GroupRow(Some(Str("Milho")), 2), GroupRow(Some(Str("Soja")), 1), GroupRow(Some(Str("Arroz")), 1)]
  {
    assert "Milho"[0] != "Soja"[0] && "Soja"[0] != "Arroz"[0] && "Milho"[0] != "Arroz"[0];
    FourRowGroups(rows, Name, Some(Str("Milho")), Some(Str("Soja")), Some(Str("Arroz")));
  }
}
