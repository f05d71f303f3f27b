/** The in-memory table that stands in for one Prisma model: an array of
    stored records that `create` pushes to, `update` patches in place and
    `delete` splices, plus filters, a count, a field sum and a one-key grouping. */
module PrismaEntity {
  import opened Errors
  import opened Records
  import opened Aggregation

  const RecordNotFound := "Record not found"

  /** Whether a record passes an optional filter; an absent filter passes all. */
  predicate Admits(where: Option<Where>, r: Record) {
    where.None? || Matches(r, where.value)
  }

  class MockPrismaEntity {
    var db: seq<Record>

    /** Every service looks records up by `{ id }`, so each stored record has an
        identifier and no two share one. */
    ghost predicate Valid()
      reads this
    {
      UniqueIds(db)
    }

    constructor ()
      ensures Valid() && db == []
    {
      db := [];
    }

    /** Stores `data` with the fresh identifier `id` and the creation instant
        `now` (standing for `randomUUID()` and `new Date()`), at the end of the table. */
    method Create(data: Record, id: string, now: int) returns (record: Record)
      requires Valid() && IdFree(db, id)
      modifies this
      ensures Valid()
      ensures record == Stamped(data, id, now)
      ensures db == old(db) + [record]
    {
      record := Stamped(data, id, now);
      AppendFresh(db, record, id);
      db := db + [record];
    }

    /** A copy of the table, filtered by `where` when one is given. */
    function FindMany(where: Option<Where>): (results: seq<Record>)
      reads this
      ensures where.None? ==> results == db
      ensures |results| <= |db|
      ensures forall r :: r in results <==> r in db && Admits(where, r)
      // in table order, and with every passing position
      ensures exists idx :: Embeds(db, results, idx)
                && forall k :: 0 <= k < |db| && Admits(where, db[k]) ==> k in idx
    {
      match where
      case None =>
        var n := |db|;
        var idx := seq(n, i requires 0 <= i < n => i as nat);
        assert forall k :: 0 <= k < |db| ==> idx[k] == k;
        assert Embeds(db, db, idx);
        db
      case Some(w) =>
        assert db[..|db|] == db;
        var idx := SelectIndices(db, w, |db|);
        assert Embeds(db, Select(db, w), idx);
        Select(db, w)
    }

    /** The first record passing `where`, or `None` (the source's `null`). */
    function FindFirst(where: Option<Where>): (result: Option<Record>)
      reads this
      ensures result.None? <==> forall i :: 0 <= i < |db| ==> !Admits(where, db[i])
      ensures result.Some? ==> exists i :: 0 <= i < |db| && db[i] == result.value && Admits(where, db[i])
                                           && forall j :: 0 <= j < i ==> !Admits(where, db[j])
    {
      var results := FindMany(where);
      if |results| > 0 then
        (match where
         case None =>
           assert db[0] == results[0];
           Some(results[0])
         case Some(w) =>
           SelectHead(db, w);
           Some(results[0]))
      else
        (match where
         case None => None
         case Some(w) =>
           SelectHead(db, w);
           None)
    }

    /** The first record passing `where`, or `None` (the source's `undefined`). */
    function FindUnique(where: Where): (result: Option<Record>)
      reads this
      ensures result.None? <==> forall i :: 0 <= i < |db| ==> !Matches(db[i], where)
      ensures result.Some? ==> exists i :: 0 <= i < |db| && db[i] == result.value && Matches(db[i], where)
                                           && forall j :: 0 <= j < i ==> !Matches(db[j], where)
    {
      match FirstIndex(db, where)
      case None => None
      case Some(i) => Some(db[i])
    }

    /** With a filter, `findFirst` and `findUnique` find the same record. */
    lemma FindFirstIsFindUnique(where: Where)
      ensures FindFirst(Some(where)) == FindUnique(where)
    {
      SelectHead(db, where);
    }

    /** Copies the fields of `data` onto the first record passing `where` and
        refreshes its `updatedAt`, in place; fails when no record passes.
        Identifiers stay unique as long as `data` does not overwrite the `id`. */
    method Update(where: Where, data: Record, now: int) returns (result: Result<Record>)
      requires Valid()
      modifies this
      ensures Id !in data ==> Valid()
      ensures FirstIndex(old(db), where).None? ==>
        result == Failure(Unclassified(RecordNotFound)) && db == old(db)
      ensures FirstIndex(old(db), where).Some? ==>
        var i := FirstIndex(old(db), where).value;
        && db == old(db)[i := Patched(old(db)[i], data, now)]
        && result == Success(db[i])
    {
      match FirstIndex(db, where)
      case None =>
        result := Failure(Unclassified(RecordNotFound));
      case Some(i) =>
        var record := Patched(db[i], data, now);
        if Id !in data {
          ReplaceKeepsUnique(db, i, record);
        }
        db := db[i := record];
        result := Success(record);
    }

    /** Splices out the first record passing `where` and returns it; fails when
        no record passes. */
    method Delete(where: Where) returns (result: Result<Record>)
      requires Valid()
      modifies this
      ensures Valid()
      ensures FirstIndex(old(db), where).None? ==>
        result == Failure(Unclassified(RecordNotFound)) && db == old(db)
      ensures FirstIndex(old(db), where).Some? ==>
        var i := FirstIndex(old(db), where).value;
        && result == Success(old(db)[i])
        && db == Removed(old(db), i)
    {
      match FirstIndex(db, where)
      case None =>
        result := Failure(Unclassified(RecordNotFound));
      case Some(index) =>
        var deletedRecord := db[index];
        RemovedUnique(db, index);
        db := Removed(db, index);
        result := Success(deletedRecord);
    }

    /** The number of records passing `where`. */
    function Count(where: Option<Where>): (n: nat)
      reads this
      ensures where.None? ==> n == |db|
      ensures n <= |db|
      ensures n == |FindMany(where)|
      ensures n == 0 <==> FindFirst(where).None?
    {
      match where
      case None => |db|
      case Some(w) =>
        SelectHead(db, w);
        |Select(db, w)|
    }

    /** The `_sum` of `aggregate`: one entry per requested field, holding the
        field's running sum over the whole table; `where` is accepted and, as in
        the source, ignored. On an empty table no entry is present. */
    method Aggregate(sumFields: seq<Field>, where: Option<Where>) returns (sums: map<Field, Total>)
      requires Distinct(sumFields)
      ensures forall k :: k in sums <==> db != [] && k in sumFields
      ensures forall k :: k in sums ==> Some(sums[k]) == Accumulated(db, k)
      ensures forall k :: k in sums && AllNumeric(db, k) ==> sums[k] == Sum(NumSum(db, k))
      ensures forall k :: k in sums && !AllNumeric(db, k) ==> sums[k] == NotANumber
    {
      sums := map[];
      var i := 0;
      while i < |db|
        invariant 0 <= i <= |db|
        invariant forall k :: k in sums <==> i > 0 && k in sumFields
        invariant forall k :: k in sums ==> Some(sums[k]) == Accumulated(db[..i], k)
      {
        var record := db[i];
        assert db[..i + 1][..i] == db[..i];
        var j := 0;
        while j < |sumFields|
          invariant 0 <= j <= |sumFields|
          invariant forall k :: k in sums ==> k in sumFields
          invariant forall m :: 0 <= m < j ==>
            sumFields[m] in sums && Some(sums[sumFields[m]]) == Accumulated(db[..i + 1], sumFields[m])
          invariant forall m :: j <= m < |sumFields| ==>
            && (sumFields[m] in sums <==> i > 0)
            && (sumFields[m] in sums ==> Some(sums[sumFields[m]]) == Accumulated(db[..i], sumFields[m]))
        {
          var key := sumFields[j];
          if key in sums {
            sums := sums[key := Add(sums[key], Get(record, key))];
          } else {
            sums := sums[key := Start(Get(record, key))];
          }
          j := j + 1;
        }
        i := i + 1;
      }
      assert db[..i] == db;
      forall k | k in sums ensures AllNumeric(db, k) ==> sums[k] == Sum(NumSum(db, k))
        ensures !AllNumeric(db, k) ==> sums[k] == NotANumber
      {
        AccumulatedIsSum(db, k);
      }
    }

    /** `groupBy` on the single key `byKey`: visits the records in table order
        and either counts each in the group holding its value or opens a new
        group for it. */
    method GroupBy(byKey: Field) returns (groups: seq<GroupRow>)
      ensures groups == Grouped(db, byKey)
      ensures Keys(groups) == Dedup(Column(db, byKey))
      ensures forall g :: 0 <= g < |groups| ==> groups[g].count == Occurrences(db, byKey, groups[g].key) >= 1
      ensures SumCounts(groups) == |db|
    {
      groups := [];
      var i := 0;
      while i < |db|
        invariant 0 <= i <= |db|
        invariant groups == Grouped(db[..i], byKey)
      {
        var record := db[i];
        var groupKey := Get(record, byKey);
        GroupedSnoc(db, byKey, i);
        ghost var before := groups;
        var index := GroupIndex(groups, groupKey);
        if index.Some? {
          groups := groups[index.value := groups[index.value].(count := groups[index.value].count + 1)];
        } else {
          groups := groups + [GroupRow(groupKey, 1)];
        }
        assert groups == Tally(before, groupKey);
        i := i + 1;
      }
      assert db[..i] == db;
      GroupedSpec(db, byKey);
    }
  }
}
