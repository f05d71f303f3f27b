/** Stored records and the filters the in-memory store evaluates on them.

    A stored record is a plain object: its own data spread together with an
    `id` and two timestamps. It is modelled as a finite map from the fields
    the four entity kinds declare to their values. A `where` filter is such a
    map too; a record passes it when every listed field is present in the
    record with exactly the listed value. */
module Records {

  datatype Option<T> = None | Some(value: T)

  /** Every field any of the four entity kinds carries. */
  datatype Field =
    | Id | CreatedAt | UpdatedAt
    | Name | Document
    | City | State | TotalArea | ArableArea | VegetationArea | ProducerId
    | Year | FarmId
    | HarvestId

  /** Strings, JavaScript numbers (taken as integers) and dates (taken as an
      instant on an integer clock). */
  datatype Value = Str(s: string) | Num(n: int) | Time(t: int)

  type Record = map<Field, Value>
  type Where = map<Field, Value>

  /** The property a record has for key `k`; `None` is JavaScript's `undefined`. */
  function Get(r: Record, k: Field): Option<Value> {
    if k in r then Some(r[k]) else None
  }

  /** The record passes the filter: each filter entry is present in it with the same value. */
  predicate Matches(r: Record, w: Where) {
    forall k :: k in w ==> k in r && r[k] == w[k]
  }

  /** The filter `{ id }` every service uses. */
  function IdWhere(id: string): Where {
    map[Id := Str(id)]
  }

  predicate HasId(r: Record, id: string) {
    Id in r && r[Id] == Str(id)
  }

  lemma MatchesIdWhere(r: Record, id: string)
    ensures Matches(r, IdWhere(id)) <==> HasId(r, id)
  {
    if HasId(r, id) {
      forall k | k in IdWhere(id) ensures k in r && r[k] == IdWhere(id)[k] {
        assert k == Id;
      }
    } else {
      assert Id in IdWhere(id);
    }
  }

  /** Where the `{ id }` filter finds its record: absent exactly when no record
      carries `id`, otherwise the first record that does. */
  function IdIndex(rows: seq<Record>, id: string): (i: Option<nat>)
    ensures i.None? <==> IdFree(rows, id)
    ensures i.Some? ==> i.value < |rows| && HasId(rows[i.value], id)
    ensures i.Some? ==> forall j :: 0 <= j < i.value ==> !HasId(rows[j], id)
  {
    MatchesIdWhereAll(id);
    FirstIndex(rows, IdWhere(id))
  }

  lemma MatchesIdWhereAll(id: string)
    ensures forall r :: Matches(r, IdWhere(id)) <==> HasId(r, id)
  {
    forall r: Record ensures Matches(r, IdWhere(id)) <==> HasId(r, id) {
      MatchesIdWhere(r, id);
    }
  }

  /** The records passing `w`, in table order (an array `filter`). */
  function Select(rows: seq<Record>, w: Where): (r: seq<Record>)
    ensures |r| <= |rows|
    ensures forall x :: x in r <==> x in rows && Matches(x, w)
  {
    if rows == [] then []
    else
      assert rows == [rows[0]] + rows[1..];
      if Matches(rows[0], w) then [rows[0]] + Select(rows[1..], w)
      else Select(rows[1..], w)
  }

  /** Filtering distributes over concatenation: it keeps the relative order of
      the records it keeps. */
  lemma {:induction false} SelectAppend(a: seq<Record>, b: seq<Record>, w: Where)
    ensures Select(a + b, w) == Select(a, w) + Select(b, w)
  {
    if a == [] {
      assert a + b == b;
    } else {
      assert (a + b)[0] == a[0] && (a + b)[1..] == a[1..] + b;
      SelectAppend(a[1..], b, w);
    }
  }

  /** When every record passes, filtering returns the table itself. */
  lemma {:induction false} SelectAll(rows: seq<Record>, w: Where)
    requires forall i :: 0 <= i < |rows| ==> Matches(rows[i], w)
    ensures Select(rows, w) == rows
  {
    if rows != [] {
      SelectAll(rows[1..], w);
    }
  }

  /** The empty filter `{}` lets every record pass. */
  lemma SelectEmptyWhere(rows: seq<Record>)
    ensures Select(rows, map[]) == rows
  {
    SelectAll(rows, map[]);
  }

  /** `sub` sits inside `rows` at the strictly increasing positions `idx`. */
  predicate Embeds(rows: seq<Record>, sub: seq<Record>, idx: seq<nat>) {
    && |idx| == |sub|
    && (forall i :: 0 <= i < |idx| ==> idx[i] < |rows| && rows[idx[i]] == sub[i])
    && (forall i, j :: 0 <= i < j < |idx| ==> idx[i] < idx[j])
  }

  /** The positions below `n` of the records passing `w`, in increasing order:
      the filter keeps the passing records in table order, and keeps them all. */
  function SelectIndices(rows: seq<Record>, w: Where, n: nat): (idx: seq<nat>)
    requires n <= |rows|
    ensures Embeds(rows, Select(rows[..n], w), idx)
    ensures forall i :: 0 <= i < |idx| ==> idx[i] < n
    ensures forall k :: 0 <= k < n && Matches(rows[k], w) ==> k in idx
  {
    if n == 0 then []
    else
      var prev := SelectIndices(rows, w, n - 1);
      var hit := Matches(rows[n - 1], w);
      var idx := if hit then prev + [n - 1] else prev;
      SelectSnoc(rows, w, n);
      EmbedsStep(rows, Select(rows[..n - 1], w), Select(rows[..n], w), prev, idx, n, hit);
      CoverStep(rows, w, n, prev, idx);
      idx
  }

  /** The positions grow with the filter: one more passing record, one more
      position at the end. */
  lemma EmbedsStep(rows: seq<Record>, before: seq<Record>, after: seq<Record>,
                   prev: seq<nat>, idx: seq<nat>, n: nat, hit: bool)
    requires 0 < n <= |rows|
    requires Embeds(rows, before, prev)
    requires forall i :: 0 <= i < |prev| ==> prev[i] < n - 1
    requires after == if hit then before + [rows[n - 1]] else before
    requires idx == if hit then prev + [n - 1] else prev
    ensures Embeds(rows, after, idx)
    ensures forall i :: 0 <= i < |idx| ==> idx[i] < n
    ensures hit ==> n - 1 in idx
    ensures forall k :: k in prev ==> k in idx
  {
    if hit {
      EmbedsSnoc(rows, before, prev, n - 1);
    }
  }

  /** Every passing position below `n` is among the positions. */
  lemma CoverStep(rows: seq<Record>, w: Where, n: nat, prev: seq<nat>, idx: seq<nat>)
    requires 0 < n <= |rows|
    requires forall k :: 0 <= k < n - 1 && Matches(rows[k], w) ==> k in prev
    requires forall k :: k in prev ==> k in idx
    requires Matches(rows[n - 1], w) ==> n - 1 in idx
    ensures forall k :: 0 <= k < n && Matches(rows[k], w) ==> k in idx
  {
    forall k | 0 <= k < n && Matches(rows[k], w)
      ensures k in idx
    {
      if k < n - 1 {
        assert k in prev;
      }
    }
  }

  /** Filtering a table one record longer adds that record at the end when it
      passes. */
  lemma SelectSnoc(rows: seq<Record>, w: Where, n: nat)
    requires 0 < n <= |rows|
    ensures Select(rows[..n], w)
         == Select(rows[..n - 1], w) + if Matches(rows[n - 1], w) then [rows[n - 1]] else []
  {
    assert rows[..n] == rows[..n - 1] + [rows[n - 1]];
    SelectAppend(rows[..n - 1], [rows[n - 1]], w);
    assert [rows[n - 1]][1..] == [];
  }

  lemma EmbedsSnoc(rows: seq<Record>, sub: seq<Record>, idx: seq<nat>, k: nat)
    requires Embeds(rows, sub, idx) && k < |rows|
    requires forall i :: 0 <= i < |idx| ==> idx[i] < k
    ensures Embeds(rows, sub + [rows[k]], idx + [k])
  {
  }

  /** The position of the first record passing `w` (an array `findIndex`, with
      `None` for its -1). */
  function FirstIndex(rows: seq<Record>, w: Where): (i: Option<nat>)
    ensures i.Some? ==> i.value < |rows| && Matches(rows[i.value], w)
    ensures i.Some? ==> forall j :: 0 <= j < i.value ==> !Matches(rows[j], w)
    ensures i.None? <==> forall j :: 0 <= j < |rows| ==> !Matches(rows[j], w)
  {
    if rows == [] then None
    else if Matches(rows[0], w) then Some(0)
    else
      match FirstIndex(rows[1..], w)
      case None => None
      case Some(j) => Some(j + 1)
  }

  /** The head of the filtered table is the record `findIndex` locates. */
  lemma {:induction false} SelectHead(rows: seq<Record>, w: Where)
    ensures Select(rows, w) == [] <==> FirstIndex(rows, w).None?
    ensures Select(rows, w) != [] ==> Select(rows, w)[0] == rows[FirstIndex(rows, w).value]
  {
    if rows != [] && !Matches(rows[0], w) {
      SelectHead(rows[1..], w);
    }
  }

  /** The record `create` stores: the given data, then a fresh `id` and both
      timestamps, later keys overriding earlier ones as in an object spread. */
  function Stamped(data: Record, id: string, now: int): (r: Record)
    ensures r.Keys == data.Keys + {Id, CreatedAt, UpdatedAt}
    ensures r[Id] == Str(id) && r[CreatedAt] == Time(now) && r[UpdatedAt] == Time(now)
    ensures forall k :: k in data && k !in {Id, CreatedAt, UpdatedAt} ==> r[k] == data[k]
  {
    data + map[Id := Str(id), CreatedAt := Time(now), UpdatedAt := Time(now)]
  }

  /** The record `update` leaves in place: the old record with the patch's
      fields copied over it, then `updatedAt` refreshed. */
  function Patched(rec: Record, patch: Record, now: int): (r: Record)
    ensures r.Keys == rec.Keys + patch.Keys + {UpdatedAt}
    ensures r[UpdatedAt] == Time(now)
    ensures forall k :: k in patch && k != UpdatedAt ==> r[k] == patch[k]
    ensures forall k :: k in rec && k !in patch && k != UpdatedAt ==> r[k] == rec[k]
  {
    rec + patch + map[UpdatedAt := Time(now)]
  }

  /** Every record has an `id`, and no two records share one. */
  ghost predicate UniqueIds(rows: seq<Record>) {
    && (forall i :: 0 <= i < |rows| ==> Id in rows[i])
    && (forall i, j :: 0 <= i < j < |rows| ==> rows[i][Id] != rows[j][Id])
  }

  /** No record carries the identifier `id`. */
  predicate IdFree(rows: seq<Record>, id: string) {
    forall i :: 0 <= i < |rows| ==> !HasId(rows[i], id)
  }

  /** The table with the record at `i` spliced out. */
  function Removed(rows: seq<Record>, i: nat): (r: seq<Record>)
    requires i < |rows|
    ensures |r| == |rows| - 1
    ensures forall j :: 0 <= j < i ==> r[j] == rows[j]
    ensures forall j :: i <= j < |r| ==> r[j] == rows[j + 1]
  {
    rows[..i] + rows[i + 1..]
  }

  /** The value an optional text input gives a field. */
  function OptStr(v: Option<string>): (r: Option<Value>)
    ensures r.Some? <==> v.Some?
    ensures v.Some? ==> r.value == Str(v.value)
  {
    if v.Some? then Some(Str(v.value)) else None
  }

  /** The value an optional number input gives a field. */
  function OptNum(v: Option<int>): (r: Option<Value>)
    ensures r.Some? <==> v.Some?
    ensures v.Some? ==> r.value == Num(v.value)
  {
    if v.Some? then Some(Num(v.value)) else None
  }

  /** The patch an update passes to the store: the fields the input gives a
      value, with those values; the fields it leaves out are not sent. */
  function PatchOf(entries: map<Field, Option<Value>>): (p: Record)
    ensures forall k :: k in p <==> k in entries && entries[k].Some?
    ensures forall k :: k in p ==> p[k] == entries[k].value
  {
    map k | k in entries && entries[k].Some? :: entries[k].value
  }

  /** Under unique identifiers the `{ id }` filter picks out at most one record. */
  lemma UniqueIdMatch(rows: seq<Record>, id: string, i: nat)
    requires UniqueIds(rows) && i < |rows| && HasId(rows[i], id)
    ensures forall j :: 0 <= j < |rows| && j != i ==> !HasId(rows[j], id)
  {
  }

  /** Appending a record with a fresh identifier keeps identifiers unique. */
  lemma AppendFresh(rows: seq<Record>, r: Record, id: string)
    requires UniqueIds(rows) && IdFree(rows, id) && HasId(r, id)
    ensures UniqueIds(rows + [r])
  {
    var s := rows + [r];
    forall i, j | 0 <= i < j < |s| ensures s[i][Id] != s[j][Id] {
      if j == |rows| {
        assert !HasId(rows[i], id);
      }
    }
  }

  /** Splicing out one record keeps identifiers unique, and after splicing out
      the record with identifier `id` no record carries it. */
  lemma {:induction false} RemovedUnique(rows: seq<Record>, i: nat)
    requires UniqueIds(rows) && i < |rows|
    ensures UniqueIds(Removed(rows, i))
    ensures |Removed(rows, i)| == |rows| - 1
    ensures forall id :: HasId(rows[i], id) ==> IdFree(Removed(rows, i), id)
  {
    var s := Removed(rows, i);
    assert forall j :: 0 <= j < |s| ==> s[j] == (if j < i then rows[j] else rows[j + 1]);
    forall id | HasId(rows[i], id) ensures IdFree(s, id) {
      UniqueIdMatch(rows, id, i);
    }
  }

  /** Replacing one record by one with the same identifier keeps identifiers unique. */
  lemma ReplaceKeepsUnique(rows: seq<Record>, i: nat, r: Record)
    requires UniqueIds(rows) && i < |rows| && Id in r && r[Id] == rows[i][Id]
    ensures UniqueIds(rows[i := r])
  {
  }
}
