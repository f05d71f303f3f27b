/** The farm service: create under the area rule, the lookups and mutations
    behind an existence check, and the four dashboard queries. */
module Farms {
  import opened Errors
  import opened Records
  import opened Aggregation
  import opened Entities
  import opened FarmDto
  import opened PrismaEntity
  import opened PrismaService

  const FarmNotFound := "Farm not found"
  const AreaMessage := "'arableArea' + 'vegetationArea' can't be greater than 'totalArea'"

  /** The service's rule: the arable and vegetation areas together may not exceed the total. */
  predicate AreaExceeded(d: CreateFarmDto) {
    d.totalArea < d.arableArea + d.vegetationArea
  }

  /** An input that passes the field constraints and the area rule has both
      parts strictly smaller than the whole. */
  lemma AcceptedFarmAreas(d: CreateFarmDto)
    requires IsValid(d) && !AreaExceeded(d)
    ensures d.arableArea + d.vegetationArea <= d.totalArea
    ensures 0 < d.arableArea < d.totalArea && 0 < d.vegetationArea < d.totalArea
  {
  }

  /** 100 / 70 / 30 passes both checks; 50 / 70 / 30 breaks the area rule. */
  lemma SampleAreas()
    ensures var d := CreateFarmDto("Farm 1", "City A", "State A", 100, 70, 30, "producerId");
      IsValid(d) && !AreaExceeded(d)
    ensures var d := CreateFarmDto("Farm 1", "City A", "State A", 50, 70, 30, "producerId");
      IsValid(d) && AreaExceeded(d)
  {
  }

  /** The stored record reads back as the farm the input describes. */
  lemma CreatedFarm(d: CreateFarmDto, id: string, now: int)
    ensures FarmOf(Stamped(Data(d), id, now)) == Some(Farm(
      id, d.name, d.city, d.state, d.totalArea, d.arableArea, d.vegetationArea,
      d.producerId, now, now))
  {
    var r := Stamped(Data(d), id, now);
    assert IsFarmRecord(r);
  }

  datatype FarmsCount = FarmsCount(count: nat)
  datatype TotalFarmsAreaDto = TotalFarmsAreaDto(totalArea: Option<Total>)
  datatype TotalFarmsAreaByTypeDto = TotalFarmsAreaByTypeDto(arableArea: Option<Total>, vegetationArea: Option<Total>)
  datatype FarmsCountByStateDto = FarmsCountByStateDto(state: Option<Value>, count: nat)

  function StatesOf(r: seq<FarmsCountByStateDto>): (ss: seq<Option<Value>>)
    ensures |ss| == |r| && forall i :: 0 <= i < |r| ==> ss[i] == r[i].state
  {
    seq(|r|, i requires 0 <= i < |r| => r[i].state)
  }

  function TotalCount(r: seq<FarmsCountByStateDto>): nat {
    if r == [] then 0 else r[0].count + TotalCount(r[1..])
  }

  /** Renaming the `groupBy` rows keeps their order, keys and counts. */
  lemma {:induction false} ByStateTotals(groups: seq<GroupRow>, r: seq<FarmsCountByStateDto>)
    requires |r| == |groups|
    requires forall i :: 0 <= i < |r| ==> r[i] == FarmsCountByStateDto(groups[i].key, groups[i].count)
    ensures TotalCount(r) == SumCounts(groups)
    ensures StatesOf(r) == Keys(groups)
  {
    if r != [] {
      ByStateTotals(groups[1..], r[1..]);
    }
  }

  class FarmsService {
    const prisma: MockPrismaService

    constructor (prisma: MockPrismaService)
      ensures this.prisma == prisma
    {
      this.prisma := prisma;
    }

    /** Rejects an input whose parts exceed the whole; otherwise stores it. The
        referenced producer is not looked up. */
    method Create(data: CreateFarmDto, id: string, now: int) returns (r: Result<Record>)
      requires prisma.Valid() && IdFree(prisma.farm.db, id)
      modifies prisma.farm
      ensures prisma.Valid()
      ensures unchanged(prisma.crop, prisma.harvest, prisma.producer)
      ensures AreaExceeded(data) ==>
        r == Failure(InvalidInput(AreaMessage)) && prisma.farm.db == old(prisma.farm.db)
      ensures !AreaExceeded(data) ==>
        && r.Success?
        && prisma.farm.db == old(prisma.farm.db) + [r.value]
        && FarmOf(r.value) == Some(Farm(
             id, data.name, data.city, data.state, data.totalArea, data.arableArea,
             data.vegetationArea, data.producerId, now, now))
    {
      if data.totalArea < data.arableArea + data.vegetationArea {
        r := Failure(InvalidInput(AreaMessage));
        return;
      }
      var farm := prisma.farm.Create(Data(data), id, now);
      CreatedFarm(data, id, now);
      r := Success(farm);
    }

    /** Every farm, in table order. */
    function FindAll(): (farms: seq<Record>)
      reads prisma.farm
      ensures farms == prisma.farm.db
    {
      prisma.farm.FindMany(None)
    }

    /** The farm with identifier `id`, or NotFound. */
    function FindOne(id: string): (r: Result<Record>)
      reads prisma.farm
      ensures r.Failure? <==> IdFree(prisma.farm.db, id)
      ensures r.Failure? ==> r.error == NotFound(FarmNotFound)
      ensures r.Success? ==> r.value in prisma.farm.db && HasId(r.value, id)
    {
      MatchesIdWhereAll(id);
      match prisma.farm.FindUnique(IdWhere(id))
      case None => Failure(NotFound(FarmNotFound))
      case Some(farm) => Success(farm)
    }

    /** Applies the patch to the farm with identifier `id`; the area rule is not
        checked again. */
    method Update(id: string, data: UpdateFarmDto, now: int) returns (r: Result<Record>)
      requires prisma.Valid()
      modifies prisma.farm
      ensures prisma.Valid()
      ensures unchanged(prisma.crop, prisma.harvest, prisma.producer)
      ensures match IdIndex(old(prisma.farm.db), id)
        case None =>
          r == Failure(NotFound(FarmNotFound)) && prisma.farm.db == old(prisma.farm.db)
        case Some(i) =>
          && prisma.farm.db == old(prisma.farm.db)[i := Patched(old(prisma.farm.db)[i], Patch(data), now)]
          && r == Success(prisma.farm.db[i])
    {
      var farm := prisma.farm.FindUnique(IdWhere(id));
      if farm.None? {
        r := Failure(NotFound(FarmNotFound));
        return;
      }
      r := prisma.farm.Update(IdWhere(id), Patch(data), now);
    }

    /** Deletes the farm with identifier `id`, and nothing else. */
    method Remove(id: string) returns (r: Result<()>)
      requires prisma.Valid()
      modifies prisma.farm
      ensures prisma.Valid()
      ensures unchanged(prisma.crop, prisma.harvest, prisma.producer)
      ensures match IdIndex(old(prisma.farm.db), id)
        case None =>
          r == Failure(NotFound(FarmNotFound)) && prisma.farm.db == old(prisma.farm.db)
        case Some(i) =>
          && r == Success(())
          && prisma.farm.db == Removed(old(prisma.farm.db), i)
          && IdFree(prisma.farm.db, id)
    {
      var farm := prisma.farm.FindUnique(IdWhere(id));
      if farm.None? {
        r := Failure(NotFound(FarmNotFound));
        return;
      }
      ghost var i := IdIndex(prisma.farm.db, id).value;
      RemovedUnique(prisma.farm.db, i);
      var deleted := prisma.farm.Delete(IdWhere(id));
      match deleted {
        case Success(_) => r := Success(());
        case Failure(e) => r := Failure(e);
      }
    }

    /** The number of farms. */
    function TotalFarmsCount(): (r: FarmsCount)
      reads prisma.farm
      ensures r.count == |prisma.farm.db|
    {
      FarmsCount(prisma.farm.Count(None))
    }

    /** The sum of `totalArea` over all farms; absent when there are none. */
    method TotalFarmsArea() returns (r: TotalFarmsAreaDto)
      ensures r.totalArea == Accumulated(prisma.farm.db, TotalArea)
      ensures prisma.farm.db == [] ==> r.totalArea.None?
      ensures prisma.farm.db != [] && AllNumeric(prisma.farm.db, TotalArea) ==>
        r.totalArea == Some(Sum(NumSum(prisma.farm.db, TotalArea)))
    {
      var sums := prisma.farm.Aggregate([TotalArea], None);
      r := TotalFarmsAreaDto(if TotalArea in sums then Some(sums[TotalArea]) else None);
    }

    /** The sums of `arableArea` and of `vegetationArea` over all farms. */
    method TotalFarmsAreasByType() returns (r: TotalFarmsAreaByTypeDto)
      ensures r.arableArea == Accumulated(prisma.farm.db, ArableArea)
      ensures r.vegetationArea == Accumulated(prisma.farm.db, VegetationArea)
      ensures prisma.farm.db != [] && AllNumeric(prisma.farm.db, ArableArea) ==>
        r.arableArea == Some(Sum(NumSum(prisma.farm.db, ArableArea)))
      ensures prisma.farm.db != [] && AllNumeric(prisma.farm.db, VegetationArea) ==>
        r.vegetationArea == Some(Sum(NumSum(prisma.farm.db, VegetationArea)))
    {
      var sums := prisma.farm.Aggregate([ArableArea, VegetationArea], None);
      r := TotalFarmsAreaByTypeDto(
        if ArableArea in sums then Some(sums[ArableArea]) else None,
        if VegetationArea in sums then Some(sums[VegetationArea]) else None);
    }

    /** One `{ state, count }` per distinct state, in first-seen order, counting
        the farms in that state; the counts add up to the number of farms. */
    method TotalByState() returns (r: seq<FarmsCountByStateDto>)
      ensures |r| == |Grouped(prisma.farm.db, State)|
      ensures forall i :: 0 <= i < |r| ==>
        r[i] == FarmsCountByStateDto(Grouped(prisma.farm.db, State)[i].key, Grouped(prisma.farm.db, State)[i].count)
      ensures StatesOf(r) == Dedup(Column(prisma.farm.db, State))
      ensures forall i :: 0 <= i < |r| ==> r[i].count == Occurrences(prisma.farm.db, State, r[i].state) >= 1
      ensures TotalCount(r) == |prisma.farm.db|
    {
      var countByState := prisma.farm.GroupBy(State);
      r := seq(|countByState|, i requires 0 <= i < |countByState| =>
        FarmsCountByStateDto(countByState[i].key, countByState[i].count));
      ByStateTotals(countByState, r);
    }
  }
}
