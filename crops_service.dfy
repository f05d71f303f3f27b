/** The crop service: create, the lookups and mutations behind an existence
    check, and the count of crops per name. */
module Crops {
  import opened Errors
  import opened Records
  import opened Aggregation
  import opened Entities
  import opened CropDto
  import opened PrismaEntity
  import opened PrismaService

  const CropNotFound := "Crop not found"

  datatype CropsCountByNameDto = CropsCountByNameDto(crop: Option<Value>, count: nat)

  function CropsOf(r: seq<CropsCountByNameDto>): (cs: seq<Option<Value>>)
    ensures |cs| == |r| && forall i :: 0 <= i < |r| ==> cs[i] == r[i].crop
  {
    seq(|r|, i requires 0 <= i < |r| => r[i].crop)
  }

  function TotalCount(r: seq<CropsCountByNameDto>): nat {
    if r == [] then 0 else r[0].count + TotalCount(r[1..])
  }

  /** Renaming the `groupBy` rows keeps their order, keys and counts. */
  lemma {:induction false} ByNameTotals(groups: seq<GroupRow>, r: seq<CropsCountByNameDto>)
    requires |r| == |groups|
    requires forall i :: 0 <= i < |r| ==> r[i] == CropsCountByNameDto(groups[i].key, groups[i].count)
    ensures TotalCount(r) == SumCounts(groups)
    ensures CropsOf(r) == Keys(groups)
  {
    if r != [] {
      ByNameTotals(groups[1..], r[1..]);
    }
  }

  /** The stored record reads back as the crop the input describes; a valid
      input gives a crop with a non-empty name and harvest reference. */
  lemma CreatedCrop(d: CreateCropDto, id: string, now: int)
    ensures CropOf(Stamped(Data(d), id, now)) == Some(Crop(id, d.name, d.harvestId, now, now))
    ensures IsValid(d) ==> var c := CropOf(Stamped(Data(d), id, now)).value; c.name != "" && c.harvestId != ""
  {
  }

  /** Renaming a crop changes its name and `updatedAt` and leaves its harvest,
      identifier and creation time as they were. */
  lemma RenameCrop(rec: Record, c: Crop, name: string, now: int)
    requires CropOf(rec) == Some(c)
    ensures CropOf(Patched(rec, Patch(UpdateCropDto(Some(name), None)), now))
      == Some(c.(name := name, updatedAt := now))
  {
    var p := Patch(UpdateCropDto(Some(name), None));
    assert Name in p && HarvestId !in p && Id !in p && CreatedAt !in p;
  }

  class CropsService {
    const prisma: MockPrismaService

    constructor (prisma: MockPrismaService)
      ensures this.prisma == prisma
    {
      this.prisma := prisma;
    }

    /** Stores the crop; the referenced harvest is not looked up. */
    method Create(data: CreateCropDto, id: string, now: int) returns (crop: Record)
      requires prisma.Valid() && IdFree(prisma.crop.db, id)
      modifies prisma.crop
      ensures prisma.Valid()
      ensures unchanged(prisma.farm, prisma.harvest, prisma.producer)
      ensures prisma.crop.db == old(prisma.crop.db) + [crop]
      ensures CropOf(crop) == Some(Crop(id, data.name, data.harvestId, now, now))
    {
      crop := prisma.crop.Create(Data(data), id, now);
      CreatedCrop(data, id, now);
    }

    /** Every crop, in table order. */
    function FindAll(): (crops: seq<Record>)
      reads prisma.crop
      ensures crops == prisma.crop.db
    {
      prisma.crop.FindMany(None)
    }

    /** The crop with identifier `id`, or NotFound. */
    function FindOne(id: string): (r: Result<Record>)
      reads prisma.crop
      ensures r.Failure? <==> IdFree(prisma.crop.db, id)
      ensures r.Failure? ==> r.error == NotFound(CropNotFound)
      ensures r.Success? ==> r.value in prisma.crop.db && HasId(r.value, id)
    {
      MatchesIdWhereAll(id);
      match prisma.crop.FindUnique(IdWhere(id))
      case None => Failure(NotFound(CropNotFound))
      case Some(crop) => Success(crop)
    }

    /** Applies the patch to the crop with identifier `id`. */
    method Update(id: string, data: UpdateCropDto, now: int) returns (r: Result<Record>)
      requires prisma.Valid()
      modifies prisma.crop
      ensures prisma.Valid()
      ensures unchanged(prisma.farm, prisma.harvest, prisma.producer)
      ensures match IdIndex(old(prisma.crop.db), id)
        case None =>
          r == Failure(NotFound(CropNotFound)) && prisma.crop.db == old(prisma.crop.db)
        case Some(i) =>
          && prisma.crop.db == old(prisma.crop.db)[i := Patched(old(prisma.crop.db)[i], Patch(data), now)]
          && r == Success(prisma.crop.db[i])
    {
      var crop := prisma.crop.FindUnique(IdWhere(id));
      if crop.None? {
        r := Failure(NotFound(CropNotFound));
        return;
      }
      r := prisma.crop.Update(IdWhere(id), Patch(data), now);
    }

    /** Deletes the crop with identifier `id`, and nothing else. */
    method Remove(id: string) returns (r: Result<()>)
      requires prisma.Valid()
      modifies prisma.crop
      ensures prisma.Valid()
      ensures unchanged(prisma.farm, prisma.harvest, prisma.producer)
      ensures match IdIndex(old(prisma.crop.db), id)
        case None =>
          r == Failure(NotFound(CropNotFound)) && prisma.crop.db == old(prisma.crop.db)
        case Some(i) =>
          && r == Success(())
          && prisma.crop.db == Removed(old(prisma.crop.db), i)
          && IdFree(prisma.crop.db, id)
    {
      var crop := prisma.crop.FindUnique(IdWhere(id));
      if crop.None? {
        r := Failure(NotFound(CropNotFound));
        return;
      }
      ghost var i := IdIndex(prisma.crop.db, id).value;
      RemovedUnique(prisma.crop.db, i);
      var deleted := prisma.crop.Delete(IdWhere(id));
      match deleted {
        case Success(_) => r := Success(());
        case Failure(e) => r := Failure(e);
      }
    }

    /** One `{ crop, count }` per distinct crop name, in first-seen order,
        counting the crops of that name; the counts add up to the number of crops. */
    method TotalByCropName() returns (r: seq<CropsCountByNameDto>)
      ensures |r| == |Grouped(prisma.crop.db, Name)|
      ensures forall i :: 0 <= i < |r| ==>
        r[i] == CropsCountByNameDto(Grouped(prisma.crop.db, Name)[i].key, Grouped(prisma.crop.db, Name)[i].count)
      ensures CropsOf(r) == Dedup(Column(prisma.crop.db, Name))
      ensures forall i :: 0 <= i < |r| ==> r[i].count == Occurrences(prisma.crop.db, Name, r[i].crop) >= 1
      ensures TotalCount(r) == |prisma.crop.db|
    {
      var countByCropName := prisma.crop.GroupBy(Name);
      r := seq(|countByCropName|, i requires 0 <= i < |countByCropName| =>
        CropsCountByNameDto(countByCropName[i].key, countByCropName[i].count));
      ByNameTotals(countByCropName, r);
    }
  }
}
