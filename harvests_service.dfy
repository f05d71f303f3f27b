/** The harvest service: create, and the lookups and mutations behind an
    existence check. */
module Harvests {
  import opened Errors
  import opened Records
  import opened Entities
  import opened HarvestDto
  import opened PrismaEntity
  import opened PrismaService

  const HarvestNotFound := "Harvest not found"

  /** The stored record reads back as the harvest the input describes; a valid
      input gives a harvest of a positive year with a farm reference. */
  lemma CreatedHarvest(d: CreateHarvestDto, id: string, now: int)
    ensures HarvestOf(Stamped(Data(d), id, now)) == Some(Harvest(id, d.year, d.farmId, now, now))
    ensures IsValid(d) ==> var h := HarvestOf(Stamped(Data(d), id, now)).value; h.year > 0 && h.farmId != ""
  {
  }

  /** Moving a harvest to another year changes its year and `updatedAt` and
      leaves its farm, identifier and creation time as they were. */
  lemma ChangeYear(rec: Record, h: Harvest, year: int, now: int)
    requires HarvestOf(rec) == Some(h)
    ensures HarvestOf(Patched(rec, Patch(UpdateHarvestDto(Some(year), None)), now))
      == Some(h.(year := year, updatedAt := now))
  {
    var p := Patch(UpdateHarvestDto(Some(year), None));
    assert Year in p && FarmId !in p && Id !in p && CreatedAt !in p;
  }

  class HarvestsService {
    const prisma: MockPrismaService

    constructor (prisma: MockPrismaService)
      ensures this.prisma == prisma
    {
      this.prisma := prisma;
    }

    /** Stores the harvest; the referenced farm is not looked up. */
    method Create(data: CreateHarvestDto, id: string, now: int) returns (harvest: Record)
      requires prisma.Valid() && IdFree(prisma.harvest.db, id)
      modifies prisma.harvest
      ensures prisma.Valid()
      ensures unchanged(prisma.farm, prisma.crop, prisma.producer)
      ensures prisma.harvest.db == old(prisma.harvest.db) + [harvest]
      ensures HarvestOf(harvest) == Some(Harvest(id, data.year, data.farmId, now, now))
    {
      harvest := prisma.harvest.Create(Data(data), id, now);
      CreatedHarvest(data, id, now);
    }

    /** Every harvest, in table order. */
    function FindAll(): (harvests: seq<Record>)
      reads prisma.harvest
      ensures harvests == prisma.harvest.db
    {
      prisma.harvest.FindMany(None)
    }

    /** The harvest with identifier `id`, or NotFound. */
    function FindOne(id: string): (r: Result<Record>)
      reads prisma.harvest
      ensures r.Failure? <==> IdFree(prisma.harvest.db, id)
      ensures r.Failure? ==> r.error == NotFound(HarvestNotFound)
      ensures r.Success? ==> r.value in prisma.harvest.db && HasId(r.value, id)
    {
      MatchesIdWhereAll(id);
      match prisma.harvest.FindUnique(IdWhere(id))
      case None => Failure(NotFound(HarvestNotFound))
      case Some(harvest) => Success(harvest)
    }

    /** Applies the patch to the harvest with identifier `id`. */
    method Update(id: string, data: UpdateHarvestDto, now: int) returns (r: Result<Record>)
      requires prisma.Valid()
      modifies prisma.harvest
      ensures prisma.Valid()
      ensures unchanged(prisma.farm, prisma.crop, prisma.producer)
      ensures match IdIndex(old(prisma.harvest.db), id)
        case None =>
          r == Failure(NotFound(HarvestNotFound)) && prisma.harvest.db == old(prisma.harvest.db)
        case Some(i) =>
          && prisma.harvest.db == old(prisma.harvest.db)[i := Patched(old(prisma.harvest.db)[i], Patch(data), now)]
          && r == Success(prisma.harvest.db[i])
    {
      var harvest := prisma.harvest.FindUnique(IdWhere(id));
      if harvest.None? {
        r := Failure(NotFound(HarvestNotFound));
        return;
      }
      r := prisma.harvest.Update(IdWhere(id), Patch(data), now);
    }

    /** Deletes the harvest with identifier `id`, and nothing else: the crops
        that refer to it stay. */
    method Remove(id: string) returns (r: Result<()>)
      requires prisma.Valid()
      modifies prisma.harvest
      ensures prisma.Valid()
      ensures unchanged(prisma.farm, prisma.crop, prisma.producer)
      ensures match IdIndex(old(prisma.harvest.db), id)
        case None =>
          r == Failure(NotFound(HarvestNotFound)) && prisma.harvest.db == old(prisma.harvest.db)
        case Some(i) =>
          && r == Success(())
          && prisma.harvest.db == Removed(old(prisma.harvest.db), i)
          && IdFree(prisma.harvest.db, id)
    {
      var harvest := prisma.harvest.FindUnique(IdWhere(id));
      if harvest.None? {
        r := Failure(NotFound(HarvestNotFound));
        return;
      }
      ghost var i := IdIndex(prisma.harvest.db, id).value;
      RemovedUnique(prisma.harvest.db, i);
      var deleted := prisma.harvest.Delete(IdWhere(id));
      match deleted {
        case Success(_) => r := Success(());
        case Failure(e) => r := Failure(e);
      }
    }
  }
}
