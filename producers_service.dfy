/** The producer service. Unlike the other three it has no existence check:
    a lookup of a missing identifier yields no producer, and an update or a
    delete of one fails with the store's own error. It also stores only the
    name and the document of its input, and an update sends only the name. */
module Producers {
  import opened Errors
  import opened Records
  import opened Entities
  import opened ProducerDto
  import opened PrismaEntity
  import opened PrismaService

  /** The record data a create passes to the store. */
  function Data(d: CreateProducerDto): Record {
    map[Name := Str(d.name), Document := Str(d.document)]
  }

  /** The patch an update passes to the store: the name alone, when one is given. */
  function NamePatch(u: UpdateProducerDto): (p: Record)
    ensures p.Keys <= {Name}
    ensures Name in p <==> u.name.Some?
    ensures Name in p ==> p[Name] == Str(u.name.value)
  {
    if u.name.Some? then map[Name := Str(u.name.value)] else map[]
  }

  /** The stored record reads back as the producer the input describes, and
      carries no field beyond the name, the document and the stamps. */
  lemma CreatedProducer(d: CreateProducerDto, id: string, now: int)
    ensures ProducerOf(Stamped(Data(d), id, now)) == Some(Producer(id, d.name, d.document, now, now))
    ensures Stamped(Data(d), id, now).Keys == {Id, Name, Document, CreatedAt, UpdatedAt}
  {
  }

  /** A producer stored from an input that passed validation holds the
      normalised document, which consists of 11 or 14 digits. */
  lemma ValidatedProducerStored(name: string, document: string, id: string, now: int)
    requires Validate(name, document).Success?
    ensures var p := ProducerOf(Stamped(Data(Validate(name, document).value), id, now));
      && p.Some? && p.value.name == name != ""
      && p.value.document == Normalize(document)
      && IsCpfOrCnpj(p.value.document)
  {
    CreatedProducer(Validate(name, document).value, id, now);
  }

  /** An update keeps the document, the identifier and the creation time even
      when the input carries a new document; given a name, it reads back as the
      producer renamed and stamped. */
  lemma DocumentKept(rec: Record, p: Producer, u: UpdateProducerDto, now: int)
    requires ProducerOf(rec) == Some(p)
    ensures var r := Patched(rec, NamePatch(u), now);
      && Document in r && r[Document] == Str(p.document)
      && Id in r && r[Id] == Str(p.id)
      && CreatedAt in r && r[CreatedAt] == Time(p.createdAt)
    ensures u.name.Some? ==>
      ProducerOf(Patched(rec, NamePatch(u), now)) == Some(p.(name := u.name.value, updatedAt := now))
  {
    var q := NamePatch(u);
    assert Document !in q && Id !in q && CreatedAt !in q;
  }

  class ProducersService {
    const prisma: MockPrismaService

    constructor (prisma: MockPrismaService)
      ensures this.prisma == prisma
    {
      this.prisma := prisma;
    }

    /** Stores the name and the document; no other producer is consulted. */
    method Create(data: CreateProducerDto, id: string, now: int) returns (producer: Record)
      requires prisma.Valid() && IdFree(prisma.producer.db, id)
      modifies prisma.producer
      ensures prisma.Valid()
      ensures unchanged(prisma.farm, prisma.harvest, prisma.crop)
      ensures prisma.producer.db == old(prisma.producer.db) + [producer]
      ensures ProducerOf(producer) == Some(Producer(id, data.name, data.document, now, now))
      ensures producer.Keys == {Id, Name, Document, CreatedAt, UpdatedAt}
    {
      producer := prisma.producer.Create(Data(data), id, now);
      CreatedProducer(data, id, now);
    }

    /** Every producer, in table order. */
    function FindAll(): (producers: seq<Record>)
      reads prisma.producer
      ensures producers == prisma.producer.db
    {
      prisma.producer.FindMany(None)
    }

    /** The producer with identifier `id`, or `None` when there is none. */
    function FindOne(id: string): (r: Option<Record>)
      reads prisma.producer
      ensures r.None? <==> IdFree(prisma.producer.db, id)
      ensures r.Some? ==> r.value in prisma.producer.db && HasId(r.value, id)
    {
      MatchesIdWhereAll(id);
      prisma.producer.FindUnique(IdWhere(id))
    }

    /** Renames the producer with identifier `id`; the document of the input
        is dropped. A missing producer fails with the store's error. */
    method Update(id: string, data: UpdateProducerDto, now: int) returns (r: Result<Record>)
      requires prisma.Valid()
      modifies prisma.producer
      ensures prisma.Valid()
      ensures unchanged(prisma.farm, prisma.harvest, prisma.crop)
      ensures match IdIndex(old(prisma.producer.db), id)
        case None =>
          r == Failure(Unclassified(RecordNotFound)) && prisma.producer.db == old(prisma.producer.db)
        case Some(i) =>
          && prisma.producer.db == old(prisma.producer.db)[i := Patched(old(prisma.producer.db)[i], NamePatch(data), now)]
          && r == Success(prisma.producer.db[i])
          && forall k :: k in old(prisma.producer.db)[i] && k != Name && k != UpdatedAt ==>
               k in r.value && r.value[k] == old(prisma.producer.db)[i][k]
    {
      MatchesIdWhereAll(id);
      r := prisma.producer.Update(IdWhere(id), NamePatch(data), now);
    }

    /** Deletes the producer with identifier `id`; farms that refer to it stay.
        A missing producer fails with the store's error. */
    method Remove(id: string) returns (r: Result<()>)
      requires prisma.Valid()
      modifies prisma.producer
      ensures prisma.Valid()
      ensures unchanged(prisma.farm, prisma.harvest, prisma.crop)
      ensures match IdIndex(old(prisma.producer.db), id)
        case None =>
          r == Failure(Unclassified(RecordNotFound)) && prisma.producer.db == old(prisma.producer.db)
        case Some(i) =>
          && r == Success(())
          && prisma.producer.db == Removed(old(prisma.producer.db), i)
          && FindOne(id).None?
    {
      MatchesIdWhereAll(id);
      ghost var index := IdIndex(prisma.producer.db, id);
      if index.Some? {
        RemovedUnique(prisma.producer.db, index.value);
      }
      var deleted := prisma.producer.Delete(IdWhere(id));
      match deleted {
        case Success(_) => r := Success(());
        case Failure(e) => r := Failure(e);
      }
    }
  }
}
