/** The store the services are given: four independent in-memory tables. */
module PrismaService {
  import opened PrismaEntity

  class MockPrismaService {
    const crop: MockPrismaEntity
    const farm: MockPrismaEntity
    const harvest: MockPrismaEntity
    const producer: MockPrismaEntity

    /** The four tables are distinct objects, each with unique identifiers. */
    ghost predicate Valid()
      reads crop, farm, harvest, producer
    {
      && crop != farm && crop != harvest && crop != producer
      && farm != harvest && farm != producer
      && harvest != producer
      && crop.Valid() && farm.Valid() && harvest.Valid() && producer.Valid()
    }

    /** A new store holds four separate, empty tables. */
    constructor ()
      ensures Valid()
      ensures fresh(crop) && fresh(farm) && fresh(harvest) && fresh(producer)
      ensures crop.db == [] && farm.db == [] && harvest.db == [] && producer.db == []
    {
      crop := new MockPrismaEntity();
      farm := new MockPrismaEntity();
      harvest := new MockPrismaEntity();
      producer := new MockPrismaEntity();
    }
  }
}
