# AgBrain record store and services, modelled in Dafny

AgBrain is a small REST back end for agricultural records. It keeps producers,
the farms they own, the harvests of a farm and the crops of a harvest, and it
offers a few dashboard queries. This project models the layer that carries
the behaviour:

- the in-memory table `MockPrismaEntity`, which the end-to-end tests run
  against in place of the database;
- `MockPrismaService`, the store of four such tables;
- the input rules of a producer, a farm, a harvest and a crop;
- the four services (`FarmsService`, `CropsService`, `HarvestsService`,
  `ProducersService`) that check their inputs, look records up by `{ id }`
  and change the tables.

Layout, one module per file:

| file | module | models |
|---|---|---|
| `errors.dfy` | `Errors` | the error kinds (InvalidInput, NotFound, AlreadyExists) plus the store's plain `Error`, and a `Result` type |
| `records.dfy` | `Records` | stored records as maps from field to value, `where` filters, and the specification functions of filtering, stamping and patching |
| `aggregation.dfy` | `Aggregation` | the `_sum` fold and the one-key `groupBy` fold, with the reference definitions they are proved against |
| `mock_prisma_entity.dfy` | `PrismaEntity` | class `MockPrismaEntity`, its `db` field and its operations |
| `mock_prisma_service.dfy` | `PrismaService` | class `MockPrismaService`, which holds four separate tables |
| `entities.dfy` | `Entities` | the typed entity shapes and how a stored record reads as one |
| `producer_dto.dfy`, `farm_dto.dfy`, `harvest_dto.dfy`, `crop_dto.dfy` | `ProducerDto`, `FarmDto`, `HarvestDto`, `CropDto` | the input rules and the data each input sends to the store |
| `farms_service.dfy`, `crops_service.dfy`, `harvests_service.dfy`, `producers_service.dfy` | `Farms`, `Crops`, `Harvests`, `Producers` | the service classes |

Modelling choices:

- **Records.** A record is a `map<Field, Value>`. `Field` lists every field
  the four entities declare. A value is a string, a number (an integer) or a
  date (an instant on an integer clock). A field missing from the map is
  JavaScript's `undefined`. A `where` filter is a map of the same kind. A
  record passes it when each listed field is present with the listed value.
- **The table.** `MockPrismaEntity.db` is a `seq<Record>` that the methods
  reassign. `create` appends. `update` replaces the matched record in place,
  because `Object.assign` mutates the stored object. `delete` splices the
  record out.
- **Unique identifiers.** The class invariant `Valid()` says every record has
  an `id` and no two share one. Every service looks records up by `{ id }`, so
  this is what they rely on.
- **Parameters for randomness and time.** `randomUUID()` and `new Date()`
  become a parameter `id`, required to be new to the table, and a parameter
  `now`.
- **Services.** Each service is a class holding the store. Its mutating
  methods modify only their own table and promise the other three tables
  are `unchanged`.
- **Errors.** `Errors.Error` has one constructor per exception class of the
  application: `InvalidInput` (src/shared/errors/invalid-input.ts:3-7, HTTP 400),
  `NotFound` (src/shared/errors/not-found.ts:3-7, HTTP 404) and `AlreadyExists`
  (src/shared/errors/already-exists.ts:3-7, HTTP 409). Each carries its message.
  `Unclassified` stands for the plain `Error('Record not found')` the store throws.
- **Entity view.** `plainToClass` copies a record's fields into an entity
  instance. The model reads it as the identity on the record. `Entities.FarmOf`
  and its siblings give the typed view of a record.

## Model

| member | source | states |
|---|---|---|
| PrismaEntity.MockPrismaEntity.constructor | src/shared/utils/mock-prisma-entity.ts:12-13 | a new table is empty and satisfies the identifier invariant |
| PrismaEntity.MockPrismaEntity.Create | src/shared/utils/mock-prisma-entity.ts:15-26 | the stored record is the data with the fresh `id` and both timestamps set to `now`; it is appended as the last record and earlier records are untouched; identifiers stay unique |
| PrismaEntity.MockPrismaEntity.FindMany | src/shared/utils/mock-prisma-entity.ts:28-40 | with no filter, the whole table in table order; with a filter, exactly the records that pass it, never more than the table holds; the results sit in the table at strictly increasing positions, and every passing position is among them |
| PrismaEntity.MockPrismaEntity.FindFirst | src/shared/utils/mock-prisma-entity.ts:42-54 | absent exactly when no record passes the filter; otherwise the first record that passes it |
| PrismaEntity.MockPrismaEntity.FindUnique | src/shared/utils/mock-prisma-entity.ts:56-62 | absent exactly when no record passes the filter; otherwise the first record that passes it |
| PrismaEntity.MockPrismaEntity.FindFirstIsFindUnique | src/shared/utils/mock-prisma-entity.ts:42-62 | given a filter, `findFirst` and `findUnique` return the same record |
| PrismaEntity.MockPrismaEntity.Update | src/shared/utils/mock-prisma-entity.ts:64-74 | when nothing matches: the 'Record not found' error and the table unchanged; otherwise only the first matching record is replaced, by the record with the patch copied over it and `updatedAt := now`, and that record is returned; the table length and every other record stay the same |
| PrismaEntity.MockPrismaEntity.Delete | src/shared/utils/mock-prisma-entity.ts:76-89 | when nothing matches: the 'Record not found' error and the table unchanged; otherwise the first matching record is returned and spliced out, and the others keep their order |
| PrismaEntity.MockPrismaEntity.Count | src/shared/utils/mock-prisma-entity.ts:91-101 | with no filter, the table length; with a filter, the number of records `findMany` returns, at most the length, and zero exactly when `findFirst` finds nothing |
| PrismaEntity.MockPrismaEntity.Aggregate | src/shared/utils/mock-prisma-entity.ts:103-129 | one entry per requested field, and none at all on an empty table; each entry is the reduce's running sum over the whole table, with `where` ignored; it is the arithmetic sum when every record holds a number there, and not a number otherwise |
| PrismaEntity.MockPrismaEntity.GroupBy | src/shared/utils/mock-prisma-entity.ts:134-149 | the groups are the distinct values of the field in first-seen order; each count is the number of records holding that value, so at least 1; the counts add up to the table length |
| PrismaService.MockPrismaService.constructor | src/shared/utils/mock-prisma.service.ts:17-22 | four new, pairwise distinct tables, each empty |
| PrismaEntity.Admits | src/shared/utils/mock-prisma-entity.ts:31-36 | no filter admits every record; a filter admits exactly the records that match it (the `params?.where` branch of `findMany`, `findFirst` and `count`) |
| Records.Matches | src/shared/utils/mock-prisma-entity.ts:33-35 | a record matches a filter exactly when every field the filter names is present in the record with the same value, so the empty filter matches every record |
| Records.IdIndex | src/shared/utils/mock-prisma-entity.ts:56-62 | where the `{ id }` filter lands: absent exactly when no record has the id; otherwise the first record that has it |
| Records.Select | src/shared/utils/mock-prisma-entity.ts:31-36 | the filter keeps exactly the passing records and never adds any |
| Records.SelectIndices | src/shared/utils/mock-prisma-entity.ts:31-36 | the positions of the passing records: the filter of a prefix sits at them in increasing order, and every passing position of the prefix is among them |
| Records.SelectSnoc | src/shared/utils/mock-prisma-entity.ts:31-36 | a table one record longer filters to the old result, followed by that record when it passes |
| Records.SelectAppend | src/shared/utils/mock-prisma-entity.ts:31-36 | filtering distributes over concatenation; this is what keeps the relative order of the records it keeps |
| Records.SelectAll | src/shared/utils/mock-prisma-entity.ts:31-36 | when every record passes, filtering returns the table as it is |
| Records.SelectEmptyWhere | src/shared/utils/mock-prisma-entity.ts:31-36 | the empty filter `{}` keeps the whole table |
| Records.FirstIndex | src/shared/utils/mock-prisma-entity.ts:77-81 | the `findIndex` position: the record there passes, no earlier one does, and it is absent exactly when none passes |
| Records.SelectHead | src/shared/utils/mock-prisma-entity.ts:42-62 | the filtered table is empty exactly when `findIndex` finds nothing; otherwise its head is the record `findIndex` locates, so `results[0]` and `find` agree |
| Records.Stamped | src/shared/utils/mock-prisma-entity.ts:16-21 | the stored record has the data's fields plus `id`, `createdAt` and `updatedAt`; the three stamps override the data and every other data field is kept |
| Records.PatchOf | src/modules/farms/services/farms.service.ts:57-60 | an update sends exactly the fields the input gives a value, with those values |
| Records.Patched | src/shared/utils/mock-prisma-entity.ts:71 | the patched record has the old fields plus the patch's; `updatedAt` is `now`, the patch's fields win, and every other field keeps its old value |
| Records.MatchesIdWhere | src/shared/utils/mock-prisma-entity.ts:58-60 | a record passes `{ id }` exactly when its `id` equals the given one |
| Records.UniqueIdMatch | src/shared/utils/mock-prisma-entity.ts:56-62 | with unique identifiers, at most one record passes `{ id }` |
| Records.AppendFresh | src/shared/utils/mock-prisma-entity.ts:18-23 | appending a record with an unused id keeps identifiers unique |
| Records.Removed | src/shared/utils/mock-prisma-entity.ts:87 | the `splice(index, 1)`: one record shorter, the records before the position unchanged and the ones after it shifted down by one |
| Records.RemovedUnique | src/shared/utils/mock-prisma-entity.ts:87 | splicing a record out keeps identifiers unique and shortens the table by one; afterwards no record has the removed id |
| Records.ReplaceKeepsUnique | src/shared/utils/mock-prisma-entity.ts:71 | replacing a record by one with the same id keeps identifiers unique |
| Aggregation.Start | src/shared/utils/mock-prisma-entity.ts:123 | the first record's entry is what adding its property to a sum of 0 gives |
| Aggregation.Add | src/shared/utils/mock-prisma-entity.ts:121 | not-a-number stays not-a-number; a sum plus a number is the sum of the two, and a sum plus anything else is not a number |
| Aggregation.Accumulated | src/shared/utils/mock-prisma-entity.ts:118-127 | absent exactly on an empty table; when it is a sum, it is the arithmetic sum of the field |
| Aggregation.AccumulatedIsSum | src/shared/utils/mock-prisma-entity.ts:118-127 | on a non-empty table where every record holds a number in the field, the reduce yields the arithmetic sum; otherwise it yields not-a-number |
| Aggregation.NumSumConstant | src/shared/utils/mock-prisma-entity.ts:118-127 | `n` records that all hold the number `c` sum to `n * c` |
| Aggregation.FiveFarmsTotals | test/app.e2e-spec.ts:179-210 | five farms of total area 100 sum to 500; five farms of 70 arable and 30 vegetation area sum to 350 and 150 |
| Aggregation.GroupIndex | src/shared/utils/mock-prisma-entity.ts:141 | the first group whose key is the value, or absent exactly when no group has that key |
| Aggregation.Tally | src/shared/utils/mock-prisma-entity.ts:139-145 | one record's step adds at most one group, removes none and keeps every existing group's key in place |
| Aggregation.Grouped | src/shared/utils/mock-prisma-entity.ts:137-146 | the groups built by visiting the records in table order, one step per record; its properties are stated by Aggregation.GroupedSpec |
| Aggregation.DedupFacts | src/shared/utils/mock-prisma-entity.ts:141-144 | the reference first-seen deduplication has no repeats and keeps exactly the elements of its input |
| Aggregation.OccurrencesInColumn | src/shared/utils/mock-prisma-entity.ts:139 | a value is held by some record exactly when it appears in the column |
| Aggregation.GroupedKeys | src/shared/utils/mock-prisma-entity.ts:137-146 | the group keys are the column's distinct values, in first-seen order |
| Aggregation.GroupedCounts | src/shared/utils/mock-prisma-entity.ts:137-146 | each group's count is the number of records holding its key |
| Aggregation.SumCountsBump | src/shared/utils/mock-prisma-entity.ts:143 | counting one more record in a group raises the total by one |
| Aggregation.SumCountsAppend | src/shared/utils/mock-prisma-entity.ts:144 | opening a new group adds its count to the total |
| Aggregation.GroupedTotal | src/shared/utils/mock-prisma-entity.ts:137-146 | the counts add up to the number of records |
| Aggregation.GroupedSpec | src/shared/utils/mock-prisma-entity.ts:134-149 | everything one-key `groupBy` promises: distinct keys in first-seen order, a value is a key exactly when some record holds it, counts equal to occurrences and at least 1, and a total equal to the table length |
| Aggregation.GroupedSnoc | src/shared/utils/mock-prisma-entity.ts:137-146 | visiting one more record tallies it into the groups of the records before it |
| Aggregation.GroupedStepNew | src/shared/utils/mock-prisma-entity.ts:144 | a record whose value no group holds opens a group of count 1 at the end |
| Aggregation.GroupedStepHit | src/shared/utils/mock-prisma-entity.ts:141-143 | a record whose value a group holds is counted in the first such group |
| Aggregation.FiveRowGroups | src/shared/utils/mock-prisma-entity.ts:137-146 | a column x, y, y, y, z of distinct values gives the groups x 1, y 3, z 1, in that order |
| Aggregation.FiveRowGroupsFour | src/shared/utils/mock-prisma-entity.ts:137-146 | the first four rows of the column x, y, y, y, z give the groups x 1, y 3 |
| Aggregation.FourRowGroups | src/shared/utils/mock-prisma-entity.ts:137-146 | a column x, y, z, x of distinct values gives the groups x 2, y 1, z 1, in that order |
| Aggregation.StatesExample | test/app.e2e-spec.ts:212-241 | farms in SP, MG, MG, MG, RJ group as SP 1, MG 3, RJ 1 |
| Aggregation.CropNamesExample | test/app.e2e-spec.ts:243-271 | crops named Milho, Soja, Arroz, Milho group as Milho 2, Soja 1, Arroz 1 |
| Entities.ProducerOf | src/modules/producers/entities/producer.entity.ts:3-18 | a record reads as a producer exactly when it has every producer field with a value of the right kind, and then it agrees with that producer on each field |
| Entities.ProducerRoundTrip | src/modules/producers/entities/producer.entity.ts:3-18 | a producer written as a record reads back as itself |
| Entities.FarmOf | src/modules/farms/entities/farm.entity.ts:3-33 | a record reads as a farm exactly when it has every farm field with a value of the right kind, and then it agrees with that farm on each field |
| Entities.FarmRoundTrip | src/modules/farms/entities/farm.entity.ts:3-33 | a farm written as a record reads back as itself |
| Entities.HarvestOf | src/modules/harvests/entities/harvest.entity.ts:3-18 | a record reads as a harvest exactly when it has every harvest field with a value of the right kind, and then it agrees with that harvest on each field |
| Entities.HarvestRoundTrip | src/modules/harvests/entities/harvest.entity.ts:3-18 | a harvest written as a record reads back as itself |
| Entities.CropOf | src/modules/crops/entities/crop.entity.ts:3-18 | a record reads as a crop exactly when it has every crop field with a value of the right kind, and then it agrees with that crop on each field |
| Entities.CropRoundTrip | src/modules/crops/entities/crop.entity.ts:3-18 | a crop written as a record reads back as itself |
| ProducerDto.Normalize | src/modules/producers/dto/create-producer.dto.ts:14 | deleting the non-digits leaves only the characters 0-9 and never lengthens the document |
| ProducerDto.NormalizeAppend | src/modules/producers/dto/create-producer.dto.ts:14 | normalisation works piece by piece, so the digits keep their order |
| ProducerDto.NormalizeKeepsDigits | src/modules/producers/dto/create-producer.dto.ts:14 | every digit is kept as often as it occurs, and no other character is kept |
| ProducerDto.NormalizeDigitsOnly | src/modules/producers/dto/create-producer.dto.ts:14 | a digits-only document is left unchanged |
| ProducerDto.NormalizeIdempotent | src/modules/producers/dto/create-producer.dto.ts:14 | normalising twice gives the same as normalising once |
| ProducerDto.NormalizeNoDigits | src/modules/producers/dto/create-producer.dto.ts:14 | a document without digits normalises to the empty string |
| ProducerDto.IsCpfOrCnpj | src/modules/producers/dto/create-producer.dto.ts:15-17 | the document pattern: exactly 11 or exactly 14 characters, all of them digits |
| ProducerDto.Validate | src/modules/producers/dto/create-producer.dto.ts:6-17 | accepted exactly when the name is non-empty and the normalised document has 11 or 14 digits; the accepted input carries the normalised document; a rejection is InvalidInput |
| ProducerDto.DigitsOnlyAccepted | src/modules/producers/dto/create-producer.dto.ts:14-17 | a non-empty name with a document of 11 or 14 digits is accepted with the document as sent |
| ProducerDto.SeparatorsIgnored | src/modules/producers/dto/create-producer.dto.ts:14-17 | inserting non-digits anywhere in the document does not change the outcome, so acceptance depends only on the digits |
| ProducerDto.ElevenDigitsAccepted | test/app.e2e-spec.ts:27-43 | '12345678910' is accepted and kept as sent |
| ProducerDto.InvalidDocumentRejected | test/app.e2e-spec.ts:71-81 | 'invalid-document' normalises to the empty string and is rejected with the document message |
| FarmDto.IsValid | src/modules/farms/dto/create-farm.dto.ts:5-38 | the field rules: name, city, state and producer id non-empty; the three areas positive |
| FarmDto.Data | src/modules/farms/services/farms.service.ts:23-25 | a create passes the input's seven farm fields, each with its value, and nothing else |
| FarmDto.Patch | src/modules/farms/services/farms.service.ts:57-60 | an update sends exactly the farm fields the input carries, with their values, and no other field |
| HarvestDto.IsValid | src/modules/harvests/dto/create-harvest.dto.ts:5-13 | the field rules: a positive year and a non-empty farm id |
| HarvestDto.Data | src/modules/harvests/services/harvests.service.ts:16-18 | a create passes the input's year and farm id and nothing else |
| HarvestDto.Patch | src/modules/harvests/services/harvests.service.ts:50-53 | an update sends exactly the harvest fields the input carries, with their values, and no other field |
| CropDto.IsValid | src/modules/crops/dto/create-crop.dto.ts:4-10 | the field rules: a non-empty name and a non-empty harvest id |
| CropDto.Data | src/modules/crops/services/crops.service.ts:16-18 | a create passes the input's name and harvest id and nothing else |
| CropDto.Patch | src/modules/crops/services/crops.service.ts:50-53 | an update sends exactly the crop fields the input carries, with their values, and no other field |
| Farms.AreaExceeded | src/modules/farms/services/farms.service.ts:17 | the area rule is broken exactly when the total area is below the arable plus the vegetation area |
| Farms.AcceptedFarmAreas | src/modules/farms/dto/create-farm.dto.ts:20-33 | an input that meets the field rules and the area rule has arable plus vegetation at most the total, and each part positive and strictly below the total |
| Farms.SampleAreas | test/app.e2e-spec.ts:83-108 | 100 / 70 / 30 passes the field rules and the area rule; 50 / 70 / 30 passes the field rules and breaks the area rule |
| Farms.CreatedFarm | src/modules/farms/services/farms.service.ts:23-27 | the stored record reads back as the farm the input describes, with the new id and `now` as both timestamps |
| Farms.ByStateTotals | src/modules/farms/services/farms.service.ts:105-108 | renaming the `groupBy` rows to `{ state, count }` keeps their keys, order and total |
| Farms.FarmsService.constructor | src/modules/farms/services/farms.service.ts:14 | the service holds the store it is given |
| Farms.FarmsService.Create | src/modules/farms/services/farms.service.ts:16-28 | InvalidInput with the area message, and the table unchanged, exactly when total < arable + vegetation; otherwise one farm is appended whose fields equal the input; the referenced producer is not looked up and the other tables are unchanged |
| Farms.FarmsService.FindAll | src/modules/farms/services/farms.service.ts:30-34 | every farm, in table order |
| Farms.FarmsService.FindOne | src/modules/farms/services/farms.service.ts:36-46 | NotFound exactly when no farm has the id; otherwise a stored farm with that id |
| Farms.FarmsService.Update | src/modules/farms/services/farms.service.ts:48-63 | NotFound and the table unchanged when no farm has the id; otherwise that farm alone is patched, with no new area check, and returned |
| Farms.FarmsService.Remove | src/modules/farms/services/farms.service.ts:65-77 | NotFound and the table unchanged when no farm has the id; otherwise exactly that farm is spliced out and no farm has the id afterwards |
| Farms.FarmsService.TotalFarmsCount | src/modules/farms/services/farms.service.ts:79-83 | `{ count }` is the number of farms |
| Farms.FarmsService.TotalFarmsArea | src/modules/farms/services/farms.service.ts:85-93 | `{ totalArea }` is the store's sum over all farms: absent when there are none, the arithmetic sum when every farm holds a number |
| Farms.FarmsService.TotalFarmsAreasByType | src/modules/farms/services/farms.service.ts:111-119 | `{ arableArea, vegetationArea }` are the store's sums of the two fields over all farms, the arithmetic sums when every farm holds numbers |
| Farms.FarmsService.TotalByState | src/modules/farms/services/farms.service.ts:95-109 | one `{ state, count }` per `groupBy` row, same length and order; the states are the distinct states in first-seen order; each count is the number of farms in that state, at least 1; the counts add up to the number of farms |
| Crops.ByNameTotals | src/modules/crops/services/crops.service.ts:80-83 | renaming the `groupBy` rows to `{ crop, count }` keeps their keys, order and total |
| Crops.CreatedCrop | src/modules/crops/services/crops.service.ts:15-21 | the stored record reads back as the crop the input describes; a valid input gives a non-empty name and harvest reference |
| Crops.RenameCrop | src/modules/crops/services/crops.service.ts:50-53 | renaming a crop changes its name and `updatedAt` and keeps its harvest, id and creation time |
| Crops.CropsService.constructor | src/modules/crops/services/crops.service.ts:13 | the service holds the store it is given |
| Crops.CropsService.Create | src/modules/crops/services/crops.service.ts:15-21 | one crop is appended with the input's name and harvest id, the new id and `now`; the harvest is not looked up and the other tables are unchanged |
| Crops.CropsService.FindAll | src/modules/crops/services/crops.service.ts:23-27 | every crop, in table order |
| Crops.CropsService.FindOne | src/modules/crops/services/crops.service.ts:29-39 | NotFound exactly when no crop has the id; otherwise a stored crop with that id |
| Crops.CropsService.Update | src/modules/crops/services/crops.service.ts:41-56 | NotFound and the table unchanged when no crop has the id; otherwise that crop alone is patched and returned |
| Crops.CropsService.Remove | src/modules/crops/services/crops.service.ts:58-70 | NotFound and the table unchanged when no crop has the id; otherwise exactly that crop is spliced out and no crop has the id afterwards |
| Crops.CropsService.TotalByCropName | src/modules/crops/services/crops.service.ts:72-84 | one `{ crop, count }` per `groupBy` row, same length and order; the names are the distinct crop names in first-seen order; each count is the number of crops of that name, at least 1; the counts add up to the number of crops |
| Harvests.CreatedHarvest | src/modules/harvests/services/harvests.service.ts:15-21 | the stored record reads back as the harvest the input describes; a valid input gives a positive year and a farm reference |
| Harvests.ChangeYear | src/modules/harvests/services/harvests.service.ts:50-53 | changing a harvest's year changes the year and `updatedAt` and keeps its farm, id and creation time |
| Harvests.HarvestsService.constructor | src/modules/harvests/services/harvests.service.ts:13 | the service holds the store it is given |
| Harvests.HarvestsService.Create | src/modules/harvests/services/harvests.service.ts:15-21 | one harvest is appended with the input's year and farm id, the new id and `now`; the farm is not looked up and the other tables are unchanged |
| Harvests.HarvestsService.FindAll | src/modules/harvests/services/harvests.service.ts:23-27 | every harvest, in table order |
| Harvests.HarvestsService.FindOne | src/modules/harvests/services/harvests.service.ts:29-39 | NotFound exactly when no harvest has the id; otherwise a stored harvest with that id |
| Harvests.HarvestsService.Update | src/modules/harvests/services/harvests.service.ts:41-56 | NotFound and the table unchanged when no harvest has the id; otherwise that harvest alone is patched and returned |
| Harvests.HarvestsService.Remove | src/modules/harvests/services/harvests.service.ts:58-70 | NotFound and the table unchanged when no harvest has the id; otherwise exactly that harvest is spliced out, the others remain, and the crops are unchanged |
| Producers.Data | src/modules/producers/services/producers.service.ts:16-18 | a create passes the name and the document alone |
| Producers.NamePatch | src/modules/producers/services/producers.service.ts:36-40 | an update sends the name alone, and only when the input gives one |
| Producers.CreatedProducer | src/modules/producers/services/producers.service.ts:14-20 | the stored record reads back as the producer the input describes and has no field besides `id`, `name`, `document` and the stamps |
| Producers.ValidatedProducerStored | src/modules/producers/dto/create-producer.dto.ts:14-17 | a producer stored from an accepted input has its non-empty name and the normalised document of 11 or 14 digits |
| Producers.DocumentKept | test/app.e2e-spec.ts:45-60 | an update keeps the document, the id and the creation time even when the input carries a new document; given a name, the record reads back as the producer with that name and `updatedAt := now` |
| Producers.ProducersService.constructor | src/modules/producers/services/producers.service.ts:12 | the service holds the store it is given |
| Producers.ProducersService.Create | src/modules/producers/services/producers.service.ts:14-20 | one producer is appended holding exactly the input's name and document plus the id and stamps; no other producer is consulted |
| Producers.ProducersService.FindAll | src/modules/producers/services/producers.service.ts:22-26 | every producer, in table order |
| Producers.ProducersService.FindOne | src/modules/producers/services/producers.service.ts:28-34 | absent exactly when no producer has the id (no NotFound); otherwise a stored producer with that id |
| Producers.ProducersService.Update | src/modules/producers/services/producers.service.ts:36-43 | the store's 'Record not found' error, and the table unchanged, when no producer has the id; otherwise only that producer's name and `updatedAt` may change |
| Producers.ProducersService.Remove | src/modules/producers/services/producers.service.ts:45-49 | the store's 'Record not found' error, and the table unchanged, when no producer has the id; otherwise that producer is spliced out and a lookup of the id finds nothing; farms, harvests and crops are unchanged, so there is no cascade |

## Left out

- Controllers, modules, `main.ts`, the logging interceptor and the `console.log` of the grouped rows in `totalByState` (src/modules/farms/services/farms.service.ts:103): they forward calls, add HTTP wiring or write to the console, so they hold nothing to prove.
- The `_count` branch of `aggregate` and the 'Unsupported aggregation type' error: no service uses them.
- `groupBy` with more than one key: every caller passes one key.
- Patch keys set explicitly to `undefined`: the model has no such value, so an absent field is simply not sent. The store's update copies the patch's values over the record and cannot erase a key.
- Producers.NamePatch: a producer update without a name sends no `name` key, where the source sends `name: undefined` and so erases the stored name (src/modules/producers/services/producers.service.ts:36-40). The model keeps the old name in that case.
- Producers.ProducersService.Update: for an input without a name, the model keeps the stored name, while the source erases it; Producers.DocumentKept claims the read-back producer only when a name is given.
- `where` in `aggregate`: it is accepted and, as in the source, ignored.
- JavaScript numbers: areas and years are integers, with no floating-point rounding. A sum whose values are not all numbers is lumped together as not-a-number. The source tells these apart: NaN from adding `undefined`, string concatenation from adding a string, and `undefined` or the string itself when the first record's value is not a number (`acc[key] = record[key]` at src/shared/utils/mock-prisma-entity.ts:123).
- Aggregation.Start: gives not-a-number for a first value that is not a number, where the source keeps that value as it is (`undefined` or a string).
- Dates: a date is an integer instant compared by value. The source compares `Date` objects by reference in filters and groups.
- The two `new Date()` calls in `create` are taken as one instant, `now`.
- `randomUUID()`: replaced by a parameter that must not be in use. A collision of random identifiers is not modelled.
- Object identity: a returned record is a value, so later in-place changes to the stored object are not seen through earlier results.
- Asynchrony: every `async` call is modelled as an ordinary sequential call.
- Producer uniqueness (AlreadyExists) and producer NotFound: `producers.service.ts` implements neither check, so the model has neither. The producer service's unit tests expect both.
- PrismaEntity.MockPrismaEntity.Update: promises unique identifiers afterwards only when the patch does not write `id`. The model's update inputs carry no `id`.
- FarmDto.Patch: request-body keys outside the farm fields are not modelled. The validation pipe transforms without a whitelist, so extra keys, `id` included, would reach `Object.assign` in the store.
- HarvestDto.Patch: request-body keys outside the harvest fields are not modelled, for the same reason.
- CropDto.Patch: request-body keys outside the crop fields are not modelled, for the same reason.
- PrismaEntity.MockPrismaEntity.Create: data keys outside a create input's declared fields are not modelled. In the source they would reach the spread at src/shared/utils/mock-prisma-entity.ts:17, where the stamps still override them. The producer service builds its data from named fields, so it is not affected.
- The update DTO files are not part of this model. Each update input is modelled as the create input with every field optional.
- class-validator and class-transformer: only the rules their decorators state are modelled (`IsValid`, `Validate`), not the libraries.
- ProducerDto.Validate: returns one InvalidInput carrying the first failed rule's message. The validation pipe rejects with one 400 response that lists every failed rule. For example, `invalid-document` fails both `IsNotEmpty` and the pattern once normalised, and an empty name with a bad document fails on both fields.
- The real Prisma client is not part of this model. Its place is taken by the in-memory table.

## Where the code and its documentation disagree

The model follows the code:

- A producer with a document already in use is stored anyway. No AlreadyExists error is raised.
- The sum over an empty table is absent, not 0.
- After a producer is deleted, `findOne` returns no producer. It does not fail with NotFound, although the end-to-end test at test/app.e2e-spec.ts:66-68 expects a 404.
