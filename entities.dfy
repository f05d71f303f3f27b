/** The four entity shapes the services hand out, and how a stored record is
    read as one of them. Turning a store record into an entity instance keeps
    its fields as they are; `ProducerOf` and its siblings are that reading,
    defined exactly when the record carries every field of the shape with a
    value of the right kind. */
module Entities {
  import opened Records

  datatype Producer = Producer(id: string, name: string, document: string, createdAt: int, updatedAt: int)

  datatype Farm = Farm(
    id: string, name: string, city: string, state: string,
    totalArea: int, arableArea: int, vegetationArea: int,
    producerId: string, createdAt: int, updatedAt: int)

  datatype Harvest = Harvest(id: string, year: int, farmId: string, createdAt: int, updatedAt: int)

  datatype Crop = Crop(id: string, name: string, harvestId: string, createdAt: int, updatedAt: int)

  predicate IsStr(r: Record, k: Field) { k in r && r[k].Str? }
  predicate IsNum(r: Record, k: Field) { k in r && r[k].Num? }
  predicate IsTime(r: Record, k: Field) { k in r && r[k].Time? }

  predicate Stamps(r: Record) { IsStr(r, Id) && IsTime(r, CreatedAt) && IsTime(r, UpdatedAt) }

  // ---------------------------------------------------------------- producer

  function ProducerRecord(p: Producer): Record {
    map[Id := Str(p.id), Name := Str(p.name), Document := Str(p.document),
        CreatedAt := Time(p.createdAt), UpdatedAt := Time(p.updatedAt)]
  }

  function ProducerOf(r: Record): (p: Option<Producer>)
    ensures p.Some? <==> Stamps(r) && IsStr(r, Name) && IsStr(r, Document)
    ensures p.Some? ==> forall k :: k in ProducerRecord(p.value) ==> k in r && r[k] == ProducerRecord(p.value)[k]
  {
    if Stamps(r) && IsStr(r, Name) && IsStr(r, Document) then
      Some(Producer(r[Id].s, r[Name].s, r[Document].s, r[CreatedAt].t, r[UpdatedAt].t))
    else None
  }

  lemma ProducerRoundTrip(p: Producer)
    ensures ProducerOf(ProducerRecord(p)) == Some(p)
  {
  }

  // ---------------------------------------------------------------- farm

  function FarmRecord(f: Farm): Record {
    map[Id := Str(f.id), Name := Str(f.name), City := Str(f.city), State := Str(f.state),
        TotalArea := Num(f.totalArea), ArableArea := Num(f.arableArea),
        VegetationArea := Num(f.vegetationArea), ProducerId := Str(f.producerId),
        CreatedAt := Time(f.createdAt), UpdatedAt := Time(f.updatedAt)]
  }

  predicate IsFarmRecord(r: Record) {
    && Stamps(r) && IsStr(r, Name) && IsStr(r, City) && IsStr(r, State)
    && IsNum(r, TotalArea) && IsNum(r, ArableArea) && IsNum(r, VegetationArea)
    && IsStr(r, ProducerId)
  }

  function FarmOf(r: Record): (f: Option<Farm>)
    ensures f.Some? <==> IsFarmRecord(r)
    ensures f.Some? ==> forall k :: k in FarmRecord(f.value) ==> k in r && r[k] == FarmRecord(f.value)[k]
  {
    if IsFarmRecord(r) then
      Some(Farm(r[Id].s, r[Name].s, r[City].s, r[State].s,
                r[TotalArea].n, r[ArableArea].n, r[VegetationArea].n,
                r[ProducerId].s, r[CreatedAt].t, r[UpdatedAt].t))
    else None
  }

  lemma FarmRoundTrip(f: Farm)
    ensures FarmOf(FarmRecord(f)) == Some(f)
  {
  }

  // ---------------------------------------------------------------- harvest

  function HarvestRecord(h: Harvest): Record {
    map[Id := Str(h.id), Year := Num(h.year), FarmId := Str(h.farmId),
        CreatedAt := Time(h.createdAt), UpdatedAt := Time(h.updatedAt)]
  }

  function HarvestOf(r: Record): (h: Option<Harvest>)
    ensures h.Some? <==> Stamps(r) && IsNum(r, Year) && IsStr(r, FarmId)
    ensures h.Some? ==> forall k :: k in HarvestRecord(h.value) ==> k in r && r[k] == HarvestRecord(h.value)[k]
  {
    if Stamps(r) && IsNum(r, Year) && IsStr(r, FarmId) then
      Some(Harvest(r[Id].s, r[Year].n, r[FarmId].s, r[CreatedAt].t, r[UpdatedAt].t))
    else None
  }

  lemma HarvestRoundTrip(h: Harvest)
    ensures HarvestOf(HarvestRecord(h)) == Some(h)
  {
  }

  // ---------------------------------------------------------------- crop

  function CropRecord(c: Crop): Record {
    map[Id := Str(c.id), Name := Str(c.name), HarvestId := Str(c.harvestId),
        CreatedAt := Time(c.createdAt), UpdatedAt := Time(c.updatedAt)]
  }

  function CropOf(r: Record): (c: Option<Crop>)
    ensures c.Some? <==> Stamps(r) && IsStr(r, Name) && IsStr(r, HarvestId)
    ensures c.Some? ==> forall k :: k in CropRecord(c.value) ==> k in r && r[k] == CropRecord(c.value)[k]
  {
    if Stamps(r) && IsStr(r, Name) && IsStr(r, HarvestId) then
      Some(Crop(r[Id].s, r[Name].s, r[HarvestId].s, r[CreatedAt].t, r[UpdatedAt].t))
    else None
  }

  lemma CropRoundTrip(c: Crop)
    ensures CropOf(CropRecord(c)) == Some(c)
  {
  }
}
