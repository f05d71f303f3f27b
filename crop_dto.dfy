/** Input rules for a crop: a non-empty name and a non-empty harvest reference.
    The partial input of an update carries any subset of the same fields. */
module CropDto {
  import opened Records

  datatype CreateCropDto = CreateCropDto(name: string, harvestId: string)

  datatype UpdateCropDto = UpdateCropDto(name: Option<string>, harvestId: Option<string>)

  /** The per-field constraints the input must meet before any service runs. */
  predicate IsValid(d: CreateCropDto) {
    d.name != "" && d.harvestId != ""
  }

  /** The record data a create passes to the store: the input's fields. */
  function Data(d: CreateCropDto): Record {
    map[Name := Str(d.name), HarvestId := Str(d.harvestId)]
  }

  /** The fields a crop's input carries. */
  const Fields: set<Field> := {Name, HarvestId}

  /** The patch an update passes to the store: exactly the fields the input
      carries, with their values. */
  function Patch(u: UpdateCropDto): (p: Record)
    ensures p.Keys <= Fields
    ensures Name in p <==> u.name.Some?
    ensures u.name.Some? ==> p[Name] == Str(u.name.value)
    ensures HarvestId in p <==> u.harvestId.Some?
    ensures u.harvestId.Some? ==> p[HarvestId] == Str(u.harvestId.value)
  {
    PatchOf(map[Name := OptStr(u.name), HarvestId := OptStr(u.harvestId)])
  }
}
