/** Input rules for a harvest: a positive year and a non-empty farm reference.
    The partial input of an update carries any subset of the same fields. */
module HarvestDto {
  import opened Records

  datatype CreateHarvestDto = CreateHarvestDto(year: int, farmId: string)

  datatype UpdateHarvestDto = UpdateHarvestDto(year: Option<int>, farmId: Option<string>)

  /** The per-field constraints the input must meet before any service runs. */
  predicate IsValid(d: CreateHarvestDto) {
    d.year > 0 && d.farmId != ""
  }

  /** The record data a create passes to the store: the input's fields. */
  function Data(d: CreateHarvestDto): Record {
    map[Year := Num(d.year), FarmId := Str(d.farmId)]
  }

  /** The fields a harvest's input carries. */
  const Fields: set<Field> := {Year, FarmId}

  /** The patch an update passes to the store: exactly the fields the input
      carries, with their values. */
  function Patch(u: UpdateHarvestDto): (p: Record)
    ensures p.Keys <= Fields
    ensures Year in p <==> u.year.Some?
    ensures u.year.Some? ==> p[Year] == Num(u.year.value)
    ensures FarmId in p <==> u.farmId.Some?
    ensures u.farmId.Some? ==> p[FarmId] == Str(u.farmId.value)
  {
    PatchOf(map[Year := OptNum(u.year), FarmId := OptStr(u.farmId)])
  }
}
