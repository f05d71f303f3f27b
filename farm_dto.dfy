/** Input rules for a farm: the four text fields must be non-empty and the
    three areas strictly positive. The partial input of an update carries any
    subset of the same fields. */
module FarmDto {
  import opened Records

  datatype CreateFarmDto = CreateFarmDto(
    name: string, city: string, state: string,
    totalArea: int, arableArea: int, vegetationArea: int,
    producerId: string)

  datatype UpdateFarmDto = UpdateFarmDto(
    name: Option<string>, city: Option<string>, state: Option<string>,
    totalArea: Option<int>, arableArea: Option<int>, vegetationArea: Option<int>,
    producerId: Option<string>)

  /** The per-field constraints the input must meet before any service runs. */
  predicate IsValid(d: CreateFarmDto) {
    && d.name != "" && d.city != "" && d.state != "" && d.producerId != ""
    && d.totalArea > 0 && d.arableArea > 0 && d.vegetationArea > 0
  }

  /** The record data a create passes to the store: the input's fields. */
  function Data(d: CreateFarmDto): Record {
    map[Name := Str(d.name), City := Str(d.city), State := Str(d.state),
        TotalArea := Num(d.totalArea), ArableArea := Num(d.arableArea),
        VegetationArea := Num(d.vegetationArea), ProducerId := Str(d.producerId)]
  }

  /** The fields a farm's input carries. */
  const Fields: set<Field> := {Name, City, State, TotalArea, ArableArea, VegetationArea, ProducerId}

  /** The patch an update passes to the store: exactly the fields the input
      carries, with their values. */
  function Patch(u: UpdateFarmDto): (p: Record)
    ensures p.Keys <= Fields
    ensures Name in p <==> u.name.Some?
    ensures u.name.Some? ==> p[Name] == Str(u.name.value)
    ensures City in p <==> u.city.Some?
    ensures u.city.Some? ==> p[City] == Str(u.city.value)
    ensures State in p <==> u.state.Some?
    ensures u.state.Some? ==> p[State] == Str(u.state.value)
    ensures TotalArea in p <==> u.totalArea.Some?
    ensures u.totalArea.Some? ==> p[TotalArea] == Num(u.totalArea.value)
    ensures ArableArea in p <==> u.arableArea.Some?
    ensures u.arableArea.Some? ==> p[ArableArea] == Num(u.arableArea.value)
    ensures VegetationArea in p <==> u.vegetationArea.Some?
    ensures u.vegetationArea.Some? ==> p[VegetationArea] == Num(u.vegetationArea.value)
    ensures ProducerId in p <==> u.producerId.Some?
    ensures u.producerId.Some? ==> p[ProducerId] == Str(u.producerId.value)
  {
    PatchOf(map[Name := OptStr(u.name), City := OptStr(u.city), State := OptStr(u.state),
                TotalArea := OptNum(u.totalArea), ArableArea := OptNum(u.arableArea),
                VegetationArea := OptNum(u.vegetationArea), ProducerId := OptStr(u.producerId)])
  }
}
