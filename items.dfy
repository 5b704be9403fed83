/** The decisions the `/api/items` handlers take before they touch `devices`: field
    presence, then the name-to-id lookups, each failure answered 400. */
module Items {
  import opened Values
  import opened Tables

  datatype Result<+T> = Ok(value: T) | Err(body: Body)

  /** The resolved contents of a device to insert. */
  datatype NewDevice = NewDevice(name: string, typeId: int, locationId: int, statusId: int)

  predicate AllFieldsPresent(name: Option<string>, location: Option<string>, typ: Option<string>, status: Option<string>) {
    Present(name) && Present(location) && Present(typ) && Present(status)
  }

  /** POST /api/items before the insert: a missing field is refused before any lookup;
      then type, location and status are resolved in that order and the first one not
      found is reported; the device is planned only when all three resolve, with the ids of
      the first rows carrying those names. */
  function PlanNewDevice(types: seq<NamedRow>, locations: seq<NamedRow>, statuses: seq<NamedRow>,
                         name: Option<string>, location: Option<string>, typ: Option<string>,
                         status: Option<string>): (r: Result<NewDevice>)
    ensures r == Err(Message(AllFieldsRequiredText)) <==> !AllFieldsPresent(name, location, typ, status)
    ensures AllFieldsPresent(name, location, typ, status) ==>
              (r == Err(UnknownType(typ.value)) <==> SelectIdByName(types, typ.value).None?)
    ensures AllFieldsPresent(name, location, typ, status) && SelectIdByName(types, typ.value).Some? ==>
              (r == Err(UnknownLocation(location.value)) <==> SelectIdByName(locations, location.value).None?)
    ensures AllFieldsPresent(name, location, typ, status) && SelectIdByName(types, typ.value).Some?
            && SelectIdByName(locations, location.value).Some? ==>
              (r == Err(UnknownStatus(status.value)) <==> SelectIdByName(statuses, status.value).None?)
    ensures r.Ok? ==> AllFieldsPresent(name, location, typ, status) && r.value.name == name.value
                      && SelectIdByName(types, typ.value) == Some(r.value.typeId)
                      && SelectIdByName(locations, location.value) == Some(r.value.locationId)
                      && SelectIdByName(statuses, status.value) == Some(r.value.statusId)
    ensures AllFieldsPresent(name, location, typ, status) && SelectIdByName(types, typ.value).Some?
            && SelectIdByName(locations, location.value).Some? && SelectIdByName(statuses, status.value).Some?
            ==> r.Ok?
  {
    if !AllFieldsPresent(name, location, typ, status) then Err(Message(AllFieldsRequiredText))
    else match SelectIdByName(types, typ.value)
      case None => Err(UnknownType(typ.value))
      case Some(typeId) =>
        match SelectIdByName(locations, location.value)
        case None => Err(UnknownLocation(location.value))
        case Some(locationId) =>
          match SelectIdByName(statuses, status.value)
          case None => Err(UnknownStatus(status.value))
          case Some(statusId) => Ok(NewDevice(name.value, typeId, locationId, statusId))
  }

  /** A device is planned only when every name it refers to occurs in its lookup table; a
      name absent from its table always means a refusal. */
  lemma UnresolvedNameRefused(types: seq<NamedRow>, locations: seq<NamedRow>, statuses: seq<NamedRow>,
                              name: Option<string>, location: Option<string>, typ: Option<string>,
                              status: Option<string>)
    requires AllFieldsPresent(name, location, typ, status)
    requires (forall i :: 0 <= i < |types| ==> types[i].name != typ.value)
          || (forall i :: 0 <= i < |locations| ==> locations[i].name != location.value)
          || (forall i :: 0 <= i < |statuses| ==> statuses[i].name != status.value)
    ensures PlanNewDevice(types, locations, statuses, name, location, typ, status).Err?
  {
  }

  /** PUT /api/items/:id before the update: name and location must be present, and the
      location must resolve; the result is the id of the first location with that name. */
  function PlanUpdate(locations: seq<NamedRow>, name: Option<string>, location: Option<string>): (r: Result<int>)
    ensures r == Err(Message(UpdateFieldsRequiredText)) <==> !(Present(name) && Present(location))
    ensures Present(name) && Present(location) ==>
              (r.Err? <==> SelectIdByName(locations, location.value).None?)
              && (r.Err? ==> r == Err(UnknownLocation(location.value)))
              && (r.Ok? ==> SelectIdByName(locations, location.value) == Some(r.value))
  {
    if !(Present(name) && Present(location)) then Err(Message(UpdateFieldsRequiredText))
    else match SelectIdByName(locations, location.value)
      case None => Err(UnknownLocation(location.value))
      case Some(locationId) => Ok(locationId)
  }
}
