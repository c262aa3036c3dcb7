/** Values shared by every part of the model: geometries, fields, stored
    objects, search options and geofence definitions. */
module Types {

  datatype Option<+T> = None | Some(value: T)

  datatype Result<+T, +E> = Ok(value: T) | Err(error: E)

  /** A JSON document; the member order of objects is not observable. */
  datatype Json =
    | JNull
    | JBool(b: bool)
    | JNumber(n: real)
    | JString(s: string)
    | JArray(items: seq<Json>)
    | JObject(members: map<string, Json>)

  datatype BoundingBox = BoundingBox(minLat: real, minLon: real, maxLat: real, maxLon: real)

  datatype Geo =
    | Point(lat: real, lon: real, z: Option<real>)
    | Bounds(box: BoundingBox)
    | Hash(hash: string)
    | GeoJson(doc: Json)
    | Str(text: string)

  datatype FieldValue = Number(number: real) | Text(text: string) | JsonText(raw: string)

  type FieldMap = map<string, FieldValue>

  datatype FieldEntry = FieldEntry(name: string, value: FieldValue)

  /** A stored object; deadlines are absolute milliseconds. */
  datatype Object = Object(id: string, geo: Geo, fields: FieldMap, expiresAt: Option<nat>)

  /** The objects of one collection by id. */
  type Objects = map<string, Object>

  function Lookup<K, V>(m: map<K, V>, k: K): (r: Option<V>)
    ensures r.Some? <==> k in m
  {
    if k in m then Some(m[k]) else None
  }

  /** `max(1)`. */
  function AtLeastOne(n: nat): (r: nat)
    ensures r >= 1 && r >= n && (r > 1 ==> r <= n)
  {
    if n == 0 then 1 else n
  }

  function Min(a: nat, b: nat): (r: nat)
    ensures r <= a && r <= b && (r == a || r == b)
  {
    if a < b then a else b
  }

  // Search options, as far as filters and paging read them.

  datatype SortOrder = Asc | Desc

  datatype Comparison = Range(min: real, max: real) | EqualsText(expected: string) | Regex(pattern: string)

  datatype WhereFilter = WhereFilter(field: string, comparison: Comparison)

  datatype WhereIn = WhereIn(field: string, values: seq<string>)

  datatype SearchOptions = SearchOptions(
    cursor: nat,
    limit: nat,
    matchPattern: Option<string>,
    sort: SortOrder,
    whereFilters: seq<WhereFilter>,
    whereIn: seq<WhereIn>,
    whereExpr: seq<string>)

  // Geofence definitions.

  datatype MutationCommand = SetCmd | DelCmd | DropCmd | FsetCmd

  datatype DetectType = Inside | Outside | Enter | Exit | Cross | Roaming

  datatype Area =
    | Circle(lat: real, lon: real, meters: real)
    | BoxArea(box: BoundingBox)
    | HashArea(hash: string)
    | GeoJsonArea(doc: Json)
    | Reference(collection: string, id: string)

  datatype GeofenceQuery =
    | Nearby(lat: real, lon: real, meters: real, options: SearchOptions)
    | Within(area: Area, options: SearchOptions)
    | Intersects(area: Area, options: SearchOptions)
    | Roam(targetCollection: string, targetPattern: string, meters: real, options: SearchOptions, nodwell: bool)

  datatype GeofenceDef = GeofenceDef(
    collection: string,
    query: GeofenceQuery,
    detect: seq<DetectType>,
    commands: seq<MutationCommand>)

  datatype Hook = Hook(endpoint: string, def: GeofenceDef)
}
