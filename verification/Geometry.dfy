/** What the engine asks of code it does not contain (glob matching, JSON
    parsing, GeoJSON geometry, distances) and the envelope of a geometry. */
module Geometry {
  import opened Types
  import Geohash

  datatype Env = Env(
    glob: (string, string) -> bool,
    parseJson: string -> Option<Json>,
    geometryOk: Json -> bool,
    jsonEnvelope: Json -> Option<BoundingBox>,
    distance: (real, real, real, real) -> real)

  datatype GeoError = NoEnvelope

  /** `GeoType::envelope`: strings have none, a bad hash or document is an error. */
  function Envelope(env: Env, geo: Geo): Result<Option<BoundingBox>, GeoError> {
    match geo
    case Point(lat, lon, _) => Ok(Some(BoundingBox(lat, lon, lat, lon)))
    case Bounds(box) => Ok(Some(box))
    case Hash(hash) =>
      (match Geohash.Decode(hash)
       case None => Err(NoEnvelope)
       case Some(c) => Ok(Some(BoundingBox(c.latMin, c.lonMin, c.latMax, c.lonMax))))
    case GeoJson(doc) =>
      (match env.jsonEnvelope(doc)
       case None => Err(NoEnvelope)
       case Some(box) => Ok(Some(box)))
    case Str(_) => Ok(None)
  }

  predicate Indexable(env: Env, geo: Geo) {
    Envelope(env, geo).Ok?
  }

  function CenterLat(box: BoundingBox): real { (box.minLat + box.maxLat) / 2.0 }

  function CenterLon(box: BoundingBox): real { (box.minLon + box.maxLon) / 2.0 }

  /** The centre is as far from one side as from the other. */
  lemma CenterIsMidway(box: BoundingBox)
    ensures CenterLat(box) - box.minLat == box.maxLat - CenterLat(box)
    ensures CenterLon(box) - box.minLon == box.maxLon - CenterLon(box)
  {
  }

  /** The envelope of a point is the point, that of a hash the cell it names. */
  lemma EnvelopeMeans(env: Env, geo: Geo)
    ensures geo.Point? ==>
      Envelope(env, geo).Ok? && Envelope(env, geo).value.Some? &&
      var box := Envelope(env, geo).value.value;
      box.minLat == box.maxLat == CenterLat(box) == geo.lat && box.minLon == box.maxLon == CenterLon(box) == geo.lon
    ensures geo.Bounds? ==> Envelope(env, geo) == Ok(Some(geo.box))
    ensures geo.GeoJson? && env.jsonEnvelope(geo.doc).Some? ==> Envelope(env, geo) == Ok(env.jsonEnvelope(geo.doc))
    ensures geo.Hash? && Geohash.Decode(geo.hash).Some? ==>
      Envelope(env, geo).Ok? && Envelope(env, geo).value.Some? &&
      var box, cell := Envelope(env, geo).value.value, Geohash.Decode(geo.hash).value;
      forall lat, lon :: Geohash.Contains(cell, lat, lon) <==>
        box.minLat <= lat <= box.maxLat && box.minLon <= lon <= box.maxLon
    ensures Envelope(env, geo).Err? <==>
      (geo.Hash? && Geohash.Decode(geo.hash).None?) || (geo.GeoJson? && env.jsonEnvelope(geo.doc).None?)
    ensures Envelope(env, geo) == Ok(None) <==> geo.Str?
  {
    hide Geohash.Decode;
  }
}
