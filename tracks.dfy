/** Track records, the request that creates one, the partial update that patches one, and
    the projections returned to clients. */
module Tracks {
  import opened Wrappers
  import opened Guids

  /** C#'s `int`: a 32-bit signed integer. */
  type Int32 = x: int | -0x8000_0000 <= x < 0x8000_0000

  /** C#'s `double`, carried by its bit pattern: the controllers copy lengths and never
      compute with them. */
  datatype Double = Double(bits: bv64)

  /** A stored track (`TrackModel`); `Id` is the primary key. */
  datatype TrackModel = TrackModel(
    id: Guid,
    name: string,
    location: string,
    country: string,
    layoutVersion: string,
    turns: Option<Int32>,
    lengthKm: Option<Double>)

  /** The layout version a create request has when the client does not name one. */
  const DefaultLayoutVersion: string := "GP"

  /** The body of a create or full-update request (`CreateTrackRequest`). */
  datatype CreateTrackRequest = CreateTrackRequest(
    name: string,
    location: string,
    country: string,
    layoutVersion: string,
    turns: Option<Int32>,
    lengthKm: Option<Double>)
  {
    /** `ToModel`: the new track under the freshly generated id `newId`, with every other
        field copied from the request, absent optional fields included. */
    function ToModel(newId: Guid): (r: TrackModel)
      ensures r.id == newId
      ensures r.name == name && r.location == location && r.country == country
      ensures r.layoutVersion == layoutVersion
      ensures r.turns == turns && r.lengthKm == lengthKm
    {
      TrackModel(newId, name, location, country, layoutVersion, turns, lengthKm)
    }
  }

  /** A create request built by an object initialiser that may leave out LayoutVersion,
      Turns and LengthKm: a missing LayoutVersion takes its initial value "GP". */
  function NewCreateTrackRequest(name: string, location: string, country: string,
                                 layoutVersion: Option<string> := None,
                                 turns: Option<Int32> := None, lengthKm: Option<Double> := None)
    : (r: CreateTrackRequest)
    ensures r.name == name && r.location == location && r.country == country
    ensures r.layoutVersion == layoutVersion.GetOr(DefaultLayoutVersion)
    ensures layoutVersion.None? ==> r.layoutVersion == "GP"
    ensures r.turns == turns && r.lengthKm == lengthKm
  {
    CreateTrackRequest(name, location, country, layoutVersion.GetOr(DefaultLayoutVersion), turns, lengthKm)
  }

  /** The body of a partial update (`PatchTrackDto`): every field may be null. */
  datatype PatchTrackDto = PatchTrackDto(
    name: Option<string>,
    location: Option<string>,
    country: Option<string>,
    layoutVersion: Option<string>,
    turns: Option<Int32>,
    lengthKm: Option<Double>)

  /** The summary returned by the list endpoint (`TrackDto`). */
  datatype TrackDto = TrackDto(id: Guid, name: string, location: string, country: string, layoutVersion: string)

  /** `new TrackDto(model)`. */
  function ToTrackDto(t: TrackModel): (r: TrackDto)
    ensures r.id == t.id && r.name == t.name && r.location == t.location
    ensures r.country == t.country && r.layoutVersion == t.layoutVersion
  {
    TrackDto(t.id, t.name, t.location, t.country, t.layoutVersion)
  }

  /** The full record returned by the single-track endpoints (`TrackDetailsDto`). */
  datatype TrackDetailsDto = TrackDetailsDto(
    id: Guid,
    name: string,
    location: string,
    country: string,
    layoutVersion: string,
    turns: Option<Int32>,
    lengthKm: Option<Double>)

  /** `new TrackDetailsDto(model)`. */
  function ToDetails(t: TrackModel): (r: TrackDetailsDto)
    ensures r.id == t.id && r.name == t.name && r.location == t.location && r.country == t.country
    ensures r.layoutVersion == t.layoutVersion && r.turns == t.turns && r.lengthKm == t.lengthKm
  {
    TrackDetailsDto(t.id, t.name, t.location, t.country, t.layoutVersion, t.turns, t.lengthKm)
  }

  /** The details of a track give the track back: the projection loses nothing. */
  lemma DetailsInjective(a: TrackModel, b: TrackModel)
    ensures ToDetails(a) == ToDetails(b) <==> a == b
  {
  }

  /** The details of a newly created track echo the request, under the new id. */
  lemma CreatedDetailsEchoRequest(req: CreateTrackRequest, newId: Guid)
    ensures var d := ToDetails(req.ToModel(newId));
      d.id == newId && CreateTrackRequest(d.name, d.location, d.country, d.layoutVersion, d.turns, d.lengthKm) == req
  {
  }
}
