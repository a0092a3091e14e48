/** The track endpoints (`TrackController`): list, read, create, replace and patch rows of
    the `Tracks` table, under a uniqueness check on Name, Location and Country. */
module TrackControllers {
  import opened Wrappers
  import opened Guids
  import opened Text
  import opened Seqs
  import opened Tracks
  import opened ApiResponses

  /** The `IActionResult`s the actions return. `Unhandled` is an exception that escapes the
      action (the framework turns it into a server error). */
  datatype ActionResult<T> =
    | OkObject(value: ApiResponse<T>)
    | CreatedAtAction(actionName: string, routeId: Guid, value: ApiResponse<T>)
    | NotFoundResult
    | ConflictObject(value: ApiResponse<T>)
    | BadRequestObject(value: ApiResponse<T>)
    | Unhandled(error: Exception)

  /** What an action returns together with the table it leaves behind. */
  datatype Outcome<T> = Outcome(result: ActionResult<T>, tracks: seq<TrackModel>)

  const TrackExistsMessage: string := "Track already exists!"
  const InvalidTrackMessage: string := "Invalid track data!"
  const DuplicateTrackMessage: string := "Track with the same name, location, and country already exists!"
  const CreatedMessage: string := "Track created successfully!"
  const UpdatedMessage: string := "Track updated successfully!"
  /** The action a `201 Created` response points to (`nameof(Get)`). */
  const GetActionName: string := "Get"

  /** The track has this Name, Location and Country (ordinal string equality). */
  predicate SameTriple(t: TrackModel, name: string, location: string, country: string) {
    t.name == name && t.location == location && t.country == country
  }

  /** The two tracks agree on Name, Location, Country and LayoutVersion. */
  predicate SameQuadruple(t: TrackModel, u: TrackModel) {
    SameTriple(t, u.name, u.location, u.country) && t.layoutVersion == u.layoutVersion
  }

  /** `Id` is a primary key: no two rows share it. */
  ghost predicate UniqueIds(tracks: seq<TrackModel>) {
    forall i, j :: 0 <= i < j < |tracks| ==> tracks[i].id != tracks[j].id
  }

  /** No two rows share Name, Location and Country. */
  ghost predicate Unique3(tracks: seq<TrackModel>) {
    forall i, j :: 0 <= i < j < |tracks| ==> !SameTriple(tracks[i], tracks[j].name, tracks[j].location, tracks[j].country)
  }

  /** No two rows share Name, Location, Country and LayoutVersion. */
  ghost predicate Unique4(tracks: seq<TrackModel>) {
    forall i, j :: 0 <= i < j < |tracks| ==> !SameQuadruple(tracks[i], tracks[j])
  }

  /** `FindAsync(id)`: the position of the row with primary key `id`, if there is one. */
  function FindTrack(tracks: seq<TrackModel>, id: Guid): (r: Option<nat>)
    ensures r.Some? ==> r.value < |tracks| && tracks[r.value].id == id
    ensures r.None? <==> forall j :: 0 <= j < |tracks| ==> tracks[j].id != id
  {
    FirstIndex(tracks, (t: TrackModel) => t.id == id)
  }

  /** Some row has primary key `id`. */
  predicate IdTaken(tracks: seq<TrackModel>, id: Guid) {
    exists j :: 0 <= j < |tracks| && tracks[j].id == id
  }

  /** The query of `Post`: some row has this Name, Location and Country. */
  predicate TripleTaken(tracks: seq<TrackModel>, name: string, location: string, country: string) {
    exists j :: 0 <= j < |tracks| && SameTriple(tracks[j], name, location, country)
  }

  /** The query of `Put`: some row with another id has this Name, Location and Country. */
  predicate TripleTakenByOther(tracks: seq<TrackModel>, id: Guid, name: string, location: string, country: string) {
    exists j :: 0 <= j < |tracks| && tracks[j].id != id && SameTriple(tracks[j], name, location, country)
  }

  /** The query of `Patch`: some stored row with another id agrees with the patched track
      on all four of Name, Location, Country and LayoutVersion. */
  predicate QuadrupleTakenByOther(tracks: seq<TrackModel>, track: TrackModel) {
    exists j :: 0 <= j < |tracks| && tracks[j].id != track.id && SameQuadruple(tracks[j], track)
  }

  /** The six assignments of `Put`: the track becomes what the request would create under
      the track's own id. */
  function Overwrite(track: TrackModel, body: CreateTrackRequest): (r: TrackModel)
    ensures r == body.ToModel(track.id)
  {
    track.(lengthKm := body.lengthKm, layoutVersion := body.layoutVersion, turns := body.turns,
           name := body.name, location := body.location, country := body.country)
  }

  /** The conditional assignments of `Patch`: a text field is replaced by a patch value that
      is neither null nor white space, LayoutVersion by any non-null value, Turns and LengthKm
      by any value present. */
  function ApplyPatch(track: TrackModel, patch: PatchTrackDto): (r: TrackModel)
    ensures r.id == track.id
  {
    TrackModel(
      track.id,
      if IsNullOrWhiteSpace(patch.name) then track.name else patch.name.value,
      if IsNullOrWhiteSpace(patch.location) then track.location else patch.location.value,
      if IsNullOrWhiteSpace(patch.country) then track.country else patch.country.value,
      patch.layoutVersion.GetOr(track.layoutVersion),
      if patch.turns.Some? then patch.turns else track.turns,
      if patch.lengthKm.Some? then patch.lengthKm else track.lengthKm)
  }

  /** `Get()`: every row, summarised, in table order. */
  function ListOutcome(tracks: seq<TrackModel>): (r: ActionResult<seq<TrackDto>>)
    ensures r.OkObject? && r.value.success && r.value.message.None? && r.value.data.Some?
    ensures |r.value.data.value| == |tracks|
    ensures forall i :: 0 <= i < |tracks| ==> r.value.data.value[i] == ToTrackDto(tracks[i])
  {
    OkObject(Ok(seq(|tracks|, i requires 0 <= i < |tracks| => ToTrackDto(tracks[i]))))
  }

  /** `Get(id)`: the details of the row with that id, or `404 Not Found`. */
  function GetOutcome(tracks: seq<TrackModel>, id: Guid): (r: ActionResult<TrackDetailsDto>)
    ensures r.NotFoundResult? || r.OkObject?
    ensures r.NotFoundResult? <==> !IdTaken(tracks, id)
    ensures r.OkObject? ==>
      exists j :: 0 <= j < |tracks| && tracks[j].id == id && r.value == Ok(ToDetails(tracks[j]))
  {
    match FindTrack(tracks, id)
    case None => NotFoundResult
    case Some(i) => OkObject(Ok(ToDetails(tracks[i])))
  }

  /** `Post`: `409 Conflict` when the triple is taken; otherwise the request's model is added
      and `201 Created` points at it. A clash on the freshly generated id makes saving throw. */
  function PostOutcome(tracks: seq<TrackModel>, newTrack: CreateTrackRequest, newId: Guid): (r: Outcome<TrackDetailsDto>)
    ensures r.tracks == tracks || r.tracks == tracks + [newTrack.ToModel(newId)]
    ensures r.result.CreatedAtAction? <==> r.tracks != tracks
  {
    if TripleTaken(tracks, newTrack.name, newTrack.location, newTrack.country) then
      Outcome(ConflictObject(Fail(TrackExistsMessage)), tracks)
    else
      var entity := newTrack.ToModel(newId);
      if IdTaken(tracks, entity.id) then Outcome(Unhandled(DbUpdateException), tracks)
      else Outcome(CreatedAtAction(GetActionName, entity.id, Ok(ToDetails(entity), Some(CreatedMessage))),
                   tracks + [entity])
  }

  /** `Put`: `400` for a null body, `404` for an unknown id, `409` when another row has the
      new triple; otherwise all six fields of the row are replaced. */
  function PutOutcome(tracks: seq<TrackModel>, id: Guid, updatedTrack: Option<CreateTrackRequest>): (r: Outcome<TrackDetailsDto>)
    ensures |r.tracks| == |tracks|
    ensures !r.result.OkObject? ==> r.tracks == tracks
  {
    if updatedTrack.None? then Outcome(BadRequestObject(Fail(InvalidTrackMessage)), tracks)
    else
      match FindTrack(tracks, id)
      case None => Outcome(NotFoundResult, tracks)
      case Some(i) =>
        var body := updatedTrack.value;
        if TripleTakenByOther(tracks, id, body.name, body.location, body.country) then
          Outcome(ConflictObject(Fail(DuplicateTrackMessage)), tracks)
        else
          var track := Overwrite(tracks[i], body);
          Outcome(OkObject(Ok(ToDetails(track), Some(UpdatedMessage))), tracks[i := track])
  }

  /** `Patch`: `400` for a null body, `404` for an unknown id; the patch is applied to the
      row, and `409` (with nothing saved) when another row agrees with the result on all four
      of Name, Location, Country and LayoutVersion. */
  function PatchOutcome(tracks: seq<TrackModel>, id: Guid, patch: Option<PatchTrackDto>): (r: Outcome<TrackDetailsDto>)
    ensures |r.tracks| == |tracks|
    ensures !r.result.OkObject? ==> r.tracks == tracks
  {
    if patch.None? then Outcome(BadRequestObject(Fail(InvalidTrackMessage)), tracks)
    else
      match FindTrack(tracks, id)
      case None => Outcome(NotFoundResult, tracks)
      case Some(i) =>
        var track := ApplyPatch(tracks[i], patch.value);
        if QuadrupleTakenByOther(tracks, track) then
          Outcome(ConflictObject(Fail(DuplicateTrackMessage)), tracks)
        else Outcome(OkObject(Ok(ToDetails(track), Some(UpdatedMessage))), tracks[i := track])
  }

  /** The controller over the `Tracks` table it reads and writes. */
  class TrackController {
    /** The rows of `Tracks`, in table order. */
    var tracks: seq<TrackModel>

    constructor(tracks: seq<TrackModel>)
      ensures this.tracks == tracks
    {
      this.tracks := tracks;
    }

    /** `Get()`: lists the table and changes nothing. */
    method GetAll() returns (r: ActionResult<seq<TrackDto>>)
      ensures r == ListOutcome(tracks)
    {
      var rows := tracks;
      var dtos := seq(|rows|, i requires 0 <= i < |rows| => ToTrackDto(rows[i]));
      r := OkObject(Ok(dtos));
    }

    /** `Get(id)`: reads one row and changes nothing. */
    method Get(id: Guid) returns (r: ActionResult<TrackDetailsDto>)
      ensures r == GetOutcome(tracks, id)
    {
      var found := FindTrack(tracks, id);
      if found.None? {
        return NotFoundResult;
      }
      r := OkObject(Ok(ToDetails(tracks[found.value])));
    }

    /** `Post`, with `newId` the value `Guid.NewGuid()` gives `ToModel`. */
    method Post(newTrack: CreateTrackRequest, newId: Guid) returns (r: ActionResult<TrackDetailsDto>)
      modifies this
      ensures Outcome(r, tracks) == PostOutcome(old(tracks), newTrack, newId)
    {
      var trackExists := TripleTaken(tracks, newTrack.name, newTrack.location, newTrack.country);
      if trackExists {
        return ConflictObject(Fail(TrackExistsMessage));
      }
      var entity := newTrack.ToModel(newId);
      if IdTaken(tracks, entity.id) {
        return Unhandled(DbUpdateException);
      }
      tracks := tracks + [entity];
      var dto := ToDetails(entity);
      r := CreatedAtAction(GetActionName, dto.id, Ok(dto, Some(CreatedMessage)));
    }

    /** `Put`: the found row is copied out, assigned field by field and written back. */
    method Put(id: Guid, updatedTrack: Option<CreateTrackRequest>) returns (r: ActionResult<TrackDetailsDto>)
      modifies this
      ensures Outcome(r, tracks) == PutOutcome(old(tracks), id, updatedTrack)
    {
      if updatedTrack.None? {
        return BadRequestObject(Fail(InvalidTrackMessage));
      }
      var body := updatedTrack.value;
      var found := FindTrack(tracks, id);
      if found.None? {
        return NotFoundResult;
      }
      var i := found.value;
      var trackExists := TripleTakenByOther(tracks, id, body.name, body.location, body.country);
      if trackExists {
        return ConflictObject(Fail(DuplicateTrackMessage));
      }
      var track := tracks[i];
      track := track.(lengthKm := body.lengthKm);
      track := track.(layoutVersion := body.layoutVersion);
      track := track.(turns := body.turns);
      track := track.(name := body.name);
      track := track.(location := body.location);
      track := track.(country := body.country);
      tracks := tracks[i := track];
      r := OkObject(Ok(ToDetails(track), Some(UpdatedMessage)));
    }

    /** `Patch`: the found row is copied out and assigned field by field; it is written back
        only when the four-field check finds no other row. */
    method Patch(id: Guid, patch: Option<PatchTrackDto>) returns (r: ActionResult<TrackDetailsDto>)
      modifies this
      ensures Outcome(r, tracks) == PatchOutcome(old(tracks), id, patch)
    {
      if patch.None? {
        return BadRequestObject(Fail(InvalidTrackMessage));
      }
      var p := patch.value;
      var found := FindTrack(tracks, id);
      if found.None? {
        return NotFoundResult;
      }
      var i := found.value;
      var track := tracks[i];
      if !IsNullOrWhiteSpace(p.name) {
        track := track.(name := p.name.value);
      }
      if !IsNullOrWhiteSpace(p.location) {
        track := track.(location := p.location.value);
      }
      if !IsNullOrWhiteSpace(p.country) {
        track := track.(country := p.country.value);
      }
      if p.layoutVersion.Some? {
        track := track.(layoutVersion := p.layoutVersion.value);
      }
      if p.turns.Some? {
        track := track.(turns := p.turns);
      }
      if p.lengthKm.Some? {
        track := track.(lengthKm := p.lengthKm);
      }
      assert track == ApplyPatch(tracks[i], p);
      var trackExists := QuadrupleTakenByOther(tracks, track);
      if trackExists {
        return ConflictObject(Fail(DuplicateTrackMessage));
      }
      tracks := tracks[i := track];
      r := OkObject(Ok(ToDetails(track), Some(UpdatedMessage)));
    }
  }
}
