/** What the track endpoints promise: how each answers, what it does to the table, the
    uniqueness rules each keeps, and how the writes read back through `Get(id)`. */
module TrackProperties {
  import opened Wrappers
  import opened Guids
  import opened Text
  import opened Tracks
  import opened ApiResponses
  import opened TrackControllers

  /** When a row with primary key `id` sits at `i` and none before it, `FindAsync` finds it. */
  lemma FindsFirst(tracks: seq<TrackModel>, id: Guid, i: nat)
    requires i < |tracks| && tracks[i].id == id
    requires forall j :: 0 <= j < i ==> tracks[j].id != id
    ensures FindTrack(tracks, id) == Some(i)
  {
    var r := FindTrack(tracks, id);
    assert r.Some? by {
      assert tracks[i].id == id;
    }
  }

  /** Replacing the row at `i` by one with the same id leaves `FindAsync(id)` where it was. */
  lemma FindAfterReplace(tracks: seq<TrackModel>, id: Guid, i: nat, track: TrackModel)
    requires FindTrack(tracks, id) == Some(i) && track.id == id
    ensures FindTrack(tracks[i := track], id) == Some(i)
  {
    FindsFirst(tracks[i := track], id, i);
  }

  /** `Post` answers `409` exactly when a row has the request's Name, Location and Country,
      and `201` exactly when none has and the new id is free; only `201` changes the table,
      by appending the request's model under the new id, and its body carries that model. */
  lemma PostCases(tracks: seq<TrackModel>, newTrack: CreateTrackRequest, newId: Guid)
    ensures var o := PostOutcome(tracks, newTrack, newId);
      && (o.result.ConflictObject? <==>
            exists j :: 0 <= j < |tracks| && SameTriple(tracks[j], newTrack.name, newTrack.location, newTrack.country))
      && (o.result.ConflictObject? ==> o.result.value == Fail(TrackExistsMessage))
      && (o.result.CreatedAtAction? <==>
            && (forall j :: 0 <= j < |tracks| ==> !SameTriple(tracks[j], newTrack.name, newTrack.location, newTrack.country))
            && (forall j :: 0 <= j < |tracks| ==> tracks[j].id != newId))
      && (o.result.ConflictObject? || o.result.CreatedAtAction? || o.result == Unhandled(DbUpdateException))
      && (!o.result.CreatedAtAction? ==> o.tracks == tracks)
      && (o.result.CreatedAtAction? ==>
            && |o.tracks| == |tracks| + 1 && o.tracks[..|tracks|] == tracks
            && o.tracks[|tracks|] == newTrack.ToModel(newId)
            && o.result.actionName == "Get" && o.result.routeId == newId
            && o.result.value == Ok(ToDetails(newTrack.ToModel(newId)), Some(CreatedMessage)))
  {
    var o := PostOutcome(tracks, newTrack, newId);
    if o.result.CreatedAtAction? {
      assert o.tracks[..|tracks|] == tracks;
    }
  }

  /** `Post` keeps ids unique, and keeps the three-field and the four-field uniqueness rules. */
  lemma PostPreservesUniqueness(tracks: seq<TrackModel>, newTrack: CreateTrackRequest, newId: Guid)
    requires UniqueIds(tracks)
    ensures var after := PostOutcome(tracks, newTrack, newId).tracks;
      && UniqueIds(after)
      && (Unique3(tracks) ==> Unique3(after))
      && (Unique4(tracks) ==> Unique4(after))
  {
    var o := PostOutcome(tracks, newTrack, newId);
    if o.result.CreatedAtAction? {
      var entity := newTrack.ToModel(newId);
      assert o.tracks == tracks + [entity];
      forall j | 0 <= j < |tracks|
        ensures tracks[j].id != entity.id
        ensures !SameTriple(tracks[j], entity.name, entity.location, entity.country)
      {
      }
    }
  }

  /** A created track reads back: `Get` on the new id returns the details the `201` carried. */
  lemma PostThenGet(tracks: seq<TrackModel>, newTrack: CreateTrackRequest, newId: Guid)
    requires PostOutcome(tracks, newTrack, newId).result.CreatedAtAction?
    ensures var o := PostOutcome(tracks, newTrack, newId);
      GetOutcome(o.tracks, newId) == OkObject(Ok(ToDetails(newTrack.ToModel(newId))))
      && o.result.value.data == GetOutcome(o.tracks, newId).value.data
  {
    var o := PostOutcome(tracks, newTrack, newId);
    FindsFirst(o.tracks, newId, |tracks|);
  }

  /** `Put` answers `400` exactly for a null body and `404` exactly for an unknown id; given
      both, it answers `409` exactly when a row with another id has the new Name, Location and
      Country, and otherwise `200` with the replaced row. Only `200` changes the table. */
  lemma PutCases(tracks: seq<TrackModel>, id: Guid, updatedTrack: Option<CreateTrackRequest>)
    ensures var o := PutOutcome(tracks, id, updatedTrack);
      && (o.result.BadRequestObject? <==> updatedTrack.None?)
      && (o.result.BadRequestObject? ==> o.result.value == Fail(InvalidTrackMessage))
      && (o.result.NotFoundResult? <==> updatedTrack.Some? && forall j :: 0 <= j < |tracks| ==> tracks[j].id != id)
      && (o.result.ConflictObject? <==>
            && updatedTrack.Some? && (exists j :: 0 <= j < |tracks| && tracks[j].id == id)
            && exists j :: 0 <= j < |tracks| && tracks[j].id != id
                 && SameTriple(tracks[j], updatedTrack.value.name, updatedTrack.value.location, updatedTrack.value.country))
      && (o.result.ConflictObject? ==> o.result.value == Fail(DuplicateTrackMessage))
      && (o.result.BadRequestObject? || o.result.NotFoundResult? || o.result.ConflictObject? || o.result.OkObject?)
      && (!o.result.OkObject? ==> o.tracks == tracks)
  {
  }

  /** A successful `Put` replaces exactly one row, the first with that id, by the request's
      model under the same id, and answers with that row's details. */
  lemma PutReplacesOneRow(tracks: seq<TrackModel>, id: Guid, body: CreateTrackRequest)
    requires PutOutcome(tracks, id, Some(body)).result.OkObject?
    ensures var o := PutOutcome(tracks, id, Some(body));
      exists i :: 0 <= i < |tracks| && tracks[i].id == id
        && o.tracks == tracks[i := body.ToModel(id)]
        && o.result.value == Ok(ToDetails(body.ToModel(id)), Some(UpdatedMessage))
  {
    var i := FindTrack(tracks, id).value;
    assert tracks[i].id == id;
  }

  /** A row may keep its own Name, Location and Country: when the table keeps both rules,
      `Put` with the triple the row already has never answers `409`. */
  lemma PutOwnTripleAccepted(tracks: seq<TrackModel>, i: nat, body: CreateTrackRequest)
    requires UniqueIds(tracks) && Unique3(tracks) && i < |tracks|
    requires SameTriple(tracks[i], body.name, body.location, body.country)
    ensures PutOutcome(tracks, tracks[i].id, Some(body)).result.OkObject?
  {
    var id := tracks[i].id;
    FindsFirst(tracks, id, i);
    forall j | 0 <= j < |tracks| && tracks[j].id != id
      ensures !SameTriple(tracks[j], body.name, body.location, body.country)
    {
      assert j != i;
    }
  }

  /** `Put` keeps ids unique and keeps both uniqueness rules. */
  lemma PutPreservesUniqueness(tracks: seq<TrackModel>, id: Guid, updatedTrack: Option<CreateTrackRequest>)
    requires UniqueIds(tracks)
    ensures var after := PutOutcome(tracks, id, updatedTrack).tracks;
      && UniqueIds(after)
      && (Unique3(tracks) ==> Unique3(after))
      && (Unique4(tracks) ==> Unique4(after))
  {
    var o := PutOutcome(tracks, id, updatedTrack);
    if o.result.OkObject? {
      var i := FindTrack(tracks, id).value;
      var body := updatedTrack.value;
      var track := Overwrite(tracks[i], body);
      assert o.tracks == tracks[i := track];
      forall j | 0 <= j < |tracks| && j != i
        ensures tracks[j].id != id
        ensures !SameTriple(tracks[j], track.name, track.location, track.country)
      {
      }
      ReplacedRowKeepsRules(tracks, i, track);
    }
  }

  /** Replacing one row by a row with the same id whose triple no other row has keeps ids
      unique and keeps both uniqueness rules. */
  lemma ReplacedRowKeepsRules(tracks: seq<TrackModel>, i: nat, track: TrackModel)
    requires UniqueIds(tracks) && i < |tracks| && track.id == tracks[i].id
    requires forall j :: 0 <= j < |tracks| && j != i ==> !SameTriple(tracks[j], track.name, track.location, track.country)
    ensures UniqueIds(tracks[i := track])
    ensures Unique3(tracks) ==> Unique3(tracks[i := track])
    ensures Unique4(tracks) ==> Unique4(tracks[i := track])
  {
    var after := tracks[i := track];
    assert forall j :: 0 <= j < |after| ==> after[j].id == tracks[j].id;
  }

  /** Replacing one row by a row with the same id that agrees with no other row on all four
      fields keeps ids unique and the four-field rule. */
  lemma ReplacedRowKeepsRule4(tracks: seq<TrackModel>, i: nat, track: TrackModel)
    requires UniqueIds(tracks) && i < |tracks| && track.id == tracks[i].id
    requires forall j :: 0 <= j < |tracks| && j != i ==> !SameQuadruple(tracks[j], track)
    ensures UniqueIds(tracks[i := track])
    ensures Unique4(tracks) ==> Unique4(tracks[i := track])
  {
    var after := tracks[i := track];
    assert forall j :: 0 <= j < |after| ==> after[j].id == tracks[j].id;
  }

  /** Repeating a successful `Put` changes nothing more and answers the same. */
  lemma PutIdempotent(tracks: seq<TrackModel>, id: Guid, body: CreateTrackRequest)
    requires PutOutcome(tracks, id, Some(body)).result.OkObject?
    ensures var once := PutOutcome(tracks, id, Some(body));
      PutOutcome(once.tracks, id, Some(body)) == once
  {
    var once := PutOutcome(tracks, id, Some(body));
    var i := FindTrack(tracks, id).value;
    var track := Overwrite(tracks[i], body);
    assert once.tracks == tracks[i := track];
    FindAfterReplace(tracks, id, i, track);
    assert Overwrite(track, body) == track;
    assert !TripleTakenByOther(once.tracks, id, body.name, body.location, body.country) by {
      forall j | 0 <= j < |once.tracks| && once.tracks[j].id != id
        ensures !SameTriple(once.tracks[j], body.name, body.location, body.country)
      {
        assert j != i && once.tracks[j] == tracks[j];
      }
    }
  }

  /** A replaced track reads back: `Get` returns the request's fields under the same id. */
  lemma PutThenGet(tracks: seq<TrackModel>, id: Guid, body: CreateTrackRequest)
    requires PutOutcome(tracks, id, Some(body)).result.OkObject?
    ensures GetOutcome(PutOutcome(tracks, id, Some(body)).tracks, id) == OkObject(Ok(ToDetails(body.ToModel(id))))
  {
    var i := FindTrack(tracks, id).value;
    FindAfterReplace(tracks, id, i, Overwrite(tracks[i], body));
  }

  /** The field rules of `Patch`: a text field takes a patch value that is neither null nor
      white space and otherwise stays, LayoutVersion takes any non-null value (the empty string
      included), Turns and LengthKm take any value present; the id never changes. */
  lemma PatchFields(track: TrackModel, patch: PatchTrackDto)
    ensures var r := ApplyPatch(track, patch);
      && r.id == track.id
      && (IsNullOrWhiteSpace(patch.name) ==> r.name == track.name)
      && (!IsNullOrWhiteSpace(patch.name) ==> Some(r.name) == patch.name)
      && (IsNullOrWhiteSpace(patch.location) ==> r.location == track.location)
      && (!IsNullOrWhiteSpace(patch.location) ==> Some(r.location) == patch.location)
      && (IsNullOrWhiteSpace(patch.country) ==> r.country == track.country)
      && (!IsNullOrWhiteSpace(patch.country) ==> Some(r.country) == patch.country)
      && (patch.layoutVersion.None? ==> r.layoutVersion == track.layoutVersion)
      && (patch.layoutVersion.Some? ==> Some(r.layoutVersion) == patch.layoutVersion)
      && (patch.turns.None? ==> r.turns == track.turns)
      && (patch.turns.Some? ==> r.turns == patch.turns)
      && (patch.lengthKm.None? ==> r.lengthKm == track.lengthKm)
      && (patch.lengthKm.Some? ==> r.lengthKm == patch.lengthKm)
  {
  }

  /** An empty patch, or one whose text is only white space, changes no field; an empty
      LayoutVersion, by contrast, does replace the layout. */
  lemma BlankPatchValues(track: TrackModel, blank: string)
    requires forall k :: 0 <= k < |blank| ==> IsWhiteSpace(blank[k])
    ensures ApplyPatch(track, PatchTrackDto(None, None, None, None, None, None)) == track
    ensures ApplyPatch(track, PatchTrackDto(Some(blank), Some(blank), Some(blank), None, None, None)) == track
    ensures ApplyPatch(track, PatchTrackDto(None, None, None, Some(""), None, None)).layoutVersion == ""
  {
  }

  /** `Patch` answers `400` exactly for a null body and `404` exactly for an unknown id; given
      both, it answers `409` exactly when a row with another id agrees with the patched track
      on Name, Location, Country and LayoutVersion, and then saves nothing. */
  lemma PatchCases(tracks: seq<TrackModel>, id: Guid, patch: Option<PatchTrackDto>)
    ensures var o := PatchOutcome(tracks, id, patch);
      && (o.result.BadRequestObject? <==> patch.None?)
      && (o.result.BadRequestObject? ==> o.result.value == Fail(InvalidTrackMessage))
      && (o.result.NotFoundResult? <==> patch.Some? && forall j :: 0 <= j < |tracks| ==> tracks[j].id != id)
      && (o.result.ConflictObject? ==> o.result.value == Fail(DuplicateTrackMessage))
      && (o.result.BadRequestObject? || o.result.NotFoundResult? || o.result.ConflictObject? || o.result.OkObject?)
      && (!o.result.OkObject? ==> o.tracks == tracks)
      && (patch.Some? && FindTrack(tracks, id).Some? ==>
            var patched := ApplyPatch(tracks[FindTrack(tracks, id).value], patch.value);
            && (o.result.ConflictObject? <==>
                  exists j :: 0 <= j < |tracks| && tracks[j].id != id && SameQuadruple(tracks[j], patched))
            && (o.result.OkObject? ==>
                  o.tracks == tracks[FindTrack(tracks, id).value := patched]
                  && o.result.value == Ok(ToDetails(patched), Some(UpdatedMessage))))
  {
  }

  /** `Patch` keeps ids unique and the four-field rule. */
  lemma PatchPreservesUnique4(tracks: seq<TrackModel>, id: Guid, patch: Option<PatchTrackDto>)
    requires UniqueIds(tracks)
    ensures var after := PatchOutcome(tracks, id, patch).tracks;
      UniqueIds(after) && (Unique4(tracks) ==> Unique4(after))
  {
    var o := PatchOutcome(tracks, id, patch);
    if o.result.OkObject? {
      var i := FindTrack(tracks, id).value;
      var track := ApplyPatch(tracks[i], patch.value);
      assert o.tracks == tracks[i := track];
      forall j | 0 <= j < |tracks| && j != i
        ensures !SameQuadruple(tracks[j], track)
      {
        assert tracks[j].id != id;
      }
      ReplacedRowKeepsRule4(tracks, i, track);
    }
  }

  /** The first track of the example table. */
  function SpaGrandPrix(): TrackModel {
    TrackModel(seq(32, _ => 0), "Spa", "Stavelot", "BE", "GP", None, None)
  }

  /** The second track of the example table: another name, another layout. */
  function SpaShort(): TrackModel {
    TrackModel(seq(32, _ => 1), "Spa Short", "Stavelot", "BE", "Short", None, None)
  }

  /** `Patch` can break the three-field rule that `Post` and `Put` enforce: renaming the
      second track to the first one's name passes the four-field check, because the layouts
      differ, and leaves two rows with the same Name, Location and Country. */
  lemma PatchCanBreakUnique3()
    ensures var tracks := [SpaGrandPrix(), SpaShort()];
      var o := PatchOutcome(tracks, SpaShort().id, Some(PatchTrackDto(Some("Spa"), None, None, None, None, None)));
      && UniqueIds(tracks) && Unique3(tracks)
      && o.result.OkObject? && !Unique3(o.tracks)
  {
    var tracks := [SpaGrandPrix(), SpaShort()];
    var patch := PatchTrackDto(Some("Spa"), None, None, None, None, None);
    assert SpaGrandPrix().id[0] != SpaShort().id[0];
    assert tracks[0].name != tracks[1].name by {
      assert |tracks[1].name| == 9 && |tracks[0].name| == 3;
    }
    assert !IsNullOrWhiteSpace(patch.name) by {
      assert !IsWhiteSpace(patch.name.value[0]);
    }
    FindsFirst(tracks, SpaShort().id, 1);
    var patched := ApplyPatch(tracks[1], patch);
    assert patched.layoutVersion != tracks[0].layoutVersion by {
      assert |patched.layoutVersion| == 5 && |tracks[0].layoutVersion| == 2;
    }
    var o := PatchOutcome(tracks, SpaShort().id, Some(patch));
    assert o.tracks == [SpaGrandPrix(), patched];
    assert SameTriple(o.tracks[0], o.tracks[1].name, o.tracks[1].location, o.tracks[1].country);
  }

  /** Repeating a successful `Patch` changes nothing more and answers the same. */
  lemma PatchIdempotent(tracks: seq<TrackModel>, id: Guid, patch: PatchTrackDto)
    requires PatchOutcome(tracks, id, Some(patch)).result.OkObject?
    ensures var once := PatchOutcome(tracks, id, Some(patch));
      PatchOutcome(once.tracks, id, Some(patch)) == once
  {
    var once := PatchOutcome(tracks, id, Some(patch));
    var i := FindTrack(tracks, id).value;
    var track := ApplyPatch(tracks[i], patch);
    assert once.tracks == tracks[i := track];
    FindAfterReplace(tracks, id, i, track);
    assert ApplyPatch(track, patch) == track;
    assert !QuadrupleTakenByOther(once.tracks, track) by {
      forall j | 0 <= j < |once.tracks| && once.tracks[j].id != track.id
        ensures !SameQuadruple(once.tracks[j], track)
      {
        assert j != i && once.tracks[j] == tracks[j];
      }
    }
  }

  /** A patched track reads back: `Get` returns the patched row. */
  lemma PatchThenGet(tracks: seq<TrackModel>, id: Guid, patch: PatchTrackDto)
    requires PatchOutcome(tracks, id, Some(patch)).result.OkObject?
    ensures exists i :: (0 <= i < |tracks| && tracks[i].id == id
      && GetOutcome(PatchOutcome(tracks, id, Some(patch)).tracks, id) == OkObject(Ok(ToDetails(ApplyPatch(tracks[i], patch)))))
  {
    var i := FindTrack(tracks, id).value;
    FindAfterReplace(tracks, id, i, ApplyPatch(tracks[i], patch));
  }

  /** A request to the controller. */
  datatype TrackRequest =
    | ListRequest
    | GetRequest(id: Guid)
    | PostRequest(newTrack: CreateTrackRequest, newId: Guid)
    | PutRequest(id: Guid, updatedTrack: Option<CreateTrackRequest>)
    | PatchRequest(id: Guid, patch: Option<PatchTrackDto>)

  /** The table after serving the requests in order. */
  function Run(tracks: seq<TrackModel>, requests: seq<TrackRequest>): seq<TrackModel>
    decreases |requests|
  {
    if |requests| == 0 then tracks
    else
      var next := match requests[0]
        case ListRequest => tracks
        case GetRequest(_) => tracks
        case PostRequest(newTrack, newId) => PostOutcome(tracks, newTrack, newId).tracks
        case PutRequest(id, updatedTrack) => PutOutcome(tracks, id, updatedTrack).tracks
        case PatchRequest(id, patch) => PatchOutcome(tracks, id, patch).tracks;
      Run(next, requests[1..])
  }

  /** Every sequence of requests keeps ids unique and the four-field rule. */
  lemma {:induction false} RunKeepsUnique4(tracks: seq<TrackModel>, requests: seq<TrackRequest>)
    requires UniqueIds(tracks) && Unique4(tracks)
    ensures UniqueIds(Run(tracks, requests)) && Unique4(Run(tracks, requests))
    decreases |requests|
  {
    if |requests| > 0 {
      match requests[0]
      case ListRequest => RunKeepsUnique4(tracks, requests[1..]);
      case GetRequest(_) => RunKeepsUnique4(tracks, requests[1..]);
      case PostRequest(newTrack, newId) =>
        PostPreservesUniqueness(tracks, newTrack, newId);
        RunKeepsUnique4(PostOutcome(tracks, newTrack, newId).tracks, requests[1..]);
      case PutRequest(id, updatedTrack) =>
        PutPreservesUniqueness(tracks, id, updatedTrack);
        RunKeepsUnique4(PutOutcome(tracks, id, updatedTrack).tracks, requests[1..]);
      case PatchRequest(id, patch) =>
        PatchPreservesUnique4(tracks, id, patch);
        RunKeepsUnique4(PatchOutcome(tracks, id, patch).tracks, requests[1..]);
    }
  }

  /** Without patches, every sequence of requests keeps ids unique and the three-field rule. */
  lemma {:induction false} RunWithoutPatchKeepsUnique3(tracks: seq<TrackModel>, requests: seq<TrackRequest>)
    requires UniqueIds(tracks) && Unique3(tracks)
    requires forall k :: 0 <= k < |requests| ==> !requests[k].PatchRequest?
    ensures UniqueIds(Run(tracks, requests)) && Unique3(Run(tracks, requests))
    decreases |requests|
  {
    if |requests| > 0 {
      assert forall k :: 0 <= k < |requests[1..]| ==> requests[1..][k] == requests[k + 1];
      match requests[0]
      case ListRequest => RunWithoutPatchKeepsUnique3(tracks, requests[1..]);
      case GetRequest(_) => RunWithoutPatchKeepsUnique3(tracks, requests[1..]);
      case PostRequest(newTrack, newId) =>
        PostPreservesUniqueness(tracks, newTrack, newId);
        RunWithoutPatchKeepsUnique3(PostOutcome(tracks, newTrack, newId).tracks, requests[1..]);
      case PutRequest(id, updatedTrack) =>
        PutPreservesUniqueness(tracks, id, updatedTrack);
        RunWithoutPatchKeepsUnique3(PutOutcome(tracks, id, updatedTrack).tracks, requests[1..]);
    }
  }
}
