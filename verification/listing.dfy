/** What `main` (main.py) does with a search response: it finds the list of
    beatmaps in the payload, then walks it, filling in defaults for each
    record and asking for a download whenever the record has a set id. */
module Listing {
  import opened Outcome
  import opened Payload

  datatype ShapeError =
    | NoResults          // a false payload: the search failed or found nothing
    | UnrecognisedShape  // a true payload that is neither a list nor a dict

  const UnknownArtist: string := "Unknown Artist"
  const UnknownTitle: string := "Unknown Title"

  /** `beatmaps_list`: a list payload is used as it is; a dict gives its
      `results` value, else its `beatmaps` value, else an empty list. */
  function BeatmapList(payload: Json): (r: Result<Json, ShapeError>)
    ensures r == Failure(NoResults) <==> !Truthy(payload)
    ensures r == Failure(UnrecognisedShape) <==> Truthy(payload) && !payload.JArr? && !payload.JObj?
    ensures payload.JArr? && Truthy(payload) ==> r == Success(payload)
    ensures payload.JObj? && "results" in payload.fields ==> r == Success(payload.fields["results"])
    ensures payload.JObj? && "results" !in payload.fields && "beatmaps" in payload.fields ==>
      r == Success(payload.fields["beatmaps"])
    ensures payload.JObj? && Truthy(payload) && "results" !in payload.fields && "beatmaps" !in payload.fields ==>
      r == Success(JArr([]))
  {
    if !Truthy(payload) then Failure(NoResults)
    else match payload
      case JArr(_) => Success(payload)
      case JObj(fields) => Success(Get(fields, "results", Get(fields, "beatmaps", JArr([]))))
      case _ => Failure(UnrecognisedShape)
  }

  /** The fields `main` reads from one record. A missing `id` is `None`. */
  datatype Summary = Summary(id: Json, setId: Json, artist: Json, title: Json)

  /** The `.get` calls of the record loop, with their defaults. */
  function Summarise(fields: map<string, Json>): (b: Summary)
    ensures b.id == (if "id" in fields then fields["id"] else JNull)
    ensures "beatmapset_id" in fields ==> b.setId == fields["beatmapset_id"]
    ensures "beatmapset_id" !in fields ==> b.setId == b.id
    ensures b.artist == (if "artist" in fields then fields["artist"] else JStr(UnknownArtist))
    ensures b.title == (if "title" in fields then fields["title"] else JStr(UnknownTitle))
  {
    var id := Get(fields, "id", JNull);
    Summary(
      id,
      Get(fields, "beatmapset_id", id),
      Get(fields, "artist", JStr(UnknownArtist)),
      Get(fields, "title", JStr(UnknownTitle)))
  }

  /** What the loop does with one record: a download of the set, named
      "artist - title", or a warning that the set id is missing. */
  datatype Step = Fetch(setId: string, title: string) | MissingSetId

  function StepFor(fields: map<string, Json>): (s: Step)
    ensures s.Fetch? <==> Truthy(Summarise(fields).setId)
    ensures s.Fetch? ==> s.setId == Str(Summarise(fields).setId)
    ensures s.Fetch? ==> s.title == Str(Summarise(fields).artist) + " - " + Str(Summarise(fields).title)
  {
    var b := Summarise(fields);
    if Truthy(b.setId) then Fetch(Str(b.setId), Str(b.artist) + " - " + Str(b.title))
    else MissingSetId
  }

  /** The steps taken, and whether the loop got through every record (it
      stops with an exception at the first record that is not a dict). */
  datatype Pass = Pass(steps: seq<Step>, finished: bool)

  function ProcessRecords(records: seq<Json>): (r: Pass)
    ensures |r.steps| <= |records|
    ensures r.finished <==> forall i :: 0 <= i < |records| ==> records[i].JObj?
    ensures r.finished ==> |r.steps| == |records|
    ensures !r.finished ==> |r.steps| < |records| && !records[|r.steps|].JObj?
    ensures forall i :: 0 <= i < |r.steps| ==> records[i].JObj? && r.steps[i] == StepFor(records[i].fields)
    decreases |records|
  {
    if |records| == 0 then Pass([], true)
    else match records[0]
      case JObj(fields) =>
        var rest := ProcessRecords(records[1..]);
        Pass([StepFor(fields)] + rest.steps, rest.finished)
      case _ => Pass([], false)
  }

  /** The records `for beatmap_info in beatmaps_list` visits, or `None` when
      Python raises before visiting any: `len()` of `None`, a bool or a
      number fails, and a non-empty string or dict yields strings, whose
      first `.get` fails. */
  function Records(list: Json): (r: Option<seq<Json>>)
    ensures list.JArr? ==> r == Some(list.items)
    ensures !list.JArr? && r.Some? ==> r.value == [] && !Truthy(list)
    ensures r.None? <==> !list.JArr? && (Truthy(list) || !(list.JStr? || list.JObj?))
  {
    match list
    case JArr(items) => Some(items)
    case JStr(s) => if |s| == 0 then Some([]) else None
    case JObj(fields) => if |fields| == 0 then Some([]) else None
    case _ => None
  }

  /** How the handling of one search response ends. */
  datatype Run =
    | SearchFailed               // "search failed or no results"
    | BadShape                   // "cannot parse the response format"
    | Crashed(steps: seq<Step>)  // an exception ended the loop after these steps
    | Completed(steps: seq<Step>)

  /** `main` from the moment the search returns. */
  function HandleResults(payload: Json): (r: Run)
    ensures r == SearchFailed <==> !Truthy(payload)
    ensures r == BadShape <==> Truthy(payload) && !payload.JArr? && !payload.JObj?
    ensures r.Crashed? || r.Completed? ==> BeatmapList(payload).Success?
    ensures BeatmapList(payload).Success? && Records(BeatmapList(payload).value).None? ==> r == Crashed([])
    ensures BeatmapList(payload).Success? && Records(BeatmapList(payload).value).Some? ==>
      var records := Records(BeatmapList(payload).value).value;
      && |r.steps| <= |records|
      && (r.Completed? <==> forall i :: 0 <= i < |records| ==> records[i].JObj?)
      && (r.Completed? ==> |r.steps| == |records|)
      && (r.Crashed? ==> |r.steps| < |records| && !records[|r.steps|].JObj?)
      && forall i :: 0 <= i < |r.steps| ==> records[i].JObj? && r.steps[i] == StepFor(records[i].fields)
  {
    match BeatmapList(payload)
    case Failure(NoResults) => SearchFailed
    case Failure(UnrecognisedShape) => BadShape
    case Success(list) =>
      match Records(list)
      case None => Crashed([])
      case Some(records) =>
        var pass := ProcessRecords(records);
        if pass.finished then Completed(pass.steps) else Crashed(pass.steps)
  }

  /** A download is asked for exactly for the records whose resolved set id
      is true, and it names the set by that id. */
  lemma FetchOnlyWithSetId(payload: Json, i: nat)
    requires HandleResults(payload).Completed? || HandleResults(payload).Crashed?
    requires i < |HandleResults(payload).steps|
    ensures var list := BeatmapList(payload).value;
      var record := Records(list).value[i];
      && record.JObj?
      && (HandleResults(payload).steps[i].Fetch? <==> Truthy(Summarise(record.fields).setId))
  {
  }

  /** Which records are downloaded, read off the record itself: one whose
      `beatmapset_id` is present downloads exactly when that value is true,
      so `"beatmapset_id": null` is skipped whatever `id` holds; one without
      the key downloads exactly when its `id` is present and true. */
  lemma FetchIffSetIdResolves(fields: map<string, Json>)
    ensures StepFor(fields).Fetch? <==>
      if "beatmapset_id" in fields then Truthy(fields["beatmapset_id"])
      else "id" in fields && Truthy(fields["id"])
    ensures "beatmapset_id" !in fields && "id" in fields && Truthy(fields["id"]) ==>
      StepFor(fields).setId == Str(fields["id"])
  {
  }

  /** A bare list of records is walked as it is, one step per record. */
  lemma BareListWalked(records: seq<Json>)
    requires |records| > 0
    requires forall i :: 0 <= i < |records| ==> records[i].JObj?
    ensures HandleResults(JArr(records)).Completed?
    ensures var steps := HandleResults(JArr(records)).steps;
      |steps| == |records| && forall i :: 0 <= i < |records| ==> steps[i] == StepFor(records[i].fields)
  {
  }

  /** A dict's `results` wins over its `beatmaps`: the two payloads are
      handled alike whatever `beatmaps` holds. */
  lemma ResultsKeyWins(list: Json, other: Json)
    ensures HandleResults(JObj(map["results" := list, "beatmaps" := other]))
         == HandleResults(JObj(map["results" := list]))
  {
  }
}
