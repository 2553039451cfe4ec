/**
  The ID3 tags `_copy_track_metadata` writes for a downloaded track: one tag per
  known field the track record holds, the track and disc numbers as "n/total".
*/
module TagMap {
  import opened Wrappers
  import opened Python

  /** The field-to-tag table of `_copy_track_metadata`. */
  const TagFields: map<string, string> := map[
    "name" := "title",
    "album" := "album",
    "genre" := "genre",
    "artist" := "artist",
    "albumArtist" := "performer",
    "track" := "tracknumber",
    "disc" := "discnumber",
    "year" := "date"
  ]

  /** The ID3 tags: tag name to text. */
  type Tags = map<string, string>

  /** The field whose value is written after a '/' for a numbered tag. */
  function TotalField(field: string): Option<string> {
    if field == "track" then Some("totalTracks")
    else if field == "disc" then Some("totalDiscs")
    else None
  }

  /** The text written for a field the track holds, or the KeyError of a missing total. */
  function TagValue(track: Track, field: string): Result<string, Error>
    requires field in track
  {
    match TotalField(field)
    case None => Ok(Str(track[field]))
    case Some(total) =>
      if total in track then Ok(Str(track[field]) + "/" + Str(track[total]))
      else Err(KeyError(total))
  }

  /** The exceptions the copy can raise, one per field whose total is missing; which of
      them is raised first depends on the table's iteration order. */
  function TagErrors(track: Track): set<Error> {
    (if "track" in track && "totalTracks" !in track then {KeyError("totalTracks")} else {})
    + (if "disc" in track && "totalDiscs" !in track then {KeyError("totalDiscs")} else {})
  }

  /** The same table read from the tag side: the field each tag is copied from. */
  const TagSources: map<string, string> := map[
    "title" := "name",
    "album" := "album",
    "genre" := "genre",
    "artist" := "artist",
    "performer" := "albumArtist",
    "tracknumber" := "track",
    "discnumber" := "disc",
    "date" := "year"
  ]

  /** `TagSources` is `TagFields` read backwards: distinct fields are written to distinct
      tags, so the order the table is walked in does not change the result. */
  lemma TagTablesInverse()
    ensures forall f :: f in TagFields ==> TagFields[f] in TagSources && TagSources[TagFields[f]] == f
    ensures forall t :: t in TagSources ==> TagSources[t] in TagFields && TagFields[TagSources[t]] == t
  {
  }

  /** The tags written for the fields in `fields`. */
  function TagsFor(track: Track, fields: set<string>): Tags
    requires fields <= TagFields.Keys
    requires forall field :: field in fields && field in track ==> TagValue(track, field).Ok?
  {
    map tag | tag in TagSources && TagSources[tag] in fields && TagSources[tag] in track
      :: TagValue(track, TagSources[tag]).value
  }

  /** A track that raises nothing has a value for every field of the table it holds. */
  lemma NoTagErrors(track: Track)
    requires TagErrors(track) == {}
    ensures forall field :: field in TagFields && field in track ==> TagValue(track, field).Ok?
  {
  }

  /** The tags of a track that raises nothing. */
  function TrackTags(track: Track): Tags
    requires TagErrors(track) == {}
  {
    NoTagErrors(track);
    TagsFor(track, TagFields.Keys)
  }

  // ---------------------------------------------------------------- the copy loop

  lemma TagsForStep(track: Track, done: set<string>, field: string)
    requires done <= TagFields.Keys && field in TagFields && field !in done
    requires forall f :: f in done + {field} && f in track ==> TagValue(track, f).Ok?
    ensures field in track ==>
              TagsFor(track, done + {field}) == TagsFor(track, done)[TagFields[field] := TagValue(track, field).value]
    ensures field !in track ==> TagsFor(track, done + {field}) == TagsFor(track, done)
  {
    TagTablesInverse();
  }

  /** The text one pass of the copy loop writes for a field the track holds: `str()` of the
      value, then "/" and the total for a numbered field, whose absence raises KeyError. */
  method FieldText(track: Track, field: string) returns (r: Result<string, Error>)
    requires field in track
    ensures r == TagValue(track, field)
    ensures r.Err? ==> r.error in TagErrors(track)
  {
    var value := Str(track[field]);
    if field == "track" {
      if "totalTracks" !in track {
        return Err(KeyError("totalTracks"));
      }
      value := value + "/" + Str(track["totalTracks"]);
    }
    if field == "disc" {
      if "totalDiscs" !in track {
        return Err(KeyError("totalDiscs"));
      }
      value := value + "/" + Str(track["totalDiscs"]);
    }
    return Ok(value);
  }

  /** `_copy_track_metadata`'s loop: walks the table in an arbitrary order (a Python 2 dict's),
      filling the tag dictionary; raises KeyError when a numbered field has no total. */
  method CopyTrackMetadata(track: Track) returns (r: Result<Tags, Error>)
    ensures r.Ok? <==> TagErrors(track) == {}
    ensures r.Ok? ==> r.value == TrackTags(track)
    ensures r.Err? ==> r.error in TagErrors(track)
  {
    var tags: Tags := map[];
    var pending := TagFields.Keys;
    while pending != {}
      invariant CopyInvariant(track, pending, tags)
      decreases pending
    {
      var field :| field in pending;
      if field in track {
        var value := FieldText(track, field);
        if value.Err? {
          return Err(value.error);
        }
        CopyStep(track, pending, tags, field);
        tags := tags[TagFields[field] := value.value];
      } else {
        CopyStep(track, pending, tags, field);
      }
      pending := pending - {field};
    }
    CopyDone(track, tags);
    return Ok(tags);
  }

  /** The state of the copy loop: `tags` holds the tags of the fields already walked, none of
      which raised. */
  ghost predicate CopyInvariant(track: Track, pending: set<string>, tags: Tags) {
    && pending <= TagFields.Keys
    && (forall f :: f in TagFields.Keys - pending && f in track ==> TagValue(track, f).Ok?)
    && tags == TagsFor(track, TagFields.Keys - pending)
  }

  lemma CopyStep(track: Track, pending: set<string>, tags: Tags, field: string)
    requires CopyInvariant(track, pending, tags) && field in pending
    requires field in track ==> TagValue(track, field).Ok?
    ensures field in track ==>
              CopyInvariant(track, pending - {field}, tags[TagFields[field] := TagValue(track, field).value])
    ensures field !in track ==> CopyInvariant(track, pending - {field}, tags)
  {
    var done := TagFields.Keys - pending;
    assert TagFields.Keys - (pending - {field}) == done + {field};
    TagsForStep(track, done, field);
  }

  lemma CopyDone(track: Track, tags: Tags)
    requires CopyInvariant(track, {}, tags)
    ensures TagErrors(track) == {} && tags == TrackTags(track)
  {
    assert TagFields.Keys - {} == TagFields.Keys;
  }

  // ---------------------------------------------------------------- properties

  /** A tag is written exactly when its field is in the track; the numbered tags read
      "number/total", every other tag is `str()` of the field. */
  lemma TrackTagsSpec(track: Track, field: string)
    requires TagErrors(track) == {} && field in TagFields
    ensures TagFields[field] in TrackTags(track) <==> field in track
    ensures field in track && field == "track" ==>
              && "totalTracks" in track
              && TrackTags(track)["tracknumber"] == Str(track["track"]) + "/" + Str(track["totalTracks"])
    ensures field in track && field == "disc" ==>
              && "totalDiscs" in track
              && TrackTags(track)["discnumber"] == Str(track["disc"]) + "/" + Str(track["totalDiscs"])
    ensures field in track && field != "track" && field != "disc" ==>
              TrackTags(track)[TagFields[field]] == Str(track[field])
  {
    TagTablesInverse();
    NoTagErrors(track);
  }

  /** Only the table's tags are ever written. */
  lemma TrackTagsKeys(track: Track)
    requires TagErrors(track) == {}
    ensures forall tag :: tag in TrackTags(track) ==> tag in TagFields.Values
  {
  }

  /** The errors listed are exactly those some field of the table raises. */
  lemma TagErrorsSpec(track: Track, e: Error)
    ensures e in TagErrors(track) <==>
            exists field :: field in TagFields && field in track && TagValue(track, field) == Err(e)
  {
    if e in TagErrors(track) {
      var field := if e == KeyError("totalTracks") then "track" else "disc";
      assert field in TagFields && field in track && TagValue(track, field) == Err(e);
    }
  }
}
