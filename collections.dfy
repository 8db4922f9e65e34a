/** The collections catalogue: turning raw catalogue rows into
    collections, and decoding a row's `fid` field into the volume-to-video
    list of a collection. */
module Collections {
  import opened Wrappers
  import opened Seqs
  import Decimal
  import opened FidUtils

  /** A catalogue row; the name fields may be missing or `null`. */
  datatype RawCollection = RawCollection(authorName: Option<string>, displayName: Option<string>,
                                         fid: Option<string>, id: int)

  /** A collection; `fid` is absent unless the row's `fid` decoded to a list. */
  datatype Collection = Collection(id: string, title: string, fid: Option<seq<ForeignId>>)

  /** Why `getCollection` throws: no row came back, or the `fid` field looked
      like a JSON object but did not parse. */
  datatype CollectionError = NotFound | MalformedFid(fid: string)

  /** `[display_name, author_name].filter(Boolean)`. */
  function TitleParts(c: RawCollection): seq<string>
  {
    (if TruthyString(c.displayName) then [c.displayName.value] else []) +
    (if TruthyString(c.authorName) then [c.authorName.value] else [])
  }

  /** `mapRawToCollection`. */
  function MapRawToCollection(c: RawCollection): Collection
  {
    Collection(Decimal.IntToString(c.id), Join(", ", TitleParts(c)), None)
  }

  /** The id is the decimal numeral of the numeric id: it reads back as that number. */
  lemma CollectionIdRoundTrip(c: RawCollection)
    ensures var s := MapRawToCollection(c).id;
      |s| >= 1 && (forall i :: (if s[0] == '-' then 1 else 0) <= i < |s| ==> Decimal.IsDigit(s[i])) &&
      Decimal.ParseInt(s) == c.id
  {
    Decimal.IntRoundTrip(c.id);
  }

  /** The title is the display name and the author name joined by ", ",
      leaving out whichever is empty or missing. */
  lemma TitleCases(c: RawCollection)
    ensures var t := MapRawToCollection(c).title;
      var d, a := TruthyString(c.displayName), TruthyString(c.authorName);
      (d && a ==> t == c.displayName.value + ", " + c.authorName.value) &&
      (d && !a ==> t == c.displayName.value) &&
      (!d && a ==> t == c.authorName.value) &&
      (!d && !a ==> t == "")
  {
    var parts := TitleParts(c);
    if TruthyString(c.displayName) && TruthyString(c.authorName) {
      assert parts == [c.displayName.value, c.authorName.value];
      assert parts[1..] == [c.authorName.value];
      assert Join(", ", parts[1..]) == c.authorName.value;
    }
  }

  /** `getCollections`: one collection per row, in row order. */
  function GetCollections(data: seq<RawCollection>): (r: seq<Collection>)
    ensures |r| == |data|
    ensures forall i :: 0 <= i < |data| ==> r[i] == MapRawToCollection(data[i])
  {
    if data == [] then [] else [MapRawToCollection(data[0])] + GetCollections(data[1..])
  }

  /** Whether `fid` starts with `{"` and ends with `"}`; the two may
      overlap, as in `{"}`. */
  predicate LooksLikeObject(fid: string)
  {
    |fid| >= 2 && fid[..2] == "{\"" && fid[|fid| - 2..] == "\"}"
  }

  /** `Object.entries(volumeToVideoId).map(...)`: each entry's key read
      as the volume and its value as the video id. */
  function EntriesToFids(entries: seq<(string, string)>, parseVolume: string -> int): (r: seq<ForeignId>)
    ensures |r| == |entries|
    ensures forall i :: 0 <= i < |entries| ==> r[i] == ForeignId(entries[i].1, parseVolume(entries[i].0))
  {
    if entries == [] then [] else [ForeignId(entries[0].1, parseVolume(entries[0].0))] + EntriesToFids(entries[1..], parseVolume)
  }

  /** The `fid` decoding of `getCollection`. `parseObject` stands for
      `JSON.parse` followed by `Object.entries` (in the order the
      entries are enumerated; no value when the text does not parse), and
      `parseVolume` for `parseInt`. An object-looking `fid` gives one fid
      per parsed entry, or the parse error; any other non-empty `fid` is a
      single video of volume 1; an empty or missing one gives no list. */
  function DecodeFid(fid: Option<string>, parseObject: string -> Option<seq<(string, string)>>,
                     parseVolume: string -> int): (r: Result<Option<seq<ForeignId>>, CollectionError>)
    ensures r.Failure? <==> fid.Some? && LooksLikeObject(fid.value) && parseObject(fid.value).None?
    ensures r.Failure? ==> r.error == MalformedFid(fid.value)
    ensures fid.Some? && LooksLikeObject(fid.value) && parseObject(fid.value).Some? ==>
              var entries := parseObject(fid.value).value;
              r.Success? && r.value.Some? && |r.value.value| == |entries| &&
              forall i :: 0 <= i < |entries| ==> r.value.value[i] == ForeignId(entries[i].1, parseVolume(entries[i].0))
    ensures TruthyString(fid) && !LooksLikeObject(fid.value) ==> r == Success(Some([ForeignId(fid.value, 1)]))
    ensures !TruthyString(fid) ==> r == Success(None)
  {
    if fid.Some? && LooksLikeObject(fid.value) then
      match parseObject(fid.value)
      case None => Failure(MalformedFid(fid.value))
      case Some(entries) => Success(Some(EntriesToFids(entries, parseVolume)))
    else if TruthyString(fid) then Success(Some([ForeignId(fid.value, 1)]))
    else Success(None)
  }

  /** `getCollection`: the collection has the first row's id and title and
      its decoded `fid`; an empty answer is an error. */
  function GetCollection(rows: seq<RawCollection>, parseObject: string -> Option<seq<(string, string)>>,
                         parseVolume: string -> int): (r: Result<Collection, CollectionError>)
    ensures rows == [] ==> r == Failure(NotFound)
    ensures rows != [] ==>
              var decoded := DecodeFid(rows[0].fid, parseObject, parseVolume);
              (r.Success? <==> decoded.Success?) &&
              (r.Failure? ==> r.error == decoded.error) &&
              (r.Success? ==> r.value.id == Decimal.IntToString(rows[0].id) &&
                              r.value.title == Join(", ", TitleParts(rows[0])) && r.value.fid == decoded.value)
  {
    if rows == [] then Failure(NotFound)
    else
      var result := MapRawToCollection(rows[0]);
      match DecodeFid(rows[0].fid, parseObject, parseVolume)
      case Failure(e) => Failure(e)
      case Success(fids) => Success(result.(fid := fids))
  }

  /** A row whose `fid` is a plain video id gives a one-volume collection. */
  lemma PlainFidIsOneVolume(rows: seq<RawCollection>, parseObject: string -> Option<seq<(string, string)>>,
                            parseVolume: string -> int)
    requires rows != [] && TruthyString(rows[0].fid) && !LooksLikeObject(rows[0].fid.value)
    ensures var r := GetCollection(rows, parseObject, parseVolume);
      r.Success? && r.value.fid == Some([ForeignId(rows[0].fid.value, 1)]) &&
      r.value.title == Join(", ", TitleParts(rows[0]))
  {
    assert DecodeFid(rows[0].fid, parseObject, parseVolume) == Success(Some([ForeignId(rows[0].fid.value, 1)]));
  }
}
