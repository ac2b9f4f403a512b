/**
 * Restoring the favourites library from its stored JSON snapshot
 * (components/MovieRecommendationsUI.tsx, the mount effect). The snapshot is
 * given already parsed; it may be a list of records (the format the client
 * writes) or an object from id to record (an older format).
 */
module Favorites {
  import opened Types
  import Catalog

  type Fields = seq<(string, Json)>

  /** A property of a parsed object; JSON.parse keeps the last of repeated names. */
  function FieldOf(fields: Fields, name: string): (r: Option<Json>)
    ensures r.None? <==> forall i :: 0 <= i < |fields| ==> fields[i].0 != name
    ensures r.Some? ==> (name, r.value) in fields
  {
    if fields == [] then None
    else if fields[|fields| - 1].0 == name then Some(fields[|fields| - 1].1)
    else
      var r := FieldOf(fields[..|fields| - 1], name);
      assert forall i :: 0 <= i < |fields| - 1 ==> fields[..|fields| - 1][i] == fields[i];
      r
  }

  /** `value ?? fallback` for a string property: undefined and null take the fallback. */
  function StringOr(v: Option<Json>, fallback: string): (r: string)
    ensures v.None? || v == Some(JNull) ==> r == fallback
    ensures v.Some? && v.value.JString? ==> r == v.value.s
  {
    match v
    case Some(JString(s)) => s
    case _ => fallback
  }

  /** JavaScript truthiness of a parsed value. */
  predicate Truthy(v: Json) {
    match v
    case JNull => false
    case JBool(b) => b
    case JNumber(n) => n != 0.0
    case JString(s) => s != ""
    case _ => true
  }

  function JoinWithCommas(parts: seq<string>): string {
    if parts == [] then ""
    else if |parts| == 1 then parts[0]
    else JoinWithCommas(parts[..|parts| - 1]) + "," + parts[|parts| - 1]
  }

  /** Numbers that Number::toString writes as plain decimal integers. */
  predicate PlainInteger(n: real) {
    n.Floor as real == n && -1000000000000000000000.0 < n < 1000000000000000000000.0
  }

  /**
   * String(value). Integers below 1e21 in magnitude are written in decimal
   * like the catalogue's ids; every other number is written by `numberText`,
   * the rest of the platform's Number::toString. Arrays are joined with
   * commas, null elements as "".
   */
  function JsString(v: Json, numberText: real -> string): string
    decreases v
  {
    match v
    case JNull => "null"
    case JBool(b) => if b then "true" else "false"
    case JNumber(n) => if PlainInteger(n) then Catalog.IntToDecimal(n.Floor) else numberText(n)
    case JString(s) => s
    case JArray(items) =>
      JoinWithCommas(seq(|items|, i requires 0 <= i < |items| =>
        if items[i] == JNull then "" else JsString(items[i], numberText)))
    case JObject(_) => "[object Object]"
  }

  /**
   * String of an array with one non-null element is String of that element,
   * so an id stored as [42] restores like 42; the empty array gives "".
   */
  lemma JsStringSingleton(x: Json, numberText: real -> string)
    requires x != JNull
    ensures JsString(JArray([x]), numberText) == JsString(x, numberText)
    ensures JsString(JArray([]), numberText) == ""
  {
  }

  /** movie.genres.filter((item) => typeof item === "string") */
  function StringItems(items: seq<Json>): (r: seq<string>)
    ensures |r| <= |items|
    ensures forall s :: s in r <==> JString(s) in items
  {
    if items == [] then []
    else
      var rest := StringItems(items[1..]);
      assert forall x :: x in items <==> x == items[0] || x in items[1..];
      (if items[0].JString? then [items[0].s] else []) + rest
  }

  /** One restored record under identifier `id`. */
  function RecordFrom(id: string, fields: Fields): (r: UiMovie)
    ensures r.id == id
  {
    var genres := FieldOf(fields, "genres");
    var rating := FieldOf(fields, "rating");
    var runtime := FieldOf(fields, "runtime");
    var trending := FieldOf(fields, "trending");
    UiMovie(
      id,
      StringOr(FieldOf(fields, "title"), "Untitled"),
      StringOr(FieldOf(fields, "year"), "-"),
      if genres.Some? && genres.value.JArray? then StringItems(genres.value.items) else [],
      if rating.Some? && rating.value.JNumber? then rating.value.n else 0.0,
      if runtime.Some? && runtime.value.JNumber? then Some(runtime.value.n) else None,
      StringOr(FieldOf(fields, "poster"), Catalog.FallbackPoster),
      StringOr(FieldOf(fields, "overview"), ""),
      Some(trending.Some? && Truthy(trending.value)),
      if FieldOf(fields, "mediaType") == Some(JString("tv")) then Tv else Movie)
  }

  /**
   * The restored record, property by property: missing or null text fields
   * take their defaults, genres come only from string items of an array, a
   * rating or runtime counts only when it is a number, `trending` is the
   * field's truthiness, and the media type is tv only for exactly "tv".
   */
  lemma RecordFromFields(id: string, fields: Fields)
    ensures var r, title := RecordFrom(id, fields), FieldOf(fields, "title");
      (title in {None, Some(JNull)} ==> r.title == "Untitled") &&
      (title.Some? && title.value.JString? ==> r.title == title.value.s)
    ensures var r := RecordFrom(id, fields);
      (FieldOf(fields, "year") in {None, Some(JNull)} ==> r.year == "-") &&
      (FieldOf(fields, "poster") in {None, Some(JNull)} ==> r.poster == Catalog.FallbackPoster) &&
      (FieldOf(fields, "overview") in {None, Some(JNull)} ==> r.overview == "")
    ensures var r, genres := RecordFrom(id, fields), FieldOf(fields, "genres");
      forall g :: g in r.genres <==> genres.Some? && genres.value.JArray? && JString(g) in genres.value.items
    ensures var r, rating := RecordFrom(id, fields), FieldOf(fields, "rating");
      r.rating == if rating.Some? && rating.value.JNumber? then rating.value.n else 0.0
    ensures var r, runtime := RecordFrom(id, fields), FieldOf(fields, "runtime");
      r.runtime.Some? <==> runtime.Some? && runtime.value.JNumber?
    ensures var r, trending := RecordFrom(id, fields), FieldOf(fields, "trending");
      r.trending.Some? && (r.trending.value <==> trending.Some? && Truthy(trending.value))
    ensures RecordFrom(id, fields).mediaType == Tv <==> FieldOf(fields, "mediaType") == Some(JString("tv"))
  {
  }

  /**
   * The identifier of an entry of the list format: only an object whose `id`
   * is neither missing nor null has one, and it is String(id).
   */
  function EntryId(entry: Json, numberText: real -> string): (r: Option<string>)
    ensures r.Some? <==> entry.JObject? && FieldOf(entry.fields, "id") !in {None, Some(JNull)}
    ensures entry.JObject? && FieldOf(entry.fields, "id").Some? && FieldOf(entry.fields, "id").value.JString? ==>
      r == Some(FieldOf(entry.fields, "id").value.s)
  {
    match entry
    case JObject(fields) =>
      (match FieldOf(fields, "id")
       case None => None
       case Some(JNull) => None
       case Some(v) => Some(JsString(v, numberText)))
    case _ => None
  }

  /** The identifiers the list format stores: those of the entries that have one. */
  function ListIds(entries: seq<Json>, numberText: real -> string): set<string> {
    if entries == [] then {}
    else
      ListIds(entries[..|entries| - 1], numberText) +
      (match EntryId(entries[|entries| - 1], numberText) case None => {} case Some(id) => {id})
  }

  /** The list format: each entry with an identifier is stored under it; a later entry overwrites. */
  function LibraryFromList(entries: seq<Json>, numberText: real -> string): (library: map<string, UiMovie>)
    ensures Catalog.KeysMatchIds(library)
    ensures library.Keys == ListIds(entries, numberText)
  {
    if entries == [] then map[]
    else
      var library := LibraryFromList(entries[..|entries| - 1], numberText);
      var last := entries[|entries| - 1];
      match EntryId(last, numberText)
      case None => library
      case Some(id) => library[id := RecordFrom(id, last.fields)]
  }

  /** The keys the object format stores: those whose value is an object or an array. */
  function ObjectIds(entries: Fields): set<string> {
    if entries == [] then {}
    else
      var (id, v) := entries[|entries| - 1];
      ObjectIds(entries[..|entries| - 1]) + (if v.JObject? || v.JArray? then {id} else {})
  }

  /** The object format: each value that is an object (an array counts, with no fields) is stored under its key. */
  function LibraryFromObject(entries: Fields): (library: map<string, UiMovie>)
    ensures Catalog.KeysMatchIds(library)
    ensures library.Keys == ObjectIds(entries)
  {
    if entries == [] then map[]
    else
      var library := LibraryFromObject(entries[..|entries| - 1]);
      var (id, v) := entries[|entries| - 1];
      match v
      case JObject(fields) => library[id := RecordFrom(id, fields)]
      case JArray(_) => library[id := RecordFrom(id, [])]
      case _ => library
  }

  /** The restored library: nothing for a missing or unreadable snapshot or one that is neither list nor object. */
  function Restored(parsed: Option<Json>, numberText: real -> string): (library: map<string, UiMovie>)
    ensures Catalog.KeysMatchIds(library)
    ensures parsed.None? ==> library == map[]
    ensures parsed.Some? && !parsed.value.JArray? && !parsed.value.JObject? ==> library == map[]
    ensures parsed.Some? && parsed.value.JArray? ==> library == LibraryFromList(parsed.value.items, numberText)
    ensures parsed.Some? && parsed.value.JObject? ==> library == LibraryFromObject(parsed.value.fields)
  {
    match parsed
    case Some(JArray(entries)) => LibraryFromList(entries, numberText)
    case Some(JObject(fields)) => LibraryFromObject(fields)
    case _ => map[]
  }

  /**
   * In the list format an identifier is restored exactly when some entry
   * carries it, and it holds the record built from the last such entry.
   */
  lemma {:induction false} LibraryFromListAt(entries: seq<Json>, numberText: real -> string, i: int)
    requires 0 <= i < |entries| && EntryId(entries[i], numberText).Some?
    requires forall j :: i < j < |entries| ==> EntryId(entries[j], numberText) != EntryId(entries[i], numberText)
    ensures var id := EntryId(entries[i], numberText).value;
      id in LibraryFromList(entries, numberText) &&
      LibraryFromList(entries, numberText)[id] == RecordFrom(id, entries[i].fields)
  {
    if i < |entries| - 1 {
      var init := entries[..|entries| - 1];
      assert forall j :: i < j < |init| ==> init[j] == entries[j];
      LibraryFromListAt(init, numberText, i);
    }
  }

  /** ...and entries without an identifier contribute nothing. */
  lemma {:induction false} LibraryFromListKeys(entries: seq<Json>, numberText: real -> string, id: string)
    ensures id in LibraryFromList(entries, numberText) <==>
      exists i :: 0 <= i < |entries| && EntryId(entries[i], numberText) == Some(id)
  {
    ListIdsMembers(entries, numberText, id);
  }

  lemma {:induction false} ListIdsMembers(entries: seq<Json>, numberText: real -> string, id: string)
    ensures id in ListIds(entries, numberText) <==>
      exists i :: 0 <= i < |entries| && EntryId(entries[i], numberText) == Some(id)
  {
    if entries != [] {
      var init := entries[..|entries| - 1];
      ListIdsMembers(init, numberText, id);
      if exists i :: 0 <= i < |entries| && EntryId(entries[i], numberText) == Some(id) {
        var i :| 0 <= i < |entries| && EntryId(entries[i], numberText) == Some(id);
        if i < |init| {
          assert init[i] == entries[i];
        }
      }
      if exists i :: 0 <= i < |init| && EntryId(init[i], numberText) == Some(id) {
        var i :| 0 <= i < |init| && EntryId(init[i], numberText) == Some(id);
        assert init[i] == entries[i];
      }
    }
  }

  /** In the object format the keys are those whose value is an object or an array. */
  lemma {:induction false} LibraryFromObjectKeys(entries: Fields, id: string)
    ensures id in LibraryFromObject(entries) <==>
      exists i :: 0 <= i < |entries| && entries[i].0 == id && (entries[i].1.JObject? || entries[i].1.JArray?)
  {
    ObjectIdsMembers(entries, id);
  }

  lemma {:induction false} ObjectIdsMembers(entries: Fields, id: string)
    ensures id in ObjectIds(entries) <==>
      exists i :: 0 <= i < |entries| && entries[i].0 == id && (entries[i].1.JObject? || entries[i].1.JArray?)
  {
    if entries != [] {
      var init := entries[..|entries| - 1];
      ObjectIdsMembers(init, id);
      assert forall i :: 0 <= i < |init| ==> init[i] == entries[i];
    }
  }

  /** likes after a restore: every restored id, and only those, is liked. */
  function LikesFor(library: map<string, UiMovie>): (likes: map<string, bool>)
    ensures likes.Keys == library.Keys
    ensures forall k :: k in likes ==> likes[k]
  {
    map k | k in library :: true
  }

  /** The restore loop: the library is filled entry by entry, as the forEach does. */
  method BuildLibrary(parsed: Option<Json>, numberText: real -> string) returns (library: map<string, UiMovie>)
    ensures library == Restored(parsed, numberText)
  {
    match parsed {
      case Some(JArray(entries)) =>
        library := ListLibrary(entries, numberText);
      case Some(JObject(fields)) =>
        library := ObjectLibrary(fields);
      case _ =>
        library := map[];
    }
  }

  /** The forEach over the list format. */
  method ListLibrary(entries: seq<Json>, numberText: real -> string) returns (library: map<string, UiMovie>)
    ensures library == LibraryFromList(entries, numberText)
  {
    library := map[];
    var i := 0;
    while i < |entries|
      invariant 0 <= i <= |entries|
      invariant library == LibraryFromList(entries[..i], numberText)
    {
      assert entries[..i + 1][..i] == entries[..i];
      var entry := entries[i];
      var id := EntryId(entry, numberText);
      if id.Some? {
        library := library[id.value := RecordFrom(id.value, entry.fields)];
      }
      i := i + 1;
    }
    assert entries[..i] == entries;
  }

  /** The forEach over the object format. */
  method ObjectLibrary(fields: Fields) returns (library: map<string, UiMovie>)
    ensures library == LibraryFromObject(fields)
  {
    library := map[];
    var i := 0;
    while i < |fields|
      invariant 0 <= i <= |fields|
      invariant library == LibraryFromObject(fields[..i])
    {
      assert fields[..i + 1][..i] == fields[..i];
      var (id, v) := fields[i];
      if v.JObject? {
        library := library[id := RecordFrom(id, v.fields)];
      } else if v.JArray? {
        library := library[id := RecordFrom(id, [])];
      }
      i := i + 1;
    }
    assert fields[..i] == fields;
  }
}
