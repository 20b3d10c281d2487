/** The backend of the ingredient search service (backend/server.js): the
    record list kept in data/ingredients.json, the Fuse index over it, and
    the three request handlers that read and change them.

    The collaborators the server cannot see into are parameters: the name
    normaliser and the description synthesiser (backend/openai.js), and the
    ranking the Fuse library computes over the collection it was last given. */
module Server {
  import opened Wrappers
  import opened Text

  /** A record of the store, or a suggestion sent to the client. Stored
      records and those the server appends have `aiGenerated == false`. */
  datatype Ingredient = Ingredient(name: string, image: string, description: string, aiGenerated: bool)

  /** What the synthesiser returns besides the name it was asked about (its
      `name` field is always that argument). */
  datatype Generated = Generated(description: string, image: string)

  /** The data file: a JSON array of records, or text that does not parse. */
  datatype FileContents = Json(records: seq<Ingredient>) | Malformed

  /** Which tier of the resolver answered a search. */
  datatype Tier = Exact | Fuzzy | Synthesized

  /** The body of a search response; `SearchFailed` is the 500 reply. */
  datatype SearchReply =
    | Resolved(tier: Tier, interpreted: string, suggestions: seq<Ingredient>)
    | SearchFailed
  {
    /** Whether the response carries the top-level `aiGenerated: true`. */
    predicate AiGenerated()
    {
      Resolved? && tier == Synthesized
    }
  }

  /** The body of an add or delete response: a 400 reply, a 500 reply, or a
      200 reply with its `success`, `message` and optional `ingredient`. */
  datatype MutationReply =
    | ClientError(message: string)
    | ServerError(message: string)
    | Done(success: bool, message: string, ingredient: Option<Ingredient>)

  /** `interpretName`: fails when the language-model service fails. */
  type Normalizer = string -> Option<string>
  /** `generateIngredientInfo`: fails when the language-model service fails. */
  type Synthesizer = string -> Option<Generated>
  /** `fuse.search`: the items of the given collection matching the query,
      best first. */
  type Ranking = (seq<Ingredient>, string) -> seq<Ingredient>

  /** Fuzzy search answers with at most this many suggestions. */
  const FuzzyLimit := 3

  /** A Fuse ranking only ever returns items of the collection it searches. */
  ghost predicate DrawsFromCollection(rank: Ranking)
  {
    forall collection, query, x :: x in rank(collection, query) ==> x in collection
  }

  /** JavaScript truthiness of an optional string field: the falsy fields
      are the missing one and the empty string. */
  function Present(field: Option<string>): (present: bool)
    ensures present <==> !(field == None || field == Some(""))
  {
    field.Some? && |field.value| > 0
  }

  /** The lookup key of a search: the request text trimmed and lower-cased. */
  function QueryKey(text: string): (key: string)
    ensures |key| <= |text|
    ensures IsTrimmed(key)
    ensures forall i :: 0 <= i < |key| ==> !IsUpper(key[i])
  {
    LowerKeepsTrimmed(Trim(text));
    Lower(Trim(text))
  }

  /** Whether a record's name equals `key` once lower-cased. */
  predicate Named(record: Ingredient, key: string)
  {
    Lower(record.name) == key
  }

  /** No two records have names that are equal once lower-cased. */
  ghost predicate CaseUnique(records: seq<Ingredient>)
  {
    forall i, j :: 0 <= i < j < |records| ==> Lower(records[i].name) != Lower(records[j].name)
  }

  // ---------------------------------------------------------------------------
  // Scanning the record list
  // ---------------------------------------------------------------------------

  /** The index of the first record named `key`, if there is one. */
  function FirstMatch(records: seq<Ingredient>, key: string): (r: Option<nat>)
    ensures r.Some? ==> r.value < |records| && Named(records[r.value], key)
    ensures r.Some? ==> forall j :: 0 <= j < r.value ==> !Named(records[j], key)
    ensures r.None? <==> forall j :: 0 <= j < |records| ==> !Named(records[j], key)
  {
    if records == [] then None
    else if Named(records[0], key) then Some(0)
    else match FirstMatch(records[1..], key)
      case None => None
      case Some(i) => Some(i + 1)
  }

  /** The linear scan behind `find`, `some` and `findIndex`: the index of the
      first record named `key`, or -1. */
  method FindIndex(records: seq<Ingredient>, key: string) returns (index: int)
    ensures index == -1 <==> FirstMatch(records, key).None?
    ensures index != -1 ==> FirstMatch(records, key) == Some(index)
  {
    index := 0;
    while index < |records|
      invariant 0 <= index <= |records|
      invariant forall j :: 0 <= j < index ==> !Named(records[j], key)
    {
      if Named(records[index], key) {
        return;
      }
      index := index + 1;
    }
    index := -1;
  }

  /** How many records are named `key`. */
  function CountNamed(records: seq<Ingredient>, key: string): nat
  {
    if records == [] then 0
    else (if Named(records[0], key) then 1 else 0) + CountNamed(records[1..], key)
  }

  lemma {:induction false} CountNamedConcat(a: seq<Ingredient>, b: seq<Ingredient>, key: string)
    ensures CountNamed(a + b, key) == CountNamed(a, key) + CountNamed(b, key)
  {
    if a != [] {
      assert (a + b)[1..] == a[1..] + b;
      CountNamedConcat(a[1..], b, key);
    } else {
      assert a + b == b;
    }
  }

  /** No record is named `key` exactly when the scan finds none. */
  lemma {:induction false} CountNamedZero(records: seq<Ingredient>, key: string)
    ensures CountNamed(records, key) == 0 <==> FirstMatch(records, key).None?
  {
    if records != [] {
      CountNamedZero(records[1..], key);
    }
  }

  // ---------------------------------------------------------------------------
  // The store as a value: what add and delete do to the record list
  // ---------------------------------------------------------------------------

  /** The record list after an add of `item`: unchanged when a record with the
      same lower-cased name exists, otherwise `item` appended. */
  function Insert(records: seq<Ingredient>, item: Ingredient): (r: seq<Ingredient>)
    ensures |records| <= |r| && r[..|records|] == records
    ensures r == records <==> FirstMatch(records, Lower(item.name)).Some?
    ensures r != records ==> r == records + [item]
  {
    if FirstMatch(records, Lower(item.name)).Some? then records else records + [item]
  }

  /** The list with the record at `i` spliced out. */
  function RemoveAt(records: seq<Ingredient>, i: nat): (r: seq<Ingredient>)
    requires i < |records|
    ensures |r| == |records| - 1
    ensures forall j :: 0 <= j < i ==> r[j] == records[j]
    ensures forall j :: i <= j < |r| ==> r[j] == records[j + 1]
  {
    records[..i] + records[i + 1..]
  }

  /** The record list after a delete of `key`: the first record named `key`
      removed, or the list unchanged when there is none. */
  function RemoveFirst(records: seq<Ingredient>, key: string): (r: seq<Ingredient>)
    ensures r == records <==> FirstMatch(records, key).None?
    ensures FirstMatch(records, key).Some? ==>
      var i := FirstMatch(records, key).value;
      |r| == |records| - 1 && multiset(r) + multiset{records[i]} == multiset(records)
  {
    match FirstMatch(records, key)
    case None => records
    case Some(i) =>
      assert records == records[..i] + [records[i]] + records[i + 1..];
      RemoveAt(records, i)
  }

  /** An add never creates a case-insensitive duplicate. */
  lemma InsertKeepsCaseUnique(records: seq<Ingredient>, item: Ingredient)
    requires CaseUnique(records)
    ensures CaseUnique(Insert(records, item))
  {
    var r := Insert(records, item);
    if r != records {
      forall i, j | 0 <= i < j < |r|
        ensures Lower(r[i].name) != Lower(r[j].name)
      {
        if j == |records| {
          assert !Named(records[i], Lower(item.name));
        } else {
          assert r[i] == records[i] && r[j] == records[j];
        }
      }
    }
  }

  /** After an add, some record carries the added name. */
  lemma InsertedNamePresent(records: seq<Ingredient>, item: Ingredient)
    ensures FirstMatch(Insert(records, item), Lower(item.name)).Some?
  {
    var r := Insert(records, item);
    if r != records {
      assert Named(r[|records|], Lower(item.name));
    }
  }

  /** A second add of a name already added, in any case, changes nothing. */
  lemma InsertTwiceIsInsertOnce(records: seq<Ingredient>, first: Ingredient, second: Ingredient)
    requires Lower(second.name) == Lower(first.name)
    ensures Insert(Insert(records, first), second) == Insert(records, first)
  {
    InsertedNamePresent(records, first);
  }

  /** In a store holding at most one record of a name, an add of that name
      (in any case) leaves exactly one. */
  lemma InsertLeavesOne(records: seq<Ingredient>, item: Ingredient)
    requires CountNamed(records, Lower(item.name)) <= 1
    ensures CountNamed(Insert(records, item), Lower(item.name)) == 1
  {
    var key := Lower(item.name);
    CountNamedZero(records, key);
    if FirstMatch(records, key).None? {
      CountNamedConcat(records, [item], key);
      assert [item][1..] == [];
    }
  }

  /** Splicing out one record lowers the count of its name by one and
      leaves every other count as it was. */
  lemma CountNamedRemoveAt(records: seq<Ingredient>, i: nat, key: string)
    requires i < |records|
    ensures CountNamed(records, key) ==
      CountNamed(RemoveAt(records, i), key) + (if Named(records[i], key) then 1 else 0)
  {
    var front, back := records[..i], records[i + 1..];
    assert records == front + [records[i]] + back;
    CountNamedConcat(front + [records[i]], back, key);
    CountNamedConcat(front, [records[i]], key);
    CountNamedConcat(front, back, key);
    assert [records[i]][1..] == [];
  }

  /** Deleting removes exactly one record named `key` when there is one (any
      later records of that name survive), and none otherwise. */
  lemma RemoveFirstCount(records: seq<Ingredient>, key: string)
    ensures CountNamed(records, key) == 0 ==> RemoveFirst(records, key) == records
    ensures CountNamed(RemoveFirst(records, key), key) ==
      if CountNamed(records, key) == 0 then 0 else CountNamed(records, key) - 1
    ensures |RemoveFirst(records, key)| ==
      if CountNamed(records, key) == 0 then |records| else |records| - 1
  {
    CountNamedZero(records, key);
    match FirstMatch(records, key)
    case None =>
    case Some(i) => CountNamedRemoveAt(records, i, key);
  }

  /** Deleting `key` leaves the count of every other name as it was. */
  lemma RemoveFirstKeepsOthers(records: seq<Ingredient>, key: string, other: string)
    requires other != key
    ensures CountNamed(RemoveFirst(records, key), other) == CountNamed(records, other)
  {
    match FirstMatch(records, key)
    case None =>
    case Some(i) => CountNamedRemoveAt(records, i, other);
  }

  /** A delete never creates a case-insensitive duplicate, and in a store
      without duplicates it leaves no record of the deleted name. */
  lemma RemoveFirstKeepsCaseUnique(records: seq<Ingredient>, key: string)
    requires CaseUnique(records)
    ensures CaseUnique(RemoveFirst(records, key))
    ensures FirstMatch(RemoveFirst(records, key), key).None?
  {
    match FirstMatch(records, key)
    case None =>
    case Some(k) =>
      var r := RemoveAt(records, k);
      forall i, j | 0 <= i < j < |r|
        ensures Lower(r[i].name) != Lower(r[j].name)
      {
        var i' := if i < k then i else i + 1;
        var j' := if j < k then j else j + 1;
        assert r[i] == records[i'] && r[j] == records[j'];
      }
      forall j | 0 <= j < |r|
        ensures !Named(r[j], key)
      {
        var j' := if j < k then j else j + 1;
        assert r[j] == records[j'];
      }
  }

  // ---------------------------------------------------------------------------
  // The three-tier resolver
  // ---------------------------------------------------------------------------

  /** The first three hits of a Fuse search (`slice(0, 3)`). */
  function FuzzyHits(ranked: seq<Ingredient>): (hits: seq<Ingredient>)
    ensures |hits| <= FuzzyLimit
    ensures |hits| == FuzzyLimit || |hits| == |ranked|
    ensures |hits| <= |ranked| && hits == ranked[..|hits|]
  {
    if |ranked| <= FuzzyLimit then ranked else ranked[..FuzzyLimit]
  }

  /** The reply to a search for `text` against the freshly read `records`,
      whose Fuse index has just been given `records`. */
  function Resolve(records: seq<Ingredient>, text: string, normalize: Normalizer,
                   synthesize: Synthesizer, rank: Ranking): (reply: SearchReply)
    ensures reply.Resolved? ==> 1 <= |reply.suggestions| <= FuzzyLimit
    ensures reply.Resolved? ==> (reply.tier == Exact <==> FirstMatch(records, QueryKey(text)).Some?)
    ensures reply.Resolved? && reply.tier == Exact ==>
      reply.interpreted == QueryKey(text) && Named(reply.suggestions[0], QueryKey(text))
  {
    var key := QueryKey(text);
    match FirstMatch(records, key)
    case Some(i) => Resolved(Exact, key, [records[i]])
    case None =>
      match normalize(key)
      case None => SearchFailed
      case Some(interpreted) =>
        var hits := FuzzyHits(rank(records, Lower(interpreted)));
        if |hits| > 0 then Resolved(Fuzzy, interpreted, hits)
        else
          match synthesize(interpreted)
          case None => SearchFailed
          case Some(g) =>
            Resolved(Synthesized, interpreted, [Ingredient(interpreted, g.image, g.description, true)])
  }

  /** Tier 1: when a record's lower-cased name is the trimmed, lower-cased
      query, the first such record is the only suggestion and `interpreted`
      is that key, whatever the normaliser, the index and the synthesiser do. */
  lemma ExactTierShortCircuits(records: seq<Ingredient>, text: string, i: nat,
                               normalize: Normalizer, synthesize: Synthesizer, rank: Ranking)
    requires i < |records| && Named(records[i], QueryKey(text))
    requires forall j :: 0 <= j < i ==> !Named(records[j], QueryKey(text))
    ensures Resolve(records, text, normalize, synthesize, rank) == Resolved(Exact, QueryKey(text), [records[i]])
  {
    var m := FirstMatch(records, QueryKey(text));
    assert m.Some? && m.value == i;
  }

  /** Tiers 2 to 4: on a miss, every reply is a failure or carries exactly
      the normaliser's output as `interpreted`; a normaliser failure fails
      the search. */
  lemma MissIsInterpretedByNormalizer(records: seq<Ingredient>, text: string,
                                      normalize: Normalizer, synthesize: Synthesizer, rank: Ranking)
    requires forall j :: 0 <= j < |records| ==> !Named(records[j], QueryKey(text))
    ensures normalize(QueryKey(text)).None? ==> Resolve(records, text, normalize, synthesize, rank) == SearchFailed
    ensures Resolve(records, text, normalize, synthesize, rank).Resolved? ==>
      && Resolve(records, text, normalize, synthesize, rank).tier != Exact
      && normalize(QueryKey(text)) == Some(Resolve(records, text, normalize, synthesize, rank).interpreted)
  {
  }

  /** Tier 3: when the index ranks anything for the lower-cased normalised
      name, the suggestions are its first min(3, n) items, in order. */
  lemma FuzzyTierTakesTopHits(records: seq<Ingredient>, text: string, interpreted: string,
                              normalize: Normalizer, synthesize: Synthesizer, rank: Ranking)
    requires forall j :: 0 <= j < |records| ==> !Named(records[j], QueryKey(text))
    requires normalize(QueryKey(text)) == Some(interpreted)
    requires rank(records, Lower(interpreted)) != []
    ensures var reply := Resolve(records, text, normalize, synthesize, rank);
      var ranked := rank(records, Lower(interpreted));
      && reply.Resolved? && reply.tier == Fuzzy && reply.interpreted == interpreted
      && 1 <= |reply.suggestions| <= FuzzyLimit
      && (|reply.suggestions| == FuzzyLimit || |reply.suggestions| == |ranked|)
      && forall k :: 0 <= k < |reply.suggestions| ==> reply.suggestions[k] == ranked[k]
  {
    var hits := FuzzyHits(rank(records, Lower(interpreted)));
    assert |hits| > 0;
  }

  /** Tier 4: when the index ranks nothing, the only suggestion is the
      synthesised record, flagged and named after `interpreted`. */
  lemma SynthesisTierWhenFuzzyEmpty(records: seq<Ingredient>, text: string, interpreted: string,
                                    normalize: Normalizer, synthesize: Synthesizer, rank: Ranking)
    requires forall j :: 0 <= j < |records| ==> !Named(records[j], QueryKey(text))
    requires normalize(QueryKey(text)) == Some(interpreted)
    requires rank(records, Lower(interpreted)) == []
    ensures synthesize(interpreted).None? ==> Resolve(records, text, normalize, synthesize, rank) == SearchFailed
    ensures synthesize(interpreted).Some? ==>
      var g := synthesize(interpreted).value;
      Resolve(records, text, normalize, synthesize, rank) ==
        Resolved(Synthesized, interpreted, [Ingredient(interpreted, g.image, g.description, true)])
  {
  }

  /** Every successful search has suggestions; the top-level `aiGenerated`
      flag is set exactly when the exact tier missed and the index ranked
      nothing, and then the one suggestion is flagged and named `interpreted`. */
  lemma ReplyShape(records: seq<Ingredient>, text: string,
                   normalize: Normalizer, synthesize: Synthesizer, rank: Ranking)
    ensures var reply := Resolve(records, text, normalize, synthesize, rank);
      reply.Resolved? ==>
        && |reply.suggestions| >= 1
        && (reply.AiGenerated() <==>
              FirstMatch(records, QueryKey(text)).None? && rank(records, Lower(reply.interpreted)) == [])
        && (reply.AiGenerated() ==>
              |reply.suggestions| == 1 && reply.suggestions[0].aiGenerated
              && reply.suggestions[0].name == reply.interpreted)
  {
    var reply := Resolve(records, text, normalize, synthesize, rank);
    if reply.Resolved? && FirstMatch(records, QueryKey(text)).None? {
      var interpreted := normalize(QueryKey(text)).value;
      assert reply.interpreted == interpreted;
      var ranked := rank(records, Lower(interpreted));
      assert |FuzzyHits(ranked)| > 0 <==> ranked != [];
    }
  }

  /** Outside the synthesis tier, every suggestion is a record of the store. */
  lemma SuggestionsAreStored(records: seq<Ingredient>, text: string,
                             normalize: Normalizer, synthesize: Synthesizer, rank: Ranking)
    requires DrawsFromCollection(rank)
    ensures var reply := Resolve(records, text, normalize, synthesize, rank);
      reply.Resolved? && !reply.AiGenerated() ==>
        forall k :: 0 <= k < |reply.suggestions| ==> reply.suggestions[k] in records
  {
    var reply := Resolve(records, text, normalize, synthesize, rank);
    if reply.Resolved? && reply.tier == Fuzzy {
      var ranked := rank(records, Lower(reply.interpreted));
      forall k | 0 <= k < |reply.suggestions|
        ensures reply.suggestions[k] in records
      {
        assert reply.suggestions[k] == ranked[k];
        assert ranked[k] in ranked;
      }
    }
  }

  /** A record that an add has just stored is found by the exact tier when
      its name is searched, provided the name has no surrounding whitespace. */
  lemma AddedNameIsFoundExactly(records: seq<Ingredient>, item: Ingredient,
                                normalize: Normalizer, synthesize: Synthesizer, rank: Ranking)
    requires Trim(item.name) == item.name
    ensures var reply := Resolve(Insert(records, item), item.name, normalize, synthesize, rank);
      && reply.Resolved? && reply.tier == Exact && reply.interpreted == Lower(item.name)
      && |reply.suggestions| == 1 && Named(reply.suggestions[0], Lower(item.name))
      && (FirstMatch(records, Lower(item.name)).None? ==> reply.suggestions == [item])
  {
    var key := Lower(item.name);
    assert QueryKey(item.name) == key;
    InsertedNamePresent(records, item);
    if FirstMatch(records, key).None? {
      FirstMatchOfAppended(records, item, key);
    }
  }

  /** Appending a record named `key` to a list without one makes it the
      first match. */
  lemma FirstMatchOfAppended(records: seq<Ingredient>, item: Ingredient, key: string)
    requires FirstMatch(records, key).None? && Named(item, key)
    ensures FirstMatch(records + [item], key) == Some(|records|)
  {
    var r := records + [item];
    assert Named(r[|records|], key);
  }

  /** The exact tier only ever suggests a record whose name has no
      surrounding whitespace, whatever the store and the query: the key it
      compares against is trimmed, and lower-casing keeps whitespace. */
  lemma ExactHitNameIsTrimmed(records: seq<Ingredient>, text: string,
                              normalize: Normalizer, synthesize: Synthesizer, rank: Ranking)
    ensures var reply := Resolve(records, text, normalize, synthesize, rank);
      reply.Resolved? && reply.tier == Exact ==> IsTrimmed(reply.suggestions[0].name)
  {
    var reply := Resolve(records, text, normalize, synthesize, rank);
    if reply.Resolved? && reply.tier == Exact {
      LowerKeepsTrimmed(reply.suggestions[0].name);
    }
  }

  /** The add handler stores names untrimmed while the search handler trims
      the query: a record stored under a name with surrounding whitespace
      (such as " onion") is never the exact tier's answer, for any store and
      any query. */
  lemma PaddedNameMissesExactTier(records: seq<Ingredient>, item: Ingredient, text: string,
                                  normalize: Normalizer, synthesize: Synthesizer, rank: Ranking)
    requires !IsTrimmed(item.name)
    ensures var reply := Resolve(records, text, normalize, synthesize, rank);
      !(reply.Resolved? && reply.tier == Exact && item in reply.suggestions)
  {
    var reply := Resolve(records, text, normalize, synthesize, rank);
    ExactHitNameIsTrimmed(records, text, normalize, synthesize, rank);
    if reply.Resolved? && reply.tier == Exact {
      assert reply.suggestions == [reply.suggestions[0]];
    }
  }

  // ---------------------------------------------------------------------------
  // The server state and its handlers
  // ---------------------------------------------------------------------------

  /** The module-level state of the server: the data file, the `ingredients`
      variable holding its last parse, and the collection the Fuse index
      searches (what `setCollection` was last given). */
  class IngredientStore {
    var disk: FileContents
    var ingredients: seq<Ingredient>
    var indexSource: seq<Ingredient>

    /** The variable and the index both hold what the file holds. */
    ghost predicate InSync()
      reads this
    {
      disk.Json? && ingredients == disk.records && indexSource == disk.records
    }

    /** Start-up: parse the file and build the index over the records. */
    constructor (file: seq<Ingredient>)
      ensures disk == Json(file) && InSync()
    {
      disk := Json(file);
      ingredients := file;
      indexSource := file;
    }

    /** `POST /api/search`. A missing `text` fails before anything is read;
        otherwise the file is re-read into the variable and the index, and
        the reply is the resolver's. The file is never written. */
    method Search(text: Option<string>, normalize: Normalizer, synthesize: Synthesizer, rank: Ranking)
      returns (reply: SearchReply)
      modifies this
      ensures disk == old(disk)
      ensures text.None? || disk.Malformed? ==> reply == SearchFailed && unchanged(this)
      ensures text.Some? && disk.Json? ==>
        InSync() && reply == Resolve(disk.records, text.value, normalize, synthesize, rank)
    {
      if text.None? {
        return SearchFailed;
      }
      var key := Lower(Trim(text.value));
      if disk.Malformed? {
        return SearchFailed;
      }
      ingredients := disk.records;
      indexSource := ingredients;
      var exact := FindIndex(ingredients, key);
      if exact != -1 {
        return Resolved(Exact, key, [ingredients[exact]]);
      }
      var interpreted := normalize(key);
      if interpreted.None? {
        return SearchFailed;
      }
      var hits := FuzzyHits(rank(indexSource, Lower(interpreted.value)));
      if |hits| > 0 {
        return Resolved(Fuzzy, interpreted.value, hits);
      }
      var generated := synthesize(interpreted.value);
      if generated.None? {
        return SearchFailed;
      }
      var g := generated.value;
      reply := Resolved(Synthesized, interpreted.value,
                        [Ingredient(interpreted.value, g.image, g.description, true)]);
    }

    /** `POST /api/add`. Missing fields are a client error and change
        nothing; a duplicate (up to case) is reported as success and leaves
        the file as it was; otherwise the record is appended, written and
        indexed. */
    method Add(name: Option<string>, image: Option<string>, description: Option<string>)
      returns (reply: MutationReply)
      modifies this
      ensures !(Present(name) && Present(image) && Present(description)) ==>
        reply == ClientError("Missing fields") && unchanged(this)
      ensures Present(name) && Present(image) && Present(description) && old(disk).Malformed? ==>
        reply == ServerError("Cannot add ingredient") && unchanged(this)
      ensures Present(name) && Present(image) && Present(description) && old(disk).Json? ==>
        var item := Ingredient(name.value, image.value, description.value, false);
        var before := old(disk).records;
        && disk == Json(Insert(before, item))
        && ingredients == disk.records
        && (FirstMatch(before, Lower(name.value)).Some? ==>
              reply == Done(true, "Already exists", None) && indexSource == old(indexSource))
        && (FirstMatch(before, Lower(name.value)).None? ==>
              reply == Done(true, "Ingredient added successfully!", Some(item)) && indexSource == disk.records)
      ensures old(InSync()) ==> InSync()
      ensures old(disk).Json? && CaseUnique(old(disk).records) ==> disk.Json? && CaseUnique(disk.records)
    {
      if !(Present(name) && Present(image) && Present(description)) {
        return ClientError("Missing fields");
      }
      if disk.Malformed? {
        return ServerError("Cannot add ingredient");
      }
      ingredients := disk.records;
      var existing := FindIndex(ingredients, Lower(name.value));
      if existing != -1 {
        return Done(true, "Already exists", None);
      }
      var item := Ingredient(name.value, image.value, description.value, false);
      if CaseUnique(ingredients) {
        InsertKeepsCaseUnique(ingredients, item);
      }
      ingredients := ingredients + [item];
      disk := Json(ingredients);
      indexSource := ingredients;
      reply := Done(true, "Ingredient added successfully!", Some(item));
    }

    /** `POST /api/delete`. A missing name is a client error; a name no
        record carries (up to case) is reported with `success == false` and
        changes nothing; otherwise the first such record is spliced out,
        written and indexed. */
    method Delete(name: Option<string>) returns (reply: MutationReply)
      modifies this
      ensures !Present(name) ==> reply == ClientError("Name missing") && unchanged(this)
      ensures Present(name) && old(disk).Malformed? ==>
        reply == ServerError("Delete failed") && unchanged(this)
      ensures Present(name) && old(disk).Json? ==>
        var before := old(disk).records;
        var key := Lower(name.value);
        && disk == Json(RemoveFirst(before, key))
        && ingredients == disk.records
        && (FirstMatch(before, key).None? ==>
              reply == Done(false, "Ingredient not found", None) && indexSource == old(indexSource))
        && (FirstMatch(before, key).Some? ==>
              reply == Done(true, "Deleted successfully", None) && indexSource == disk.records)
      ensures old(InSync()) ==> InSync()
      ensures old(disk).Json? && CaseUnique(old(disk).records) ==> disk.Json? && CaseUnique(disk.records)
    {
      if !Present(name) {
        return ClientError("Name missing");
      }
      if disk.Malformed? {
        return ServerError("Delete failed");
      }
      ingredients := disk.records;
      var key := Lower(name.value);
      var index := FindIndex(ingredients, key);
      if index == -1 {
        return Done(false, "Ingredient not found", None);
      }
      if CaseUnique(ingredients) {
        RemoveFirstKeepsCaseUnique(ingredients, key);
      }
      ingredients := ingredients[..index] + ingredients[index + 1..];
      disk := Json(ingredients);
      indexSource := ingredients;
      reply := Done(true, "Deleted successfully", None);
    }
  }
}
