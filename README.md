# Ingredient search: a Dafny model of the store, the resolver and the search box

This project models the core of a small ingredient-search web application.

- **Server**: the Express server in `backend/server.js`.
  - It keeps a list of ingredient records (name, image URL, bullet-point description) in a JSON file.
  - It keeps a Fuse fuzzy index over those records.
  - It answers three requests:
    - **search** resolves a free-text query in up to three tiers: an exact case-insensitive name match, a fuzzy match on the name a language model normalised, and a record the language model synthesises.
    - **add** appends a record unless its name is already stored, up to case.
    - **delete** removes the first record with that name, up to case.
- **Search box**: the pure display logic of `frontend/src/components/SearchBox.js`:
  - how a description becomes bullet lines;
  - when a search is sent;
  - how a reply pre-fills the add form;
  - how the shown suggestions change after a delete.

Files:

- `wrappers.dfy`: `Option`.
- `text.dfy`: the JavaScript string operations used. `toLowerCase` is modelled on ASCII letters. `trim` uses the ECMAScript whitespace set. `split` and `join` work on one character.
- `server.dfy`:
  - the records, the request and reply shapes, and the scans over the record list;
  - the store as a value (`Insert`, `RemoveFirst`);
  - the resolver as a specification function (`Resolve`);
  - the class `IngredientStore`. Its fields are the file, the `ingredients` variable and the collection the Fuse index searches. Its methods `Search`, `Add` and `Delete` are proved against those functions.
- `search_box.dfy`: the search box logic.

The collaborators the server only calls are function-typed parameters:

- the name normaliser;
- the description synthesiser;
- the Fuse ranking over a collection.

A failing normaliser or synthesiser call is `None`. Such a call fails the search with the 500 reply.

Behaviour the model makes explicit:

- **What the exact tier reports.** It reports the trimmed, lower-cased query as `interpreted`, not the text as typed.
- **What the normaliser receives.** It gets that lowered key.
- **Padded names.** The add handler stores names untrimmed, but the search handler trims the query. So a record named `" onion"` is never the exact tier's answer, whatever the store and the query (`ExactHitNameIsTrimmed`, `PaddedNameMissesExactTier`).
- **Duplicate adds.** A duplicate add re-reads the file into `ingredients` but does not refresh the index.
- **Delete.** Delete removes only the first case-insensitive match. Later records with the same name survive (`RemoveFirstCount`).
- **The client-side filter after a delete.** It compares names case-sensitively. It removes every shown suggestion with exactly that name, even though the server removed only one record.

## Model

| member | source | states |
|---|---|---|
| Text.LowerChar | backend/server.js:41 | `toLowerCase` on a character: upper-case ASCII letters move up by 32, every other character is kept, and the result is never upper-case |
| Text.Lower | backend/server.js:41 | lower-casing keeps the length and lowers each character at its position |
| Text.LowerIdempotent | backend/server.js:41 | lower-casing an already lowered name changes nothing |
| Text.LowerKeepsTrimmed | backend/server.js:35 | lower-casing keeps a string trimmed, and keeps an untrimmed one untrimmed |
| Text.Trim | backend/server.js:35 | the trimmed string neither starts nor ends with whitespace and is no longer than the input |
| Text.TrimEmptyIffBlank | frontend/src/components/SearchBox.js:19 | a text trims to the empty string exactly when every character is whitespace |
| Text.TrimKeepsChars | frontend/src/components/SearchBox.js:148 | every character of the trimmed string occurs in the original |
| Text.TrimOfTrimmed | frontend/src/components/SearchBox.js:148 | a string with no whitespace at either end is its own trim |
| Text.TrimBlankPair | backend/server.js:35 | two blank strings together trim to nothing |
| Text.TrimCore | backend/server.js:35 | blank padding around a trimmed core trims to exactly that core |
| Text.TrimIdempotent | backend/server.js:35 | trimming twice is trimming once |
| Text.Split | frontend/src/components/SearchBox.js:145 | `split` yields at least one segment and no segment contains the separator |
| Text.JoinSplit | frontend/src/components/SearchBox.js:145 | joining the segments of a split with the separator gives back the string |
| Text.SplitAtSeparator | frontend/src/components/SearchBox.js:145 | a separator-free prefix followed by the separator becomes the first segment, and the rest splits on its own |
| Text.SplitWithoutSeparator | frontend/src/components/SearchBox.js:145 | a string without the separator splits into itself alone |
| Text.SplitJoin | frontend/src/components/SearchBox.js:145 | splitting the join of separator-free parts gives back the parts |
| Server.FirstMatch | backend/server.js:41 | `find`: the result is the index of a record named by the key with no earlier such record, and is absent exactly when no record is named by the key |
| Server.Present | backend/server.js:85 | a request field is falsy exactly when it is missing or the empty string |
| Server.QueryKey | backend/server.js:35 | the search key is no longer than the text, has no surrounding whitespace and no upper-case letter |
| Server.FirstMatchOfAppended | backend/server.js:97 | appending a record named by the key to a list without one makes the new record the first match |
| Server.FindIndex | backend/server.js:128-130 | `findIndex`: the loop returns -1 exactly when no record matches, and otherwise the index of the first match |
| Server.CountNamedConcat | backend/server.js:92 | the number of records with a name adds up over concatenation |
| Server.CountNamedZero | backend/server.js:92 | `some` is false exactly when no record carries the name |
| Server.Insert | backend/server.js:92-97 | add keeps every existing record in order. It leaves the list unchanged exactly when a record with the same lower-cased name exists, and otherwise appends the new record |
| Server.InsertKeepsCaseUnique | backend/server.js:91-97 | the duplicate guard: if no two records share a lower-cased name before an add, none do afterwards |
| Server.InsertedNamePresent | backend/server.js:92-97 | after an add some record carries the added name |
| Server.InsertTwiceIsInsertOnce | backend/server.js:92-97 | for every store, a second add of a name already added, in any case, leaves the list as after the first add |
| Server.InsertLeavesOne | backend/server.js:92-97 | in a store with at most one record of a name, an add of that name leaves exactly one |
| Server.RemoveAt | backend/server.js:137 | `splice(index, 1)`: one record shorter, records before the index kept, records after it shifted down by one |
| Server.RemoveFirst | backend/server.js:128-137 | delete leaves the list unchanged exactly when no record matches. Otherwise the list is one shorter and is the old list with the first match taken out once |
| Server.CountNamedRemoveAt | backend/server.js:137 | splicing out a record lowers the count of its name by one and leaves every other count unchanged |
| Server.RemoveFirstCount | backend/server.js:128-137 | delete removes exactly one record of the name when there is one, and none otherwise, so the list shrinks by one or is unchanged |
| Server.RemoveFirstKeepsOthers | backend/server.js:128-137 | delete leaves the count of every other name unchanged |
| Server.RemoveFirstKeepsCaseUnique | backend/server.js:128-137 | delete never creates a duplicate, and in a duplicate-free list leaves no record of the deleted name |
| Server.FuzzyHits | backend/server.js:54 | `slice(0, 3)`: at most three hits, exactly min(3, n), and they are the prefix of the ranking |
| Server.Resolve | backend/server.js:35-70 | a successful reply has one to three suggestions. It comes from the exact tier exactly when a record is named by the trimmed, lower-cased query, and then it carries that key as `interpreted` and a record of that name |
| Server.ExactTierShortCircuits | backend/server.js:35-47 | when a record's lower-cased name equals the trimmed, lower-cased query, the reply is that first record alone, with the key as `interpreted`, whatever the collaborators do |
| Server.MissIsInterpretedByNormalizer | backend/server.js:49-51 | on an exact miss, a normaliser failure fails the search, and every successful reply is non-exact and carries the normaliser's output as `interpreted` |
| Server.FuzzyTierTakesTopHits | backend/server.js:53-60 | when the index ranks something for the lower-cased normalised name, the reply is the fuzzy tier with the first min(3, n) ranked items in order |
| Server.SynthesisTierWhenFuzzyEmpty | backend/server.js:63-70 | when the index ranks nothing, the reply is the synthesised record named `interpreted` and flagged `aiGenerated`, or a failure if the synthesiser fails |
| Server.ReplyShape | backend/server.js:42-70 | every successful reply has a suggestion. `aiGenerated` is set exactly when the exact tier missed and the index ranked nothing, and then the one suggestion is flagged and named `interpreted` |
| Server.SuggestionsAreStored | backend/server.js:38-60 | if Fuse only returns members of its collection, every suggestion of a reply that is not `aiGenerated` is a stored record |
| Server.AddedNameIsFoundExactly | backend/server.js:41-47 | after an add of a name without surrounding whitespace, searching that name hits the exact tier with the added record, or the record stored before it under the same name |
| Server.ExactHitNameIsTrimmed | backend/server.js:35-47 | whatever the store and the query, the exact tier only suggests a record whose name has no surrounding whitespace |
| Server.PaddedNameMissesExactTier | backend/server.js:35-47 | a record stored under a name with surrounding whitespace is never the exact tier's answer, for any store and any query |
| Server.IngredientStore.constructor | backend/server.js:21-28 | start-up parses the file into `ingredients` and builds the index over the same records |
| Server.IngredientStore.Search | backend/server.js:33-76 | a missing text or an unparsable file gives the 500 reply and changes nothing. Otherwise the variable and the index hold the file's records and the reply is `Resolve` of them. The file is never written |
| Server.IngredientStore.Add | backend/server.js:81-113 | missing fields give a 400 reply and an unparsable file a 500 reply, both changing nothing. Otherwise the file becomes `Insert` of its records, with "Already exists" and an untouched index for a duplicate, or "Ingredient added successfully!", the new record and a refreshed index. The method keeps the variable, index and file in sync and never creates a case-insensitive duplicate |
| Server.IngredientStore.Delete | backend/server.js:118-149 | a missing name gives a 400 reply and an unparsable file a 500 reply, both changing nothing. Otherwise the file becomes `RemoveFirst` of its records, with `success: false` "Ingredient not found" and an untouched index, or "Deleted successfully" and a refreshed index. The method keeps the state in sync and never creates a duplicate |
| SearchBox.NonBlank | frontend/src/components/SearchBox.js:146 | the kept lines are no more than the input and none trims to the empty string |
| SearchBox.NonBlankCounts | frontend/src/components/SearchBox.js:146 | the filter keeps every line that is not blank, as often as the input has it, and no other line |
| SearchBox.TrimEach | frontend/src/components/SearchBox.js:148 | each shown line is the trim of the line at the same position |
| SearchBox.Bullets | frontend/src/components/SearchBox.js:144-148 | every bullet line is non-empty, has no surrounding whitespace and contains no bullet marker |
| SearchBox.NonBlankMarkerFree | frontend/src/components/SearchBox.js:146 | filtering keeps lines free of the marker |
| SearchBox.TrimEachMarkerFree | frontend/src/components/SearchBox.js:148 | trimming keeps lines free of the marker |
| SearchBox.NonBlankConcat | frontend/src/components/SearchBox.js:146 | the blank-line filter distributes over concatenation, so order is kept |
| SearchBox.NonBlankKeepsFilled | frontend/src/components/SearchBox.js:146 | non-empty trimmed lines all survive the filter |
| SearchBox.TrimEachConcat | frontend/src/components/SearchBox.js:148 | trimming each line distributes over concatenation |
| SearchBox.TrimEachKeepsTrimmed | frontend/src/components/SearchBox.js:148 | trimming already trimmed lines changes nothing |
| SearchBox.BulletsWithoutMarker | frontend/src/components/SearchBox.js:144-148 | a description without a marker shows as its trimmed self, or as nothing when blank |
| SearchBox.BulletsAtMarker | frontend/src/components/SearchBox.js:144-148 | the text before the first marker contributes its lines ahead of the rest's lines |
| SearchBox.BulletsOfJoin | frontend/src/components/SearchBox.js:144-148 | non-empty, trimmed, marker-free lines written out with markers between them are shown back exactly |
| SearchBox.WithoutName | frontend/src/components/SearchBox.js:82 | the filter drops every suggestion named exactly (case-sensitively) `name` and keeps every other one as often as before |
| SearchBox.WithoutNameConcat | frontend/src/components/SearchBox.js:82 | the filter keeps the order of the suggestions |
| SearchBox.Prefill | frontend/src/components/SearchBox.js:29-32 | submitting the pre-filled form as it stands sends exactly the suggestion's name, image and description |
| SearchBox.HandleSearch | frontend/src/components/SearchBox.js:18-38 | a blank query leaves the view unchanged. A failed request leaves the whole view, shown result and form, as it was. A successful reply is shown, and the add form takes its first suggestion's fields when there is one, or stays as it was when there is none |
| SearchBox.BlankQueryIgnoresServer | frontend/src/components/SearchBox.js:19 | a blank query gives the same view whatever the server would answer |
| SearchBox.ExactHitPrefillsStoredRecord | frontend/src/components/SearchBox.js:26-33 | searching a stored name, up to case and surrounding whitespace, shows that record and pre-fills the add form with it |
| SearchBox.SynthesisPrefillsInterpretedName | frontend/src/components/SearchBox.js:28-33 | after a synthesised reply the add form holds the interpreted name and the synthesised image and description |
| SearchBox.HandleDelete | frontend/src/components/SearchBox.js:77-86 | a delete never touches the add form, and a reply other than success leaves the view as it was |
| SearchBox.DeleteFiltersShownSuggestions | frontend/src/components/SearchBox.js:77-83 | a successful delete keeps the shown tier and interpreted name, and exactly the suggestions not named `name`, each as often as before |

## Left out

- **Express plumbing.** Routing, CORS and JSON body parsing are left out. A request field is either a string or absent (`Option<string>`), so a field of another JSON type is not modelled.
- **File I/O.**
  - The read is modelled: the file is either a parsed record list or unparsable.
  - The serialisation format is not modelled.
  - Writes are assumed to succeed. A failing `writeFileSync` is not modelled, and neither is the partial update it would leave.
- **Fuse.js scoring.** The threshold of 0.4 and location-independent matching are left out. The ranking is a parameter, and the model assumes only, where stated, that it returns members of the collection searched.
- **The language-model helpers in `backend/openai.js`.** Their prompts, their trimming of the model's answer, the bullet format of descriptions and the Wikipedia image lookup with its placeholder fallback are all left out. The helpers are parameters that either succeed or fail.
- **The PDF endpoint and `handleDownloadPDF`.** They produce a document layout with no state or logic of interest.
- **Concurrency.** Handlers are modelled as running one at a time. Node interleaves them only at `await`, and only the search handler awaits, between its read and its reply.
- **React rendering and browser interaction.**
  - Left out: `window.confirm`, the `alert` calls, the add modal's visibility and message, `handleAddIngredient` with its `setTimeout`, and `App.js`.
  - A declined confirmation sends no request, so it is the same as not deleting.
  - `HandleDelete` assumes a reply was shown, as it is whenever a delete button exists.
- Text.Lower: lower-cases ASCII letters only. JavaScript's `toLowerCase` applies full Unicode case mapping, which is left out.
- Text.Trim: works on Unicode scalar values, while JavaScript strings are UTF-16 code units. Every whitespace character `trim` removes is a single code unit, so the two agree on whitespace.
