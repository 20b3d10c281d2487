/** The display logic of the search box (frontend/src/components/SearchBox.js):
    how a description becomes bullet lines, how the shown suggestions change
    after a delete, when a search is sent, and how a reply pre-fills the add
    form. The server is reached through a parameter standing for the HTTP call. */
module SearchBox {
  import opened Wrappers
  import opened Text
  import opened Server

  /** The character that separates the bullet points of a description. */
  const Bullet: char := '\U{2022}'

  /** `filter(line => line.trim() !== "")`: the lines that are not blank. */
  function NonBlank(lines: seq<string>): (kept: seq<string>)
    ensures |kept| <= |lines|
    ensures forall i :: 0 <= i < |kept| ==> Trim(kept[i]) != []
  {
    if lines == [] then []
    else (if Trim(lines[0]) != [] then [lines[0]] else []) + NonBlank(lines[1..])
  }

  /** The filter keeps every line that is not blank, as often as the input
      has it, and nothing else. */
  lemma {:induction false} NonBlankCounts(lines: seq<string>)
    ensures forall x :: multiset(NonBlank(lines))[x] == if Trim(x) != [] then multiset(lines)[x] else 0
  {
    if lines != [] {
      NonBlankCounts(lines[1..]);
      assert lines == [lines[0]] + lines[1..];
    }
  }

  /** `map(line => line.trim())`. */
  function TrimEach(lines: seq<string>): (trimmed: seq<string>)
    ensures |trimmed| == |lines|
    ensures forall i :: 0 <= i < |lines| ==> trimmed[i] == Trim(lines[i])
  {
    if lines == [] then [] else [Trim(lines[0])] + TrimEach(lines[1..])
  }

  /** No line contains the marker. */
  predicate MarkerFree(lines: seq<string>)
  {
    forall i :: 0 <= i < |lines| ==> Bullet !in lines[i]
  }

  /** The `<li>` lines shown for a description. */
  function Bullets(description: string): (lines: seq<string>)
    ensures forall i :: 0 <= i < |lines| ==> lines[i] != [] && IsTrimmed(lines[i])
    ensures MarkerFree(lines)
  {
    var segments := Split(description, Bullet);
    NonBlankMarkerFree(segments);
    TrimEachMarkerFree(NonBlank(segments));
    TrimEach(NonBlank(segments))
  }

  lemma NonBlankMarkerFree(lines: seq<string>)
    requires MarkerFree(lines)
    ensures MarkerFree(NonBlank(lines))
  {
    var kept := NonBlank(lines);
    NonBlankCounts(lines);
    forall i | 0 <= i < |kept|
      ensures Bullet !in kept[i]
    {
      assert kept[i] in multiset(kept);
      assert kept[i] in lines;
    }
  }

  lemma TrimEachMarkerFree(lines: seq<string>)
    requires MarkerFree(lines)
    ensures MarkerFree(TrimEach(lines))
  {
    forall i | 0 <= i < |lines|
      ensures Bullet !in Trim(lines[i])
    {
      if Bullet in Trim(lines[i]) {
        TrimKeepsChars(lines[i], Bullet);
      }
    }
  }

  lemma {:induction false} NonBlankConcat(a: seq<string>, b: seq<string>)
    ensures NonBlank(a + b) == NonBlank(a) + NonBlank(b)
  {
    if a == [] {
      assert a + b == b;
    } else {
      var head := if Trim(a[0]) != [] then [a[0]] else [];
      assert (a + b)[0] == a[0];
      assert (a + b)[1..] == a[1..] + b;
      NonBlankConcat(a[1..], b);
      assert NonBlank(a + b) == head + NonBlank(a[1..] + b);
      assert head + (NonBlank(a[1..]) + NonBlank(b)) == (head + NonBlank(a[1..])) + NonBlank(b);
    }
  }

  lemma {:induction false} NonBlankKeepsFilled(lines: seq<string>)
    requires forall i :: 0 <= i < |lines| ==> lines[i] != [] && IsTrimmed(lines[i])
    ensures NonBlank(lines) == lines
  {
    if lines != [] {
      TrimOfTrimmed(lines[0]);
      NonBlankKeepsFilled(lines[1..]);
      assert [lines[0]] + lines[1..] == lines;
    }
  }

  lemma {:induction false} TrimEachConcat(a: seq<string>, b: seq<string>)
    ensures TrimEach(a + b) == TrimEach(a) + TrimEach(b)
  {
    if a == [] {
      assert a + b == b;
    } else {
      assert (a + b)[0] == a[0];
      assert (a + b)[1..] == a[1..] + b;
      TrimEachConcat(a[1..], b);
    }
  }

  /** A description without a marker is shown as its trimmed self, or not at
      all when it is blank. */
  lemma BulletsWithoutMarker(description: string)
    requires Bullet !in description
    ensures Bullets(description) == if Blank(description) then [] else [Trim(description)]
  {
    SplitWithoutSeparator(description, Bullet);
    TrimEmptyIffBlank(description);
    assert NonBlank([description]) == if Blank(description) then [] else [description];
  }

  /** Bullets keep the order of the description: the text before the first
      marker contributes its lines ahead of the rest. */
  lemma BulletsAtMarker(first: string, rest: string)
    requires Bullet !in first
    ensures Bullets(first + [Bullet] + rest) == Bullets(first) + Bullets(rest)
  {
    var segments := Split(rest, Bullet);
    SplitAtSeparator(first, Bullet, rest);
    SplitWithoutSeparator(first, Bullet);
    assert Split(first + [Bullet] + rest, Bullet) == [first] + segments;
    NonBlankConcat([first], segments);
    TrimEachConcat(NonBlank([first]), NonBlank(segments));
  }

  /** Lines that are non-empty, trimmed and free of the marker are shown back
      exactly when written out with markers between them. */
  lemma BulletsOfJoin(lines: seq<string>)
    requires forall i :: 0 <= i < |lines| ==> lines[i] != [] && IsTrimmed(lines[i]) && Bullet !in lines[i]
    ensures Bullets(Join(lines, Bullet)) == lines
  {
    if lines == [] {
      assert Join(lines, Bullet) == [];
      assert NonBlank([[]]) == [];
    } else {
      SplitJoin(lines, Bullet);
      NonBlankKeepsFilled(lines);
      TrimEachKeepsTrimmed(lines);
    }
  }

  lemma TrimEachKeepsTrimmed(lines: seq<string>)
    requires forall i :: 0 <= i < |lines| ==> IsTrimmed(lines[i])
    ensures TrimEach(lines) == lines
  {
    forall i | 0 <= i < |lines|
      ensures TrimEach(lines)[i] == lines[i]
    {
      TrimOfTrimmed(lines[i]);
    }
  }

  /** `suggestions.filter(x => x.name !== name)`: the suggestions not carrying
      exactly (case-sensitively) the deleted name, each as often as before. */
  function WithoutName(suggestions: seq<Ingredient>, name: string): (kept: seq<Ingredient>)
    ensures |kept| <= |suggestions|
    ensures forall x :: multiset(kept)[x] == if x.name == name then 0 else multiset(suggestions)[x]
  {
    if suggestions == [] then []
    else
      var rest := WithoutName(suggestions[1..], name);
      assert suggestions == [suggestions[0]] + suggestions[1..];
      if suggestions[0].name == name then rest else [suggestions[0]] + rest
  }

  /** The filter keeps the order of the suggestions. */
  lemma {:induction false} WithoutNameConcat(a: seq<Ingredient>, b: seq<Ingredient>, name: string)
    ensures WithoutName(a + b, name) == WithoutName(a, name) + WithoutName(b, name)
  {
    if a == [] {
      assert a + b == b;
    } else {
      assert (a + b)[1..] == a[1..] + b;
      WithoutNameConcat(a[1..], b, name);
    }
  }

  /** The add form's three fields. */
  datatype AddForm = AddForm(name: string, image: string, description: string)

  /** What the component shows: the last search reply, and the add form. */
  datatype View = View(result: Option<SearchReply>, form: AddForm)

  /** The add form filled from a suggestion: submitting it as it stands
      (`handleAddIngredient` sends the three fields) asks the server to store
      that suggestion, without its `aiGenerated` flag. */
  function Prefill(suggestion: Ingredient): (form: AddForm)
    ensures Ingredient(form.name, form.image, form.description, false) == suggestion.(aiGenerated := false)
  {
    AddForm(suggestion.name, suggestion.image, suggestion.description)
  }

  /** `handleSearch`: a blank query sends nothing; a failed request (the 500
      reply) changes nothing; otherwise the reply is shown and the add form
      takes the first suggestion's fields when there is one. `post` is the
      request to the server, given the raw, untrimmed text. */
  function HandleSearch(view: View, text: string, post: string -> SearchReply): (next: View)
    ensures Blank(text) ==> next == view
    ensures !Blank(text) && post(text).Resolved? ==> next.result == Some(post(text))
    ensures !Blank(text) && post(text).Resolved? && post(text).suggestions != [] ==>
      next.form == Prefill(post(text).suggestions[0])
    ensures post(text).SearchFailed? ==> next == view
    ensures post(text).Resolved? && post(text).suggestions == [] ==> next.form == view.form
  {
    TrimEmptyIffBlank(text);
    if Trim(text) == [] then view
    else
      match post(text)
      case SearchFailed => view
      case Resolved(_, _, suggestions) =>
        View(Some(post(text)), if |suggestions| > 0 then Prefill(suggestions[0]) else view.form)
  }

  /** A blank query never reaches the server: the view is the same whatever
      the server would have answered. */
  lemma BlankQueryIgnoresServer(view: View, text: string, post: string -> SearchReply,
                                other: string -> SearchReply)
    requires Blank(text)
    ensures HandleSearch(view, text, post) == HandleSearch(view, text, other) == view
  {
  }

  /** Searching a name the store holds (up to case and surrounding
      whitespace) shows the stored record and pre-fills the add form with it. */
  lemma ExactHitPrefillsStoredRecord(view: View, records: seq<Ingredient>, text: string, i: nat,
                                     normalize: Normalizer, synthesize: Synthesizer, rank: Ranking)
    requires !Blank(text)
    requires i < |records| && Named(records[i], QueryKey(text))
    requires forall j :: 0 <= j < i ==> !Named(records[j], QueryKey(text))
    ensures var next := HandleSearch(view, text, t => Resolve(records, t, normalize, synthesize, rank));
      next.form == Prefill(records[i]) && next.result == Some(Resolved(Exact, QueryKey(text), [records[i]]))
  {
    ExactTierShortCircuits(records, text, i, normalize, synthesize, rank);
  }

  /** After a synthesised reply the add form holds the synthesised record
      under the interpreted name, ready to be stored by an explicit add. */
  lemma SynthesisPrefillsInterpretedName(view: View, records: seq<Ingredient>, text: string,
                                         normalize: Normalizer, synthesize: Synthesizer, rank: Ranking)
    requires !Blank(text)
    requires Resolve(records, text, normalize, synthesize, rank).AiGenerated()
    ensures var reply := Resolve(records, text, normalize, synthesize, rank);
      var next := HandleSearch(view, text, t => Resolve(records, t, normalize, synthesize, rank));
      next.form.name == reply.interpreted
      && next.form.image == reply.suggestions[0].image
      && next.form.description == reply.suggestions[0].description
  {
    ReplyShape(records, text, normalize, synthesize, rank);
  }

  /** `handleDelete` once confirmed: on a successful reply the shown
      suggestions lose every entry carrying the deleted name; any other reply
      leaves the view as it was. */
  function HandleDelete(view: View, name: string, reply: MutationReply): (next: View)
    ensures next.form == view.form
    ensures !(reply.Done? && reply.success) ==> next == view
  {
    match (reply, view.result)
    case (Done(true, _, _), Some(Resolved(tier, interpreted, suggestions))) =>
      View(Some(Resolved(tier, interpreted, WithoutName(suggestions, name))), view.form)
    case _ => view
  }

  /** A successful delete keeps the shown reply's tier and interpreted name,
      and exactly the suggestions not named `name`, in their order. */
  lemma DeleteFiltersShownSuggestions(view: View, name: string, reply: MutationReply)
    requires reply.Done? && reply.success
    requires view.result.Some? && view.result.value.Resolved?
    ensures var shown := view.result.value;
      var next := HandleDelete(view, name, reply);
      && next.result.Some? && next.result.value.Resolved?
      && next.result.value.tier == shown.tier
      && next.result.value.interpreted == shown.interpreted
      && forall x :: multiset(next.result.value.suggestions)[x] ==
           if x.name == name then 0 else multiset(shown.suggestions)[x]
  {
  }
}
