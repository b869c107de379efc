/**
  The page's actions: the search box, the keyboard on it, the three forms (pull out,
  return, note) with their validation gates, the delete-note button, and what each
  reply does to the page. Remote calls are issued by appending them to `sent`; the
  reply arrives later through a separate settle method, so several calls may be in
  flight at once and may settle in any order.
*/
module Actions {
  import opened Text
  import opened Api
  import opened Autocomplete
  import opened Cards

  /** The values of the pull-out modal's inputs when it is submitted. */
  datatype PullOutForm = PullOutForm(name: string, pulledOutBy: string, date: string, remarks: string, personInCharge: string)

  /** The values of the return modal's inputs when it is submitted. */
  datatype ReturnForm = ReturnForm(name: string, returnedBy: string, date: string, remarks: string)

  /** The values of the note modal's inputs when it is submitted. */
  datatype NoteForm = NoteForm(name: string, text: string)

  const RequiredFieldsAlert: string := "Please fill in all required fields"
  const EmptyNoteAlert: string := "Please enter a note"
  const BlankSearchMessage: string := "Please enter a name to search"

  /** The alert for a reply that carries an `error`. */
  function ErrorAlert(message: string): string {
    "Error: " + message
  }

  /** The search `performSearch` sends for the box's value: none when the trimmed value
      is empty, otherwise a GET of `search` with the trimmed value as `term`. */
  function SearchCall(input: string): (c: Option<ApiCall>)
    ensures c.Some? ==> c.value.path == "search" && c.value.verb == Get
  {
    var term := Trim(input);
    if term == [] then None else Some(ApiCall("search", Get, Some([("term", term)])))
  }

  /** The search gate refuses exactly the blank values, and the term it sends is the
      trimmed value, so searching an already trimmed value sends the same call. */
  lemma SearchGate(input: string)
    ensures SearchCall(input).None? <==> IsBlank(input)
    ensures SearchCall(input).Some? ==>
      SearchCall(input).value.data.Some? && Lookup(SearchCall(input).value.data.value, "term") == Some(Trim(input))
    ensures SearchCall(Trim(input)) == SearchCall(input)
  {
    TrimEmptyIffBlank(input);
    TrimIdempotent(input);
  }

  /** The object the pull-out form posts. */
  function PullOutPayload(f: PullOutForm): Fields {
    [("name", f.name), ("action", "Pull Out"), ("pulledOutBy", f.pulledOutBy),
     ("date", f.date), ("remarks", f.remarks), ("personInCharge", f.personInCharge)]
  }

  /** The pull-out gate: the call is made exactly when the person, the date and the
      person in charge are all filled in; it posts `logAction`. */
  function PullOutCall(f: PullOutForm): (c: Option<ApiCall>)
    ensures c.None? <==> f.pulledOutBy == "" || f.date == "" || f.personInCharge == ""
    ensures c.Some? ==> c.value.path == "logAction" && c.value.verb == Post && c.value.data == Some(PullOutPayload(f))
  {
    if f.pulledOutBy == "" || f.date == "" || f.personInCharge == "" then None
    else Some(ApiCall("logAction", Post, Some(PullOutPayload(f))))
  }

  /** The object the return form posts: the returner travels under `pulledOutBy`. */
  function ReturnPayload(f: ReturnForm): Fields {
    [("name", f.name), ("action", "Return"), ("pulledOutBy", f.returnedBy),
     ("date", f.date), ("remarks", f.remarks)]
  }

  /** The return gate: the call is made exactly when the returner and the date are filled in. */
  function ReturnCall(f: ReturnForm): (c: Option<ApiCall>)
    ensures c.None? <==> f.returnedBy == "" || f.date == ""
    ensures c.Some? ==> c.value.path == "logAction" && c.value.verb == Post && c.value.data == Some(ReturnPayload(f))
  {
    if f.returnedBy == "" || f.date == "" then None
    else Some(ApiCall("logAction", Post, Some(ReturnPayload(f))))
  }

  /** The object `updateNote` receives. */
  function NotePayload(name: string, note: string): Fields {
    [("name", name), ("note", note)]
  }

  /** The note gate: the call is made exactly when the note text is not empty. A note
      of spaces passes: the text is not trimmed. */
  function NoteCall(f: NoteForm): (c: Option<ApiCall>)
    ensures c.None? <==> f.text == ""
    ensures c.Some? ==> c.value.path == "updateNote" && c.value.verb == Post && c.value.data == Some(NotePayload(f.name, f.text))
  {
    if f.text == "" then None else Some(ApiCall("updateNote", Post, Some(NotePayload(f.name, f.text))))
  }

  /** `deleteNote(name)`: an `updateNote` with an empty note, with no gate. */
  function DeleteNoteCall(name: string): ApiCall {
    ApiCall("updateNote", Post, Some(NotePayload(name, "")))
  }

  /** The names request sent when the page loads. */
  const SuggestionsCall: ApiCall := ApiCall("getSuggestions", Get, None)

  /** The search request on the wire: `path=search&term=<trimmed value>`, where the term
      is the value with its surrounding whitespace cut off and nothing else changed. */
  lemma SearchRequest(input: string)
    requires !IsBlank(input)
    ensures ToHttp(SearchCall(input).value) == HttpRequest(Get, [("path", "search"), ("term", Trim(input))], None)
    ensures Trim(input) != [] && Trim(input) == input[TrimOffset(input)..TrimOffset(input) + |Trim(input)|]
    ensures !IsWhitespace(Trim(input)[0]) && !IsWhitespace(Trim(input)[|Trim(input)| - 1])
  {
    TrimEmptyIffBlank(input);
    TrimIsSlice(input);
  }

  /** The endpoint reads every form field of a pull-out back under its own key. */
  lemma PullOutPayloadFields(f: PullOutForm)
    ensures DistinctKeys(PullOutPayload(f))
    ensures Lookup(PullOutPayload(f), "name") == Some(f.name)
    ensures Lookup(PullOutPayload(f), "action") == Some("Pull Out")
    ensures Lookup(PullOutPayload(f), "pulledOutBy") == Some(f.pulledOutBy)
    ensures Lookup(PullOutPayload(f), "date") == Some(f.date)
    ensures Lookup(PullOutPayload(f), "remarks") == Some(f.remarks)
    ensures Lookup(PullOutPayload(f), "personInCharge") == Some(f.personInCharge)
  {
    var p := PullOutPayload(f);
    assert DistinctKeys(p);
    LookupAt(p, 0);
    LookupAt(p, 1);
    LookupAt(p, 2);
    LookupAt(p, 3);
    LookupAt(p, 4);
    LookupAt(p, 5);
  }

  /** A return is logged like a pull out with action `Return`: the returner is read under
      `pulledOutBy`, and there is no `personInCharge` and no `returnedBy` field. */
  lemma ReturnPayloadFields(f: ReturnForm)
    ensures DistinctKeys(ReturnPayload(f))
    ensures Lookup(ReturnPayload(f), "name") == Some(f.name)
    ensures Lookup(ReturnPayload(f), "action") == Some("Return")
    ensures Lookup(ReturnPayload(f), "pulledOutBy") == Some(f.returnedBy)
    ensures Lookup(ReturnPayload(f), "date") == Some(f.date)
    ensures Lookup(ReturnPayload(f), "remarks") == Some(f.remarks)
    ensures Lookup(ReturnPayload(f), "personInCharge") == None
    ensures Lookup(ReturnPayload(f), "returnedBy") == None
  {
    var p := ReturnPayload(f);
    assert DistinctKeys(p);
    LookupAt(p, 0);
    LookupAt(p, 1);
    LookupAt(p, 2);
    LookupAt(p, 3);
    LookupAt(p, 4);
    LookupAbsent(p, "personInCharge");
    LookupAbsent(p, "returnedBy");
  }

  /** Pull-out and return entries differ only in their action and their optional fields:
      the same name, person and date give the same values under those keys. */
  lemma LogEntriesShareKeys(p: PullOutForm, r: ReturnForm)
    requires p.name == r.name && p.pulledOutBy == r.returnedBy && p.date == r.date && p.remarks == r.remarks
    ensures forall k :: k != "action" && k != "personInCharge" ==> Lookup(PullOutPayload(p), k) == Lookup(ReturnPayload(r), k)
  {
    PullOutPayloadFields(p);
    ReturnPayloadFields(r);
    var a, b := PullOutPayload(p), ReturnPayload(r);
    forall k | k != "action" && k != "personInCharge" && k != "name" && k != "pulledOutBy" && k != "date" && k != "remarks"
      ensures Lookup(a, k) == None && Lookup(b, k) == None
    {
      LookupAbsent(a, k);
      LookupAbsent(b, k);
    }
  }

  /** Deleting a note sends exactly the empty note that the note form refuses to send. */
  lemma DeleteSendsRefusedNote(name: string)
    ensures NoteCall(NoteForm(name, "")) == None
    ensures DeleteNoteCall(name).data == Some(NotePayload(name, ""))
    // both calls name the record in the same leading pair, so they address the same record
    ensures forall text :: text != "" ==> NoteCall(NoteForm(name, text)).value.data.value[0] == DeleteNoteCall(name).data.value[0]
    ensures Lookup(DeleteNoteCall(name).data.value, "note") == Some("")
  {
  }

  /** A name taken from the dropdown is never refused by the search gate: it matches a
      non-blank query, so it is not blank itself. */
  lemma SelectedNameIsSearched(name: string, query: string)
    requires !IsBlank(query) && Matches(name, query)
    ensures SearchCall(name) == Some(ApiCall("search", Get, Some([("term", Trim(name))])))
  {
    MatchingNameIsNotBlank(name, query);
  }

  /** A key pressed in the search box. */
  datatype Key = Enter | ArrowDown | ArrowUp | Escape | OtherKey

  /** The three forms with a submit button. */
  datatype FormKind = PullOutKind | ReturnKind | NoteKind

  /** A submit button's text and whether it is disabled. */
  datatype Button = Button(caption: string, disabled: bool)

  /** The text a submit button shows while its call is in flight. */
  function BusyLabel(k: FormKind): string {
    if k == NoteKind then "Saving..." else "Submitting..."
  }

  /** The notice shown when a form's call is accepted. */
  function SuccessMessage(k: FormKind): string {
    match k
    case PullOutKind => "File pulled out successfully!"
    case ReturnKind => "File returned successfully!"
    case NoteKind => "Note saved successfully!"
  }

  const NoteDeletedMessage: string := "Note deleted successfully!"

  /** The three submit buttons, and the label each in-flight submission saved so it can
      restore it on settling. */
  class FormButtons {
    var buttons: map<FormKind, Button>
    var savedLabels: map<FormKind, string>

    /** Each submit button follows its form's call. */
    ghost predicate Valid()
      reads this
    {
      TracksCall(PullOutKind) && TracksCall(ReturnKind) && TracksCall(NoteKind)
    }

    /** A submit button is disabled exactly while its form's call is in flight, and then
        shows its busy text. */
    ghost predicate TracksCall(k: FormKind)
      reads this
    {
      && k in buttons
      && (k in savedLabels <==> buttons[k].disabled)
      && (k in savedLabels ==> buttons[k].caption == BusyLabel(k))
    }

    /** Every button enabled, with its markup label. */
    constructor (labels: map<FormKind, string>)
      requires forall k: FormKind :: k in labels
      ensures Valid() && savedLabels == map[]
      ensures forall k: FormKind :: k in buttons && buttons[k] == Button(labels[k], false)
    {
      buttons := map k: FormKind | k in labels :: Button(labels[k], false);
      savedLabels := map[];
    }

    /** A submission passed its gate: save the button's label, show the busy text and
        disable the button. */
    method Disable(kind: FormKind)
      requires Valid() && !buttons[kind].disabled
      modifies this
      ensures Valid()
      ensures buttons == old(buttons)[kind := Button(BusyLabel(kind), true)]
      ensures savedLabels == old(savedLabels)[kind := old(buttons)[kind].caption]
    {
      savedLabels := savedLabels[kind := buttons[kind].caption];
      buttons := buttons[kind := Button(BusyLabel(kind), true)];
    }

    /** The submission settled: the button gets back its saved label and is enabled. */
    method Restore(kind: FormKind)
      requires Valid() && kind in savedLabels
      modifies this
      ensures Valid()
      ensures buttons == old(buttons)[kind := Button(old(savedLabels)[kind], false)]
      ensures savedLabels == old(savedLabels) - {kind}
    {
      buttons := buttons[kind := Button(savedLabels[kind], false)];
      savedLabels := savedLabels - {kind};
    }
  }

  /** The page: the search box's value, the dropdown, the results area, the calls
      issued so far, the alerts raised so far, the three submit buttons and the label
      each in-flight submission saved to restore on settling. */
  class Page {
    var searchInput: string
    const dropdown: Dropdown
    const panel: ResultsPanel
    var sent: seq<ApiCall>
    var alerts: seq<string>
    const forms: FormButtons

    /** The dropdown is consistent and lists names only for a non-blank value, and each
        submit button follows its form's call. */
    ghost predicate Valid()
      reads dropdown, forms
    {
      && dropdown.Valid() && forms.Valid()
      && ListsForNonBlank()
    }

    /** The dropdown lists names only after a value that does not start with whitespace,
        so every listed name passes the search gate. */
    ghost predicate ListsForNonBlank()
      reads dropdown`items, dropdown`query
    {
      dropdown.items != [] ==> dropdown.query != [] && !IsWhitespace(dropdown.query[0])
    }

    /** `DOMContentLoaded`: an empty box, an empty dropdown and results area, every submit
        button enabled with its markup label, and the names request sent. */
    constructor (labels: map<FormKind, string>)
      requires forall k: FormKind :: k in labels
      ensures Valid() && fresh(dropdown) && fresh(panel) && fresh(forms)
      ensures searchInput == "" && sent == [SuggestionsCall] && alerts == [] && forms.savedLabels == map[]
      ensures forall k: FormKind :: k in forms.buttons && forms.buttons[k] == Button(labels[k], false)
      ensures dropdown.allNames == [] && dropdown.items == [] && !dropdown.noMatchNotice && !dropdown.visible && dropdown.selectedIndex == -1
      ensures panel.container == [] && !panel.countShown && panel.count == 0 && panel.sheetInfo == ""
    {
      searchInput := "";
      dropdown := new Dropdown();
      panel := new ResultsPanel();
      sent := [SuggestionsCall];
      alerts := [];
      forms := new FormButtons(labels);
    }

    /** The names request settles: a reply without error loads its names (none when it
        has no `names`); an error reply changes nothing; a transport failure empties the
        results container, as `callApi` passes its message to `showResults` wrapped in an array. */
    method DeliverSuggestions(outcome: Outcome)
      requires Valid()
      modifies dropdown`allNames, panel
      ensures Valid()
      ensures Classify(outcome).Accepted? ==> dropdown.allNames == outcome.response.names.GetOr([]) && unchanged(panel)
      ensures Classify(outcome).AppError? ==> dropdown.allNames == old(dropdown.allNames) && unchanged(panel)
      ensures outcome.TransportFailed? ==> dropdown.allNames == old(dropdown.allNames)
      ensures outcome.TransportFailed? ==> panel.container == [] && panel.countShown == old(panel.countShown) && panel.count == old(panel.count) && panel.sheetInfo == old(panel.sheetInfo)
    {
      match outcome
      case Replied(response) =>
        if response.error == "" {
          dropdown.LoadNames(response.names.GetOr([]));
        }
      case TransportFailed(reason) =>
        panel.ShowWrappedError(ConnectionFailedMessage(reason));
    }

    /** The debounced `input` handler, run with the box's value: a non-blank value shows
        the suggestions for its trimmed form, a blank one hides the dropdown. */
    method OnInput(text: string)
      requires Valid()
      modifies this`searchInput, dropdown`items, dropdown`noMatchNotice, dropdown`visible, dropdown`selectedIndex, dropdown`query
      ensures Valid() && searchInput == text && dropdown.selectedIndex == -1
      ensures Trim(text) != [] ==> dropdown.visible && dropdown.items == Suggestions(dropdown.allNames, Trim(text))
      ensures Trim(text) != [] ==> (dropdown.noMatchNotice <==> MatchingNames(dropdown.allNames, Trim(text)) == [])
      ensures Trim(text) == [] ==> !dropdown.visible && dropdown.items == old(dropdown.items)
      ensures Trim(text) == [] ==> dropdown.noMatchNotice == old(dropdown.noMatchNotice) && dropdown.query == old(dropdown.query)
    {
      searchInput := text;
      var value := Trim(text);
      if |value| > 0 {
        TrimIsSlice(text);
        dropdown.Show(value);
      } else {
        dropdown.Hide();
      }
    }

    /** `performSearch()`: a blank box sends nothing and, as its prompt is passed to
        `showResults` wrapped in an array, only empties the results container; otherwise
        the dropdown is hidden, the spinner shown and the search sent. */
    method PerformSearch()
      requires Valid()
      modifies this`sent, dropdown`visible, dropdown`selectedIndex, panel
      ensures Valid()
      ensures sent == old(sent) + Issued(SearchCall(searchInput))
      ensures SearchCall(searchInput).None? ==> panel.container == [] && panel.countShown == old(panel.countShown) && panel.count == old(panel.count) && panel.sheetInfo == old(panel.sheetInfo)
      ensures SearchCall(searchInput).None? ==>
        dropdown.visible == old(dropdown.visible) && dropdown.selectedIndex == old(dropdown.selectedIndex)
      ensures SearchCall(searchInput).Some? ==> panel.container == [Spinner] && !dropdown.visible && dropdown.selectedIndex == -1
      ensures SearchCall(searchInput).Some? ==> !panel.countShown && panel.sheetInfo == "" && panel.count == old(panel.count)
    {
      Dispatch(SearchCall(searchInput));
    }

    /** The body of `performSearch()` once the gate has decided: no call shows the
        wrapped prompt; a call hides the dropdown, shows the spinner and is sent. */
    method Dispatch(call: Option<ApiCall>)
      requires Valid()
      modifies this`sent, dropdown`visible, dropdown`selectedIndex, panel
      ensures Valid()
      ensures sent == old(sent) + Issued(call)
      ensures call.None? ==> panel.container == [] && panel.countShown == old(panel.countShown) && panel.count == old(panel.count) && panel.sheetInfo == old(panel.sheetInfo)
      ensures call.None? ==>
        dropdown.visible == old(dropdown.visible) && dropdown.selectedIndex == old(dropdown.selectedIndex)
      ensures call.Some? ==> panel.container == [Spinner] && !dropdown.visible && dropdown.selectedIndex == -1
      ensures call.Some? ==> !panel.countShown && panel.sheetInfo == "" && panel.count == old(panel.count)
    {
      if call.None? {
        panel.ShowWrappedError(BlankSearchMessage);
        return;
      }
      dropdown.Hide();
      panel.ShowLoading();
      sent := sent + [call.value];
    }

    /** A search settles: a reply is rendered; a transport failure empties the results container. */
    method DeliverSearchResults(outcome: Outcome)
      requires Valid()
      modifies panel
      ensures Valid()
      ensures outcome.Replied? ==> panel.container == RenderedBlocks(outcome.response)
      ensures outcome.Replied? && outcome.response.error != "" ==>
        !panel.countShown && panel.sheetInfo == "" && panel.count == old(panel.count)
      ensures outcome.Replied? && outcome.response.error == "" ==>
        panel.sheetInfo == if outcome.response.sheetName != "" then "Sheet: " + outcome.response.sheetName else old(panel.sheetInfo)
      ensures outcome.Replied? && outcome.response.error == "" && outcome.response.results.None? ==>
        panel.countShown == old(panel.countShown) && panel.count == old(panel.count)
      ensures outcome.Replied? && outcome.response.error == "" && outcome.response.results == Some([]) ==>
        !panel.countShown && panel.count == old(panel.count)
      ensures outcome.Replied? && outcome.response.error == "" && outcome.response.results.Some? && outcome.response.results.value != [] ==>
        panel.countShown && panel.count == |outcome.response.results.value|
      ensures outcome.TransportFailed? ==> panel.container == [] && panel.countShown == old(panel.countShown) && panel.count == old(panel.count) && panel.sheetInfo == old(panel.sheetInfo)
    {
      match outcome
      case Replied(response) => panel.ShowResults(response);
      case TransportFailed(reason) => panel.ShowWrappedError(ConnectionFailedMessage(reason));
    }

    /** `selectAutocompleteItem(index)`: when there is an item at `index`, its name goes
        into the box, the dropdown is hidden and the name is searched for. Otherwise nothing happens. */
    method SelectAutocompleteItem(index: int)
      requires Valid()
      modifies this`searchInput, this`sent, dropdown`visible, dropdown`selectedIndex, panel
      ensures Valid()
      ensures 0 <= index < |dropdown.items| ==>
        && searchInput == dropdown.items[index]
        && SearchCall(searchInput).Some? && sent == old(sent) + [SearchCall(searchInput).value]
        && !dropdown.visible && dropdown.selectedIndex == -1
      ensures 0 <= index < |dropdown.items| ==>
        panel.container == [Spinner] && !panel.countShown && panel.sheetInfo == "" && panel.count == old(panel.count)
      ensures !(0 <= index < |dropdown.items|) ==>
        searchInput == old(searchInput) && sent == old(sent) && unchanged(dropdown) && unchanged(panel)
    {
      var item := dropdown.ItemAt(index);
      if item.Some? {
        ghost var call := SearchCall(item.value);
        assert call.Some? by {
          assert !IsBlank(dropdown.query);
          SelectedNameIsSearched(item.value, dropdown.query);
        }
        searchInput := item.value;
        dropdown.Hide();
        ghost var before := sent;
        PerformSearch();
        assert sent == before + [call.value];
      }
    }

    /** The search box's key handler. Enter picks the highlighted suggestion if there is
        one and searches the box otherwise; the arrows move the highlight round the list;
        Escape hides the dropdown; other keys do nothing. */
    method KeyPress(key: Key)
      requires Valid()
      modifies this`searchInput, this`sent, dropdown`visible, dropdown`selectedIndex, panel
      ensures Valid()
      ensures key == Enter ==> sent == old(sent) + Issued(SearchCall(searchInput))
      ensures key == Enter && old(dropdown.selectedIndex) >= 0 ==>
        searchInput == dropdown.items[old(dropdown.selectedIndex)] && !dropdown.visible && dropdown.selectedIndex == -1
      ensures key == Enter && old(dropdown.selectedIndex) >= 0 ==>
        SearchCall(searchInput).Some? && panel.container == [Spinner] && !panel.countShown && panel.sheetInfo == "" && panel.count == old(panel.count)
      ensures key == Enter && old(dropdown.selectedIndex) < 0 ==> searchInput == old(searchInput)
      ensures key == Enter && old(dropdown.selectedIndex) < 0 && SearchCall(searchInput).Some? ==>
        !dropdown.visible && dropdown.selectedIndex == -1 && panel.container == [Spinner] && !panel.countShown && panel.sheetInfo == "" && panel.count == old(panel.count)
      ensures key == Enter && old(dropdown.selectedIndex) < 0 && SearchCall(searchInput).None? ==>
        && panel.container == [] && panel.countShown == old(panel.countShown) && panel.count == old(panel.count) && panel.sheetInfo == old(panel.sheetInfo)
        && dropdown.visible == old(dropdown.visible) && dropdown.selectedIndex == old(dropdown.selectedIndex)
      ensures key == ArrowDown && dropdown.items != [] ==>
        dropdown.selectedIndex == NextIndex(old(dropdown.selectedIndex), 1, |dropdown.items|)
      ensures key == ArrowUp && dropdown.items != [] ==>
        dropdown.selectedIndex == NextIndex(old(dropdown.selectedIndex), -1, |dropdown.items|)
      ensures (key == ArrowDown || key == ArrowUp) && dropdown.items == [] ==> dropdown.selectedIndex == old(dropdown.selectedIndex)
      ensures key == Escape ==> !dropdown.visible && dropdown.selectedIndex == -1
      ensures key != Enter ==> searchInput == old(searchInput) && sent == old(sent) && unchanged(panel)
      ensures key != Escape && key != Enter ==> dropdown.visible == old(dropdown.visible)
      ensures key == OtherKey ==> unchanged(dropdown)
    {
      match key
      case Enter =>
        if dropdown.selectedIndex >= 0 {
          SelectAutocompleteItem(dropdown.selectedIndex);
        } else {
          PerformSearch();
        }
      case ArrowDown => dropdown.Navigate(1);
      case ArrowUp => dropdown.Navigate(-1);
      case Escape => dropdown.Hide();
      case OtherKey =>
    }

    /** A submission that passed its gate: the button goes busy and the call is sent. */
    method Launch(kind: FormKind, call: ApiCall)
      requires Valid() && !forms.buttons[kind].disabled
      modifies this`sent, forms
      ensures Valid()
      ensures sent == old(sent) + [call]
      ensures forms.buttons == old(forms.buttons)[kind := Button(BusyLabel(kind), true)]
      ensures forms.savedLabels == old(forms.savedLabels)[kind := old(forms.buttons)[kind].caption]
    {
      forms.Disable(kind);
      sent := sent + [call];
    }

    /** `submitPullOutForm()`: a missing required field raises the alert and changes nothing
        else; otherwise the entry is posted and the button goes busy. The handler does not
        test the button itself: the precondition that it is enabled stands for the browser
        not submitting a form whose submit button is disabled, and the same holds for the
        other two forms. */
    method SubmitPullOutForm(form: PullOutForm)
      requires Valid() && !forms.buttons[PullOutKind].disabled
      modifies this`sent, this`alerts, forms
      ensures Valid()
      ensures sent == old(sent) + Issued(PullOutCall(form))
      ensures PullOutCall(form).None? ==>
        alerts == old(alerts) + [RequiredFieldsAlert] && unchanged(forms)
      ensures PullOutCall(form).Some? ==>
        && alerts == old(alerts)
        && forms.buttons == old(forms.buttons)[PullOutKind := Button(BusyLabel(PullOutKind), true)]
        && forms.savedLabels == old(forms.savedLabels)[PullOutKind := old(forms.buttons)[PullOutKind].caption]
    {
      var call := PullOutCall(form);
      if call.None? {
        alerts := alerts + [RequiredFieldsAlert];
        return;
      }
      Launch(PullOutKind, call.value);
    }

    /** `submitReturnForm()`: as for a pull out, with the return gate. */
    method SubmitReturnForm(form: ReturnForm)
      requires Valid() && !forms.buttons[ReturnKind].disabled
      modifies this`sent, this`alerts, forms
      ensures Valid()
      ensures sent == old(sent) + Issued(ReturnCall(form))
      ensures ReturnCall(form).None? ==>
        alerts == old(alerts) + [RequiredFieldsAlert] && unchanged(forms)
      ensures ReturnCall(form).Some? ==>
        && alerts == old(alerts)
        && forms.buttons == old(forms.buttons)[ReturnKind := Button(BusyLabel(ReturnKind), true)]
        && forms.savedLabels == old(forms.savedLabels)[ReturnKind := old(forms.buttons)[ReturnKind].caption]
    {
      var call := ReturnCall(form);
      if call.None? {
        alerts := alerts + [RequiredFieldsAlert];
        return;
      }
      Launch(ReturnKind, call.value);
    }

    /** `submitNoteForm()`: an empty note raises its alert and changes nothing else;
        otherwise the note is posted and the button shows "Saving...". */
    method SubmitNoteForm(form: NoteForm)
      requires Valid() && !forms.buttons[NoteKind].disabled
      modifies this`sent, this`alerts, forms
      ensures Valid()
      ensures sent == old(sent) + Issued(NoteCall(form))
      ensures NoteCall(form).None? ==>
        alerts == old(alerts) + [EmptyNoteAlert] && unchanged(forms)
      ensures NoteCall(form).Some? ==>
        && alerts == old(alerts)
        && forms.buttons == old(forms.buttons)[NoteKind := Button("Saving...", true)]
        && forms.savedLabels == old(forms.savedLabels)[NoteKind := old(forms.buttons)[NoteKind].caption]
    {
      var call := NoteCall(form);
      if call.None? {
        alerts := alerts + [EmptyNoteAlert];
        return;
      }
      Launch(NoteKind, call.value);
    }

    /** What a settled form or delete call does before the button is restored: an
        accepted reply shows the success notice and searches the box again, which
        replaces the notice at once; an error reply raises an alert; a transport failure
        empties the results container. */
    method React(outcome: Outcome, success: string)
      requires Valid()
      modifies this`alerts, this`sent, dropdown`visible, dropdown`selectedIndex, panel
      ensures Valid()
      ensures Classify(outcome).Accepted? ==> sent == old(sent) + Issued(SearchCall(searchInput)) && alerts == old(alerts)
      ensures Classify(outcome).Accepted? ==>
        panel.container == if SearchCall(searchInput).None? then [] else [Spinner]
      ensures Classify(outcome).AppError? ==>
        alerts == old(alerts) + [ErrorAlert(outcome.response.error)] && sent == old(sent) && unchanged(panel)
      ensures outcome.TransportFailed? ==>
        panel.container == [] && sent == old(sent) && alerts == old(alerts)
      ensures Classify(outcome).AppError? ==> dropdown.visible == old(dropdown.visible) && dropdown.selectedIndex == old(dropdown.selectedIndex)
      ensures outcome.TransportFailed? ==> panel.countShown == old(panel.countShown) && panel.count == old(panel.count) && panel.sheetInfo == old(panel.sheetInfo)
      ensures outcome.TransportFailed? ==> dropdown.visible == old(dropdown.visible) && dropdown.selectedIndex == old(dropdown.selectedIndex)
      ensures Classify(outcome).Accepted? && SearchCall(searchInput).Some? ==>
        !panel.countShown && panel.sheetInfo == "" && !dropdown.visible && dropdown.selectedIndex == -1
      ensures Classify(outcome).Accepted? ==> panel.count == old(panel.count)
      ensures Classify(outcome).Accepted? && SearchCall(searchInput).None? ==>
        && panel.countShown == old(panel.countShown) && panel.sheetInfo == old(panel.sheetInfo)
        && dropdown.visible == old(dropdown.visible) && dropdown.selectedIndex == old(dropdown.selectedIndex)
    {
      match outcome
      case Replied(response) =>
        if response.error != "" {
          alerts := alerts + [ErrorAlert(response.error)];
        } else {
          panel.ShowSuccessMessage(success);
          PerformSearch();
        }
      case TransportFailed(reason) =>
        panel.ShowWrappedError(ConnectionFailedMessage(reason));
    }

    /** A form's call settles. Whatever the outcome, the button gets back the label it had
        before the submission and is enabled again. */
    method Settle(kind: FormKind, outcome: Outcome)
      requires Valid() && kind in forms.savedLabels
      modifies this`alerts, this`sent, forms, dropdown`visible, dropdown`selectedIndex, panel
      ensures Valid()
      ensures forms.buttons == old(forms.buttons)[kind := Button(old(forms.savedLabels)[kind], false)]
      ensures forms.savedLabels == old(forms.savedLabels) - {kind}
      ensures Classify(outcome).Accepted? ==> sent == old(sent) + Issued(SearchCall(searchInput)) && alerts == old(alerts)
      ensures Classify(outcome).Accepted? ==> SuccessNotice(SuccessMessage(kind)) !in panel.container
      ensures Classify(outcome).Accepted? ==>
        panel.container == if SearchCall(searchInput).None? then [] else [Spinner]
      ensures Classify(outcome).AppError? ==>
        alerts == old(alerts) + [ErrorAlert(outcome.response.error)] && sent == old(sent) && unchanged(panel)
      ensures outcome.TransportFailed? ==>
        panel.container == [] && sent == old(sent) && alerts == old(alerts)
      ensures Classify(outcome).AppError? ==> dropdown.visible == old(dropdown.visible) && dropdown.selectedIndex == old(dropdown.selectedIndex)
      ensures outcome.TransportFailed? ==> panel.countShown == old(panel.countShown) && panel.count == old(panel.count) && panel.sheetInfo == old(panel.sheetInfo)
      ensures outcome.TransportFailed? ==> dropdown.visible == old(dropdown.visible) && dropdown.selectedIndex == old(dropdown.selectedIndex)
      ensures Classify(outcome).Accepted? && SearchCall(searchInput).Some? ==>
        !panel.countShown && panel.sheetInfo == "" && !dropdown.visible && dropdown.selectedIndex == -1
      ensures Classify(outcome).Accepted? ==> panel.count == old(panel.count)
      ensures Classify(outcome).Accepted? && SearchCall(searchInput).None? ==>
        && panel.countShown == old(panel.countShown) && panel.sheetInfo == old(panel.sheetInfo)
        && dropdown.visible == old(dropdown.visible) && dropdown.selectedIndex == old(dropdown.selectedIndex)
    {
      React(outcome, SuccessMessage(kind));
      forms.Restore(kind);
    }

    /** `deleteNote(name)`, after the confirmation: the empty note is sent. */
    method DeleteNote(name: string)
      requires Valid()
      modifies this`sent
      ensures Valid()
      ensures sent == old(sent) + [DeleteNoteCall(name)]
    {
      sent := sent + [DeleteNoteCall(name)];
    }

    /** The delete call settles, as a form's call does but with no button to restore. */
    method SettleDeleteNote(outcome: Outcome)
      requires Valid()
      modifies this`alerts, this`sent, dropdown`visible, dropdown`selectedIndex, panel
      ensures Valid()
      ensures Classify(outcome).Accepted? ==> sent == old(sent) + Issued(SearchCall(searchInput)) && alerts == old(alerts)
      ensures Classify(outcome).Accepted? ==> SuccessNotice(NoteDeletedMessage) !in panel.container
      ensures Classify(outcome).Accepted? ==>
        panel.container == if SearchCall(searchInput).None? then [] else [Spinner]
      ensures Classify(outcome).AppError? ==>
        alerts == old(alerts) + [ErrorAlert(outcome.response.error)] && sent == old(sent) && unchanged(panel)
      ensures outcome.TransportFailed? ==>
        panel.container == [] && sent == old(sent) && alerts == old(alerts)
      ensures Classify(outcome).AppError? ==> dropdown.visible == old(dropdown.visible) && dropdown.selectedIndex == old(dropdown.selectedIndex)
      ensures outcome.TransportFailed? ==> panel.countShown == old(panel.countShown) && panel.count == old(panel.count) && panel.sheetInfo == old(panel.sheetInfo)
      ensures outcome.TransportFailed? ==> dropdown.visible == old(dropdown.visible) && dropdown.selectedIndex == old(dropdown.selectedIndex)
      ensures Classify(outcome).Accepted? && SearchCall(searchInput).Some? ==>
        !panel.countShown && panel.sheetInfo == "" && !dropdown.visible && dropdown.selectedIndex == -1
      ensures Classify(outcome).Accepted? ==> panel.count == old(panel.count)
      ensures Classify(outcome).Accepted? && SearchCall(searchInput).None? ==>
        && panel.countShown == old(panel.countShown) && panel.sheetInfo == old(panel.sheetInfo)
        && dropdown.visible == old(dropdown.visible) && dropdown.selectedIndex == old(dropdown.selectedIndex)
    {
      React(outcome, NoteDeletedMessage);
    }
  }
}
