# Records search front end: a Dafny model

`script.js` is the browser side of a records tool. It lets you search records by name
with autocomplete, pull a file out or return it, and add, edit or delete a note on a
record. Every action goes through `callApi`, which calls a remote endpoint. This project
models the logic inside that script, without the DOM:

- **The autocomplete engine** (module `Autocomplete`):
  - the filter: a case-insensitive substring match that keeps the list's order and lists at most ten names;
  - the `selectedIndex` cursor, which wraps round the list;
  - the dropdown class that `showAutocomplete`, `hideAutocomplete`, `navigateAutocomplete` and `selectAutocompleteItem` update.
- **The actions** (module `Actions`):
  - the validation gate of each action, and the request it builds;
  - the submit buttons, which go busy while a call is in flight and are restored when it settles;
  - the key handler and the debounced input handler of the search box;
  - a `Page` class that holds the search box, the dropdown, the results area, the calls issued and the alerts raised.
- **The result view-model of `showResults`** (module `Cards`): the card each record gets and what the results container holds.
- **Supporting modules:**
  - `Api`: the call, the HTTP request built from it, the reply object and the three ways a call can end;
  - `Text`: ECMAScript `trim`, ASCII `toLowerCase` and `includes`.

How the model represents the script:

- **Calls are asynchronous.** An operation issues a call by appending it to `Page.sent`. A separate method later settles the call with an abstract `Outcome`:
  - a reply;
  - a reply that carries `error`;
  - a transport failure.

  Several calls may be in flight at once and may settle in any order.
- **Records** are `(key, value)` sequences in `Object.keys` order. They have string values; a missing key and an empty value are both falsy.
- **`toLowerCase` for ASCII letters only.** It is modelled that way; other characters are left as they are.

## Model

| member | source | states |
|---|---|---|
| Text.Trim | script.js:53 | `trim`: leading whitespace, then trailing whitespace, dropped, over the ECMAScript whitespace and line-terminator set; its meaning is stated by the lemmas below |
| Text.Contains | script.js:522 | `includes`, checked position by position; `Text.ContainsIff` states what it means |
| Text.TrimIsSlice | script.js:53 | `trim` cuts one contiguous slice out of the value. It drops only whitespace before and after, and what is left neither starts nor ends with whitespace |
| Text.TrimEmptyIffBlank | script.js:53-54 | the trimmed term is empty exactly when the value is whitespace only; this is the `!searchTerm` test |
| Text.TrimmedIsNotBlank | script.js:53-54 | a non-empty trimmed term is not blank (the converse direction, blank input trims to nothing, is `Text.TrimEmptyIffBlank`) |
| Text.TrimIdempotent | script.js:53 | trimming twice is trimming once |
| Text.LowerCharIsItsLetter | script.js:522 | `toLowerCase` maps each ASCII capital to the lower-case letter 32 code points on, and lowering twice is lowering once |
| Text.Lower | script.js:522 | `toLowerCase` keeps the length and lowers each character |
| Text.ContainsIff | script.js:522 | `includes` holds exactly when the text occurs at some position |
| Api.Lookup | script.js:22 | property read `obj[key]`: the value of the first pair with the key, or `undefined`; `Api.LookupSpec` states what it means |
| Api.LookupSpec | script.js:22 | reading `obj[key]` finds a value exactly when some pair has that key, and the value belongs to such a pair |
| Api.LookupFindsPair | script.js:22 | with distinct keys, the value of a pair that is present is what the read returns |
| Api.LookupAbsent | script.js:22 | an object without the key reads `undefined` |
| Api.ToHttp | script.js:12-25 | `path` is always the first query parameter. The method is kept, and a POST puts nothing else in the query |
| Api.HttpRoundTrip | script.js:14-25 | the endpoint reads back the call's path and exactly its data fields. GET data travels in the query, POST data in the body, and with no data neither carries any |
| Api.Classify | script.js:86-94 | a transport failure goes to `.catch`. A reply goes to `.then`, and there it is an application error exactly when `error` is truthy; its message is that `error` |
| Api.ConnectionFailedMessage | script.js:45 | the connection-failure message is never empty |
| Api.Issued | script.js:54-61 | an operation that may short-circuit issues no call or exactly one |
| Autocomplete.Matches | script.js:522 | the filter's test: the lowered name includes the lowered input |
| Autocomplete.MatchingNames | script.js:521-523 | the filter keeps exactly the loaded names that match, and never more names than were loaded |
| Autocomplete.MatchingNamesMultiplicity | script.js:521-523 | every copy of a matching name is kept and no copy of any other name |
| Autocomplete.MatchingNamesIsSubsequence | script.js:521-523 | the filter keeps the loaded order |
| Autocomplete.MatchingNamesAppend | script.js:521-523 | filtering a concatenation gives the matches of each part, in order |
| Autocomplete.PrefixOfSubsequence | script.js:528 | cutting the matches short still keeps the loaded order |
| Autocomplete.Suggestions | script.js:525-528 | at most ten names are listed. They are the first matches, and when fewer than ten are listed they are all the matches |
| Autocomplete.SuggestionsSpec | script.js:521-528 | every suggestion is a loaded name that matches, and the suggestions keep the loaded order. Below ten, no match is missing. Nothing is listed exactly when nothing matches |
| Autocomplete.MatchIgnoresCase | script.js:522 | lowering either side first does not change the match |
| Autocomplete.MatchingNameIsNotBlank | script.js:521-523 | a name that matches a non-blank input is not blank (the input handler only ever filters with a non-blank value, script.js:205-206) |
| Autocomplete.NextIndex | script.js:584-590 | after a move over a non-empty list the cursor is in `[0, n)` |
| Autocomplete.CursorWraps | script.js:584-590 | down from the last item or from no selection reaches the first item; up from the first item or from no selection reaches the last |
| Autocomplete.CursorStepsAreInverse | script.js:584-590 | on a selected item, one step up undoes one step down and the other way round |
| Autocomplete.Pressed | script.js:584-590 | after at least one press the cursor is in range |
| Autocomplete.CursorIsCyclic | script.js:584-590 | from a selected item, `k` presses of an arrow move the cursor `k` places round the list (modulo its length) |
| Autocomplete.Dropdown.constructor | script.js:6-7 | no names loaded, no items, hidden, and no selection |
| Autocomplete.Dropdown.LoadNames | script.js:185 | the loaded list is the reply's names; the dropdown invariant is kept |
| Autocomplete.Dropdown.Show | script.js:511-559 | the items are emptied and the cursor reset. An empty input hides the dropdown. Otherwise the items are the suggestions, the no-match line appears exactly when nothing matches, and the dropdown is shown |
| Autocomplete.Dropdown.Hide | script.js:561-564 | the dropdown is hidden and the cursor reset; the items stay |
| Autocomplete.Dropdown.Navigate | script.js:576-594 | with no items nothing changes; otherwise the cursor becomes the wrapped move |
| Autocomplete.Dropdown.ItemAt | script.js:567-569 | there is an item exactly when the index is in range, and then it is that item's name |
| Cards.Truthy | script.js:298 | `record[key]` is truthy: the key is present and its value not empty |
| Cards.IsPulledOut | script.js:263 | the one test `record.Status === "Pulled Out"` |
| Cards.OrderedRows | script.js:297-319 | a row for each ordered field with a truthy value, in the order of `orderedFields`; stated by `Cards.OrderedRowsMembers` and `Cards.OrderedRowsInOrder` |
| Cards.GenericRows | script.js:321-339 | a row for each pair, in key order, whose key is neither reserved nor ordered and whose value is not empty; stated by `Cards.GenericRowsSpec` |
| Cards.DetailRows | script.js:295-339 | the ordered rows, then the generic rows |
| Cards.CardBlocks | script.js:259-414 | one card block per record, in order; stated by `Cards.CardsInCardBlocks` |
| Cards.RenderedBlocks | script.js:230-259 | the container's content after `showResults`: the error notice alone; nothing when the reply has no `results`; the no-records placeholder; otherwise the cards |
| Cards.BuildDetailRows | script.js:295-339 | two loops, over the ordered fields and then over the record's keys, build exactly the detail rows of the record |
| Cards.OrderedRowsMembers | script.js:295-319 | an ordered row is exactly a truthy ordered field with its value. Only Storage Area gets the storage badge |
| Cards.OrderedRowsInOrder | script.js:295-297 | the ordered rows come in the fixed order Storage Area, Level, Partition |
| Cards.GenericRowsSpec | script.js:321-339 | a generic row is exactly a record pair that has a non-empty value and a key that is neither reserved nor ordered |
| Cards.DetailLabelsDistinct | script.js:295-339 | in a record with distinct keys, no key labels two detail rows |
| Cards.GenericLabelsDistinct | script.js:321-339 | the generic rows of a record with distinct keys have distinct labels |
| Cards.CardOf | script.js:259-408 | one `Status` test decides the pulled-out style, the badge and both buttons, so exactly one of Pull Out and Return is enabled. A truthy `Notes` gives the note with Edit and Delete, and anything else gives Add only. A truthy `Name` is the title and any other gives "Unnamed Record", so the title is never empty. A truthy `Position` is the position badge with its value, a shown note carries the `Notes` value, and the buttons target the record's `Name` |
| Cards.BuildCard | script.js:259-413 | the step-by-step card building of the `forEach` body gives `CardOf` |
| Cards.BuildCardBlocks | script.js:259-414 | the `forEach` appends one card block per record, in order |
| Cards.RenderedCards | script.js:232-259 | the cards shown are those of the records, one each and in order. An error reply, or one without records, shows none |
| Cards.CardsInCardBlocks | script.js:259-414 | the card blocks hold exactly one card per record, in order |
| Cards.ReplacedLookup | script.js:148 | after the endpoint stores a value under a present key, reading that key gives the value and every other key is unchanged |
| Cards.AppendLookup | script.js:148 | adding a new key gives its value and leaves every other key unchanged |
| Cards.WithoutLookup | script.js:346 | a record without the key reads `undefined` for it and the same for every other key |
| Cards.GenericRowsIgnoreReserved | script.js:321-323 | changing, adding or dropping a reserved key leaves the generic rows alone |
| Cards.GenericRowsAppend | script.js:321 | the generic rows of a concatenation are those of each part, in order |
| Cards.OrderedRowsFromLookups | script.js:297-298 | the ordered rows read only the ordered fields' values |
| Cards.ClearedNoteRendersAsNone | script.js:346-382 | a record whose note was cleared draws the same card as the record with no note |
| Cards.SameCard | script.js:259-408 | two records that agree on every key but `Notes`, have the same generic rows and have no truthy note draw the same card |
| Cards.WithFieldTwice | script.js:148 | storing a note twice keeps only the second value |
| Cards.NoteRoundTrip | script.js:346-382 | saving a note (script.js:148) and then deleting it (script.js:165) leaves the card as if no note had been set |
| Cards.JaneDoeScenario | script.js:259-408 | one in-filing record stored in A1 renders one card titled with its name. It has the storage badge, Pull Out enabled, Return disabled and Add Note |
| Cards.WrappedErrorIsLost | script.js:232-243 | as written, a message wrapped in an array (script.js:45 and script.js:55) reaches the page as an emptied container, where an error reply would show its notice |
| Cards.ResultsPanel.ShowResults | script.js:228-257 | the container becomes the rendered blocks of the reply. An error hides the count and clears the sheet line. A truthy sheet name sets the line. No records hide the count, and records show their number |
| Cards.ResultsPanel.ShowLoading | script.js:450-455 | the spinner alone, with the count hidden and the sheet line cleared |
| Cards.ResultsPanel.ShowSuccessMessage | script.js:493-498 | the notice goes in front of what the container holds |
| Cards.ResultsPanel.ShowWrappedError | script.js:55 | as written (here and at script.js:45): the container is emptied and nothing else changes |
| Cards.ResultsPanel.ShowError | script.js:232-236 | corrected: the error notice alone, with the count hidden and the sheet line cleared |
| Actions.SearchCall | script.js:52-61 | a search, when made, is a GET of `search` |
| Actions.SearchGate | script.js:53-61 | no call exactly when the value is blank. Otherwise the `term` sent is the trimmed value, and searching the trimmed value sends the same call, since trim is idempotent |
| Actions.SearchRequest | script.js:14-22 | on the wire, a search is `path=search&term=<trimmed value>`, and the term is the value's own characters with the surrounding whitespace cut off |
| Actions.PullOutPayload | script.js:67-74 | the pull-out object: name, `action: 'Pull Out'`, person, date, remarks and person in charge, in that key order |
| Actions.ReturnPayload | script.js:102-108 | the return object: name, `action: 'Return'`, the returner under `pulledOutBy`, date and remarks |
| Actions.NotePayload | script.js:148 | the note object: name and note |
| Actions.DeleteNoteCall | script.js:165 | a POST of `updateNote` with the name and `note: ''` |
| Actions.SuggestionsCall | script.js:180 | a GET of `getSuggestions` with no data |
| Actions.ErrorAlert | script.js:87 | the alert `'Error: ' + response.error` |
| Actions.BusyLabel | script.js:82 | the busy text: "Saving..." for the note form (script.js:145), "Submitting..." for the other two |
| Actions.SuccessMessage | script.js:90 | each form's success notice, as at script.js:90, script.js:124 and script.js:153 |
| Actions.PullOutCall | script.js:66-85 | no call exactly when the person, the date or the person in charge is empty. Otherwise a POST of `logAction` with the form's object |
| Actions.PullOutPayloadFields | script.js:67-74 | the keys are distinct, and each form value and `action: 'Pull Out'` are read back under their own keys |
| Actions.ReturnCall | script.js:101-119 | no call exactly when the returner or the date is empty. Otherwise a POST of `logAction` with the form's object |
| Actions.ReturnPayloadFields | script.js:102-108 | `action: 'Return'`, and the returner is read under `pulledOutBy`. There is no `personInCharge` and no `returnedBy` |
| Actions.LogEntriesShareKeys | script.js:67-108 | a pull out and a return with the same name, person, date and remarks agree on every key but `action` and `personInCharge` |
| Actions.NoteCall | script.js:135-148 | no call exactly when the note text is empty. A note of spaces passes. Otherwise a POST of `updateNote` with the name and the note |
| Actions.DeleteSendsRefusedNote | script.js:165 | deleting sends exactly the empty note that the note form refuses to send (script.js:138) |
| Actions.SelectedNameIsSearched | script.js:566-572 | a name picked from the dropdown always passes the search gate |
| Actions.FormButtons.constructor | script.js:80-81 | every submit button is enabled, shows its markup label and has no saved label |
| Actions.FormButtons.Disable | script.js:80-83 | the label is saved, the busy text shown and the button disabled; the invariant that a button is disabled exactly while its call is in flight is kept |
| Actions.FormButtons.Restore | script.js:95-98 | the saved label comes back, the button is enabled and the saved label dropped |
| Actions.Page.constructor | script.js:178-180 | an empty box, a hidden and empty dropdown with no cursor and no no-match line, an empty results area with the count hidden at 0 and no sheet line, every button enabled with its label, and the names request sent |
| Actions.Page.DeliverSuggestions | script.js:180-188 | a reply without error loads its names, or none; an error reply changes nothing; a transport failure only empties the results container (script.js:45), leaving the count and sheet line as they were |
| Actions.Page.OnInput | script.js:202-209 | the box holds the value and the cursor is reset. A non-blank value shows the suggestions for its trimmed form, with the no-match line exactly when nothing matches. A blank one hides the dropdown and leaves its items, its no-match line and its query as they were |
| Actions.Page.PerformSearch | script.js:52-62 | a blank box sends nothing, leaves the dropdown alone and only empties the results container (the prompt is lost, script.js:55); the count and sheet line stay. Otherwise the dropdown is hidden, the cursor reset, the spinner shown with the count hidden and the sheet line cleared, and exactly the search call sent |
| Actions.Page.Dispatch | script.js:54-60 | the second half of `performSearch`, stated for the gate's decision: no call leaves the dropdown and only empties the container; a call hides the dropdown, shows the spinner and is sent |
| Actions.Page.DeliverSearchResults | script.js:61-63 | a reply is rendered, with the count and sheet line of `showResults` for each of its cases (script.js:232-257); a transport failure only empties the results container (script.js:45) |
| Actions.Page.SelectAutocompleteItem | script.js:566-574 | with an item at the index, its name goes into the box, the dropdown is hidden, the cursor reset and the search for it issued; the search is never refused, so exactly one call is sent, because the dropdown lists names only for a non-blank value (`Actions.Page.ListsForNonBlank`, kept by every page method); the panel then shows the spinner with the count hidden, the count kept and the sheet line cleared. Otherwise nothing changes |
| Actions.Page.KeyPress | script.js:192-199 | Enter with a selection puts the selected name in the box, hides the dropdown, resets the cursor, and the search is sent with the spinner shown, the count hidden and the sheet line cleared. Without one it searches the box as it is: a sent search hides the dropdown and shows the spinner in the same way, and a blank box only empties the container, leaving the dropdown, count and sheet line. The arrows move the wrapped cursor, and with no items leave it. Escape hides the dropdown. Other keys change nothing |
| Actions.Page.Launch | script.js:80-85 | the button goes busy and exactly the call is sent |
| Actions.Page.SubmitPullOutForm | script.js:66-85 | a failed gate raises the alert and changes nothing else. Otherwise the entry is posted and the button goes busy |
| Actions.Page.SubmitReturnForm | script.js:101-119 | as for a pull out, with the return gate |
| Actions.Page.SubmitNoteForm | script.js:135-148 | an empty note raises its alert and changes nothing else. Otherwise the note is posted and the button shows "Saving..." |
| Actions.Page.React | script.js:86-94 | an accepted reply repeats the search, which replaces the whole container and keeps the count's number; a sent search also hides the dropdown, resets the cursor, hides the count and clears the sheet line, and a blank box only empties the container, leaving the count's visibility, the sheet line and the dropdown (script.js:55). An error reply adds the alert and leaves the calls, the panel and the dropdown. A transport failure only empties the results container (script.js:45), leaving the count, sheet line, dropdown, calls and alerts |
| Actions.Page.Settle | script.js:86-98 | for each form (also script.js:120-132 and script.js:149-161), whatever the outcome, the button gets back its saved label and is enabled again. The success notice is not left on the page. Each outcome changes the page as for `Actions.Page.React`: the container ends as `[]` or `[Spinner]` after an accepted reply, with the same frames for the count, the sheet line and the dropdown |
| Actions.Page.DeleteNote | script.js:164-165 | exactly the empty note is sent, with no gate |
| Actions.Page.SettleDeleteNote | script.js:166-173 | as for a form's call, with no button to restore: each outcome changes the page as for `Actions.Page.React`, container, count, sheet line and dropdown included |

## Left out

- Cards.GenericRows: each row takes the value from its own pair, where script.js:323 and script.js:333 read `record[key]`; the two differ only for a record with a repeated key, which a parsed JSON object never has, so duplicate keys in `results` are not modelled.
- Actions.Page.SubmitPullOutForm, Actions.Page.SubmitReturnForm and Actions.Page.SubmitNoteForm require the form's submit button to be enabled; the handlers do not test it, and the precondition stands for the browser not submitting a form whose submit button is disabled.
- The HTTP exchange inside `callApi` is not modelled: `fetch`, the status check, the extraction of the JSON text from its `<script>` wrapper and the parse. A call ends in an abstract `Outcome`, and every failure is one transport failure with its message.
- The highlight regex in the dropdown items is not modelled. It builds a pattern from the unescaped input, so an input that is not a valid pattern, such as a typed `(` while a name like `Doe (Jr.)` matches, makes `new RegExp` throw (script.js:543) after the dropdown was emptied (script.js:513): the source then shows no items and does not reach script.js:558, whereas `Autocomplete.Dropdown.Show` ensures the dropdown visible with `Suggestions` as its items.
- Timers are left out:
  - the debounce: `OnInput` is the handler as it runs once the delay has passed;
  - the fade and removal of the success notice five seconds later.
- The success notice of a settled call is replaced at once by the follow-up search (script.js:91 then script.js:452), so the fade has nothing to act on. `Actions.Page.Settle` and `Actions.Page.SettleDeleteNote` state this as written.
- The DOM is left out:
  - the markup and CSS classes;
  - the `selected` class and `scrollIntoView`;
  - modals, focus, `closeModal` and the form resets;
  - `confirm` before a note is deleted; `DeleteNote` is the call made after confirmation;
  - the click listeners that `showResults` adds to the card buttons to open the modals or confirm a deletion (script.js:416-447), `currentRecordName`, and the default dates.
- The initial button labels come from the page markup, which is not part of this model, so they are a parameter of the constructor.
- `toLowerCase` is modelled for ASCII letters only. Other characters keep their case.
- Record values are strings, and a missing `error` or `sheetName` is the empty string. Non-string JSON values are not modelled.
- Console logging is not modelled.
- The endpoint's own code is not part of this model. `Cards.WithField` and `Cards.WithoutField` describe the record the endpoint returns after it stores a note, or when it has no note: the value replaces the `Notes` value, or is added as a new pair.
- Current browsers do not fire `keypress` for the arrow keys or Escape (older Firefox did). `KeyPress` models the handler as written, for every key it tests.
- The page uses the error display as written, described under Findings: a blank search and a transport failure only empty the results container. `Cards.ResultsPanel.ShowError`, the corrected display, is proved but not used by the page.

## Findings

| source | as written | input that shows it | evidently intended | confidence | as-written member | corrected member |
|---|---|---|---|---|---|---|
| script.js:45, script.js:55 | `showResults([{ error: message }])` passes an array of one object. `response.error` at script.js:232 is then `undefined`, so the container is emptied, and reading `response.results.length` at script.js:243 throws. The message never shows | a search box holding only spaces, or any call whose `fetch` fails | `showResults({ error: message })`, which shows the error notice alone and hides the count | not executed | Cards.ResultsPanel.ShowWrappedError, Cards.WrappedErrorIsLost | Cards.ResultsPanel.ShowError |
