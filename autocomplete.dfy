/**
  The autocomplete engine of the search box: the filter that turns the loaded name
  list and the typed text into at most ten suggestions, the wrapping cursor over
  them, and the dropdown that `showAutocomplete`, `hideAutocomplete`,
  `navigateAutocomplete` and `selectAutocompleteItem` update.
*/
module Autocomplete {
  import opened Text
  import opened Api

  /** `filteredNames.slice(0, 10)`: the dropdown never lists more than ten names. */
  const MaxSuggestions: nat := 10

  /** `name.toLowerCase().includes(inputValue.toLowerCase())`. */
  predicate Matches(name: string, input: string) {
    Contains(Lower(name), Lower(input))
  }

  /** `allNames.filter(...)`: the names that match, in their original order. */
  function MatchingNames(names: seq<string>, input: string): (r: seq<string>)
    ensures |r| <= |names|
    ensures forall n :: n in r <==> n in names && Matches(n, input)
  {
    if names == [] then []
    else (if Matches(names[0], input) then [names[0]] else []) + MatchingNames(names[1..], input)
  }

  /** `a` is `b` with some elements left out, the rest in order. */
  predicate IsSubsequence<T(==)>(a: seq<T>, b: seq<T>)
    decreases |b|
  {
    if b == [] then a == []
    else IsSubsequence(a, b[1..]) || (a != [] && a[0] == b[0] && IsSubsequence(a[1..], b[1..]))
  }

  /** Filtering commutes with concatenation: matches of `a + b` are those of `a`, then those of `b`. */
  lemma {:induction false} MatchingNamesAppend(a: seq<string>, b: seq<string>, input: string)
    ensures MatchingNames(a + b, input) == MatchingNames(a, input) + MatchingNames(b, input)
  {
    if a == [] {
      assert a + b == b;
    } else {
      assert (a + b)[0] == a[0];
      assert (a + b)[1..] == a[1..] + b;
      MatchingNamesAppend(a[1..], b, input);
    }
  }

  /** The filter keeps every copy of a matching name and no copy of another one. */
  lemma {:induction false} MatchingNamesMultiplicity(names: seq<string>, input: string, x: string)
    ensures multiset(MatchingNames(names, input))[x] == if Matches(x, input) then multiset(names)[x] else 0
  {
    if names != [] {
      MatchingNamesMultiplicity(names[1..], input, x);
      assert names == [names[0]] + names[1..];
    }
  }

  /** The filter keeps the original order. */
  lemma {:induction false} MatchingNamesIsSubsequence(names: seq<string>, input: string)
    ensures IsSubsequence(MatchingNames(names, input), names)
  {
    if names != [] {
      MatchingNamesIsSubsequence(names[1..], input);
      var rest := MatchingNames(names[1..], input);
      if Matches(names[0], input) {
        assert ([names[0]] + rest)[1..] == rest;
      } else {
        assert MatchingNames(names, input) == rest;
      }
    }
  }

  /** The empty sequence is a subsequence of every sequence. */
  lemma {:induction false} EmptyIsSubsequence<T>(b: seq<T>)
    ensures IsSubsequence([], b)
    decreases |b|
  {
    if b != [] {
      EmptyIsSubsequence(b[1..]);
    }
  }

  /** A prefix of a subsequence is a subsequence. */
  lemma {:induction false} PrefixOfSubsequence<T>(a: seq<T>, b: seq<T>, k: nat)
    requires k <= |a| && IsSubsequence(a, b)
    ensures IsSubsequence(a[..k], b)
    decreases |b|
  {
    if k == 0 {
      EmptyIsSubsequence(b);
    } else if IsSubsequence(a, b[1..]) {
      PrefixOfSubsequence(a, b[1..], k);
    } else {
      PrefixOfSubsequence(a[1..], b[1..], k - 1);
      assert a[..k][1..] == a[1..][..k - 1];
    }
  }

  /** The names `showAutocomplete` lists for this input: the first ten matches. */
  function Suggestions(names: seq<string>, input: string): (r: seq<string>)
    ensures |r| <= MaxSuggestions && |r| <= |MatchingNames(names, input)|
    ensures r == MatchingNames(names, input)[..|r|]
    ensures |r| < MaxSuggestions ==> r == MatchingNames(names, input)
  {
    var matches := MatchingNames(names, input);
    if |matches| <= MaxSuggestions then matches else matches[..MaxSuggestions]
  }

  /** Every suggestion is a loaded name that matches the input; the suggestions keep
      the order of the loaded list; when fewer than ten are listed, no matching name is missing;
      and nothing is listed exactly when no name matches. */
  lemma SuggestionsSpec(names: seq<string>, input: string)
    ensures forall s :: s in Suggestions(names, input) ==> s in names && Matches(s, input)
    ensures IsSubsequence(Suggestions(names, input), names)
    ensures |Suggestions(names, input)| < MaxSuggestions ==>
              forall n :: n in names && Matches(n, input) ==> n in Suggestions(names, input)
    ensures Suggestions(names, input) == [] <==> forall n :: n in names ==> !Matches(n, input)
  {
    var matches := MatchingNames(names, input);
    var r := Suggestions(names, input);
    forall s | s in r ensures s in names && Matches(s, input) {
      assert s in matches;
    }
    MatchingNamesIsSubsequence(names, input);
    PrefixOfSubsequence(matches, names, |r|);
    if matches != [] {
      assert matches[0] in matches;
      assert r != [];
    }
  }

  /** Lowering is idempotent, so the match does not depend on the case of either side. */
  lemma MatchIgnoresCase(name: string, input: string)
    ensures Matches(name, input) <==> Matches(Lower(name), input)
    ensures Matches(name, input) <==> Matches(name, Lower(input))
  {
    assert Lower(Lower(name)) == Lower(name);
    assert Lower(Lower(input)) == Lower(input);
  }

  /** A name that matches an input with a non-whitespace character has one too, so
      trimming it cannot leave an empty search term. */
  lemma MatchingNameIsNotBlank(name: string, input: string)
    requires !IsBlank(input) && Matches(name, input)
    ensures !IsBlank(name)
  {
    var j :| 0 <= j < |input| && !IsWhitespace(input[j]);
    ContainsIff(Lower(name), Lower(input));
    var i :| OccursAt(Lower(name), Lower(input), i);
    assert Lower(name)[i + j] == Lower(input)[j];
    LowerKeepsNonWhitespace(input[j]);
    LowerKeepsNonWhitespace(name[i + j]);
  }

  /** The cursor after `selectedIndex += direction` and the wrap-around, over `count` items. */
  function NextIndex(current: int, direction: int, count: nat): (r: int)
    requires count > 0
    ensures 0 <= r < count
  {
    var moved := current + direction;
    if moved < 0 then count - 1 else if moved >= count then 0 else moved
  }

  /** ArrowDown from the last item, or from no selection, lands on the first item;
      ArrowUp from the first item, or from no selection, lands on the last one. */
  lemma CursorWraps(count: nat)
    requires count > 0
    ensures NextIndex(count - 1, 1, count) == 0
    ensures NextIndex(-1, 1, count) == 0
    ensures NextIndex(0, -1, count) == count - 1
    ensures NextIndex(-1, -1, count) == count - 1
  {
  }

  /** On a selected item, ArrowUp undoes ArrowDown and ArrowDown undoes ArrowUp. */
  lemma CursorStepsAreInverse(i: int, count: nat)
    requires 0 <= i < count
    ensures NextIndex(NextIndex(i, 1, count), -1, count) == i
    ensures NextIndex(NextIndex(i, -1, count), 1, count) == i
  {
  }

  /** The cursor after `steps` presses of one arrow key. */
  function Pressed(current: int, direction: int, steps: nat, count: nat): (r: int)
    requires count > 0
    ensures steps > 0 ==> 0 <= r < count
  {
    if steps == 0 then current else NextIndex(Pressed(current, direction, steps - 1, count), direction, count)
  }

  /** From a selected item, pressing ArrowDown `k` times moves the cursor `k` places round
      the list and pressing ArrowUp `k` times moves it `k` places back: it is a cyclic counter. */
  lemma {:induction false} CursorIsCyclic(i: int, steps: nat, count: nat)
    requires 0 <= i < count
    ensures Pressed(i, 1, steps, count) == (i + steps) % count
    ensures Pressed(i, -1, steps, count) == (i - steps) % count
  {
    if steps > 0 {
      CursorIsCyclic(i, steps - 1, count);
      var d := (i + steps - 1) % count;
      var u := (i - (steps - 1)) % count;
      ModStep(i + steps - 1, count);
      ModStepBack(i - (steps - 1), count);
      assert Pressed(i, 1, steps, count) == NextIndex(d, 1, count);
      assert Pressed(i, -1, steps, count) == NextIndex(u, -1, count);
    }
  }

  /** The Euclidean remainder is the only value in `[0, n)` that differs from `x` by a multiple of `n`. */
  lemma ModUnique(x: int, m: int, n: nat, r: int)
    requires n > 0 && 0 <= r < n && x == m * n + r
    ensures x % n == r
  {
    var q, s := x / n, x % n;
    assert x == q * n + s;
    assert (q - m) * n == r - s;
    // A nonzero multiple of n is at least n away from 0, while |r - s| < n.
    if q - m >= 1 {
      assert false;
    } else if q - m <= -1 {
      assert false;
    }
  }

  lemma ModStep(x: int, n: nat)
    requires n > 0
    ensures (x + 1) % n == if x % n + 1 == n then 0 else x % n + 1
  {
    var q := x / n;
    assert x == q * n + x % n;
    if x % n + 1 == n {
      assert x + 1 == (q + 1) * n + 0;
      ModUnique(x + 1, q + 1, n, 0);
    } else {
      ModUnique(x + 1, q, n, x % n + 1);
    }
  }

  lemma ModStepBack(x: int, n: nat)
    requires n > 0
    ensures (x - 1) % n == if x % n == 0 then n - 1 else x % n - 1
  {
    var q := x / n;
    assert x == q * n + x % n;
    if x % n == 0 {
      assert x - 1 == (q - 1) * n + (n - 1);
      ModUnique(x - 1, q - 1, n, n - 1);
    } else {
      ModUnique(x - 1, q, n, x % n - 1);
    }
  }

  /** The autocomplete dropdown and the global cursor `selectedIndex`. `items` are the
      names of the `.autocomplete-item` elements currently in the dropdown (hiding the
      dropdown leaves them in place); `noMatchNotice` is the "No matching names found" line. */
  class Dropdown {
    var allNames: seq<string>
    var items: seq<string>
    var noMatchNotice: bool
    var visible: bool
    var selectedIndex: int
    /** The input the current items were built from. */
    ghost var query: string

    ghost predicate Valid()
      reads this
    {
      && -1 <= selectedIndex < |items|
      && |items| <= MaxSuggestions
      && (forall i :: 0 <= i < |items| ==> Matches(items[i], query))
      && (items != [] ==> query != [])
    }

    /** The page as loaded: no names yet, an empty and hidden dropdown, no selection. */
    constructor ()
      ensures Valid()
      ensures allNames == [] && items == [] && !noMatchNotice && !visible && selectedIndex == -1
    {
      allNames, items, noMatchNotice, visible, selectedIndex := [], [], false, false, -1;
      query := [];
    }

    /** `allNames = response.names || []`. */
    method LoadNames(names: seq<string>)
      requires Valid()
      modifies this`allNames
      ensures Valid() && allNames == names
    {
      allNames := names;
    }

    /** `showAutocomplete(inputValue)`: empty the dropdown and reset the cursor; for an
        empty input hide it; otherwise list the first ten matches, or the no-match line. */
    method Show(inputValue: string)
      requires Valid()
      modifies this`items, this`noMatchNotice, this`visible, this`selectedIndex, this`query
      ensures Valid()
      ensures selectedIndex == -1 && query == inputValue
      ensures inputValue == [] ==> items == [] && !noMatchNotice && !visible
      ensures inputValue != [] ==> visible && items == Suggestions(allNames, inputValue)
      ensures inputValue != [] ==> (noMatchNotice <==> MatchingNames(allNames, inputValue) == [])
    {
      items, noMatchNotice := [], false;
      selectedIndex := -1;
      query := inputValue;
      if |inputValue| == 0 {
        visible := false;
        return;
      }
      var filtered := MatchingNames(allNames, inputValue);
      if |filtered| == 0 {
        noMatchNotice := true;
      } else {
        var limited := Suggestions(allNames, inputValue);
        SuggestionsSpec(allNames, inputValue);
        var appended: seq<string> := [];
        for index := 0 to |limited|
          invariant appended == limited[..index]
        {
          appended := appended + [limited[index]];
        }
        assert appended == limited;
        items := appended;
      }
      visible := true;
    }

    /** `hideAutocomplete()`, also run by Escape and by a click outside the box: hide the
        dropdown and clear the cursor; the items stay in the dropdown. */
    method Hide()
      requires Valid()
      modifies this`visible, this`selectedIndex
      ensures Valid() && !visible && selectedIndex == -1
    {
      visible := false;
      selectedIndex := -1;
    }

    /** `navigateAutocomplete(direction)`: nothing without items; otherwise move the
        cursor and wrap it round. This works whether or not the dropdown is visible. */
    method Navigate(direction: int)
      requires Valid()
      modifies this`selectedIndex
      ensures Valid()
      ensures items == [] ==> selectedIndex == old(selectedIndex)
      ensures items != [] ==> selectedIndex == NextIndex(old(selectedIndex), direction, |items|)
    {
      if |items| == 0 {
        return;
      }
      selectedIndex := selectedIndex + direction;
      if selectedIndex < 0 {
        selectedIndex := |items| - 1;
      } else if selectedIndex >= |items| {
        selectedIndex := 0;
      }
    }

    /** `items[index]` in `selectAutocompleteItem`: the item's name, if there is an item there. */
    function ItemAt(index: int): (r: Option<string>)
      reads this
      ensures r.Some? <==> 0 <= index < |items|
      ensures r.Some? ==> r.value == items[index]
    {
      if 0 <= index < |items| then Some(items[index]) else None
    }
  }
}
