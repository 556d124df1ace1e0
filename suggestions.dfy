/** The suggestion list of an input prompt (`GenericSuggestions` in
    prompt/_generic_suggestions.ts): which configured suggestions match the
    current input, the selected index and the first visible row (the offset)
    of a window of at most `maxRows` rows, moving the selection, completing
    the input, and the key to action mapping. Suggestions are strings. */
module Suggestions {
  import opened Wrappers
  import opened JsStrings
  import opened GenericPromptModel

  // ===========================================================================
  // matching and clamping

  /** A configured suggestion matches when its lower-cased text starts with
      the lower-cased input. */
  predicate MatchesInput(suggestion: string, input: string)
  {
    StartsWith(Lower(suggestion), Lower(input))
  }

  /** The `filter` in `match`: the matching suggestions, in configured order. */
  function Matching(configured: seq<string>, input: string): (r: seq<string>)
    ensures |r| <= |configured|
    ensures forall x :: x in r <==> x in configured && MatchesInput(x, input)
  {
    if |configured| == 0 then []
    else
      var rest := Matching(configured[1..], input);
      assert forall x :: x in configured <==> x == configured[0] || x in configured[1..];
      if MatchesInput(configured[0], input) then [configured[0]] + rest else rest
  }

  /** Filtering keeps the configured order: it distributes over concatenation. */
  lemma {:induction false} MatchingAppend(a: seq<string>, b: seq<string>, input: string)
    ensures Matching(a + b, input) == Matching(a, input) + Matching(b, input)
    decreases |a|
  {
    if |a| == 0 {
      assert a + b == b;
    } else {
      assert (a + b)[0] == a[0];
      assert (a + b)[1..] == a[1..] + b;
      MatchingAppend(a[1..], b, input);
    }
  }

  /** An empty input matches every suggestion. */
  lemma {:induction false} EmptyInputMatchesAll(configured: seq<string>)
    ensures Matching(configured, "") == configured
    decreases |configured|
  {
    if |configured| > 0 {
      assert MatchesInput(configured[0], "");
      EmptyInputMatchesAll(configured[1..]);
    }
  }

  /** `getListHeight`: `maxRows` rows at most, all of them when `maxRows` is 0. */
  function ListHeight(len: nat, maxRows: int): (r: int)
    ensures maxRows >= 0 ==> 0 <= r <= len
    ensures maxRows > 0 ==> r <= maxRows && (r == len || r == maxRows)
    ensures maxRows == 0 ==> r == len
  {
    var rows := if maxRows == 0 then len else maxRows;
    if rows < len then rows else len
  }

  /** The selection after `match`: clamped between `floor` (-1 for a blank
      input, else 0) and the last suggestion. */
  function MatchedIndex(len: nat, blankInput: bool, index: int): (r: int)
    ensures r >= (if blankInput then -1 else 0)
    ensures len > 0 ==> r <= len - 1
    ensures (if blankInput then -1 else 0) <= index <= len - 1 ==> r == index
    ensures len == 0 || index < (if blankInput then -1 else 0) ==> r == (if blankInput then -1 else 0)
    ensures len > 0 && index > len - 1 ==> r == len - 1
  {
    var floor := if blankInput then -1 else 0;
    var upper := if len - 1 < index then len - 1 else index;
    if floor > upper then floor else upper
  }

  /** The offset after `match`: clamped between 0 and the last full window. */
  function MatchedOffset(len: nat, height: int, offset: int): (r: int)
    ensures r >= 0
    ensures height <= len ==> r <= len - height
    ensures 0 <= offset <= len - height ==> r == offset
    ensures offset < 0 || len < height ==> r == 0
    ensures 0 <= len - height < offset ==> r == len - height
  {
    var upper := if len - height < offset then len - height else offset;
    if 0 > upper then 0 else upper
  }

  /** `match` keeps a selection that is still in range, and keeps it inside
      the shown window: the window only moves back far enough to be full. */
  lemma MatchKeepsSelectionShown(len: nat, maxRows: int, blankInput: bool, index: int, offset: int)
    requires maxRows >= 0
    requires 0 <= offset <= index < offset + ListHeight(len, maxRows) && index <= len - 1
    ensures var i := MatchedIndex(len, blankInput, index);
      var o := MatchedOffset(len, ListHeight(len, maxRows), offset);
      i == index && o <= offset && Shown(i, o, ListHeight(len, maxRows))
  {
  }

  // ===========================================================================
  // moving the selection

  /** Index `index` lies inside the window of `height` rows from `offset`. */
  predicate Shown(index: int, offset: int, height: int)
  {
    offset <= index < offset + height
  }

  /** `selectNextSuggestion` on the index and offset. */
  function NextSelection(len: nat, height: int, index: int, offset: int): (r: (int, int))
    ensures len > 0 && index < len - 1 ==> r.0 == index + 1
    ensures len == 0 || index >= len - 1 ==> r == (index, offset)
    ensures r.1 == offset || r.1 == offset + 1
  {
    if len > 0 && index < len - 1 then
      var i := index + 1;
      (i, if i >= offset + height then offset + 1 else offset)
    else (index, offset)
  }

  /** `selectPreviousSuggestion` on the index and offset. */
  function PreviousSelection(len: nat, index: int, offset: int): (r: (int, int))
    ensures len > 0 && index > -1 ==> r.0 == index - 1
    ensures len == 0 || index <= -1 ==> r == (index, offset)
    ensures r.1 == offset || r.1 == offset - 1
  {
    if len > 0 && index > -1 then
      var i := index - 1;
      (i, if i < offset then offset - 1 else offset)
    else (index, offset)
  }

  /** Moving down keeps a shown selection shown (and a cleared selection at
      the top becomes the first row): the window scrolls by one exactly when
      the index reaches its end. */
  lemma NextKeepsShown(len: nat, height: int, index: int, offset: int)
    requires height >= 1 && index >= -1
    requires Shown(index, offset, height) || (index == -1 && offset == 0)
    ensures var (i, o) := NextSelection(len, height, index, offset);
      (Shown(i, o, height) || (i == -1 && o == 0)) &&
      (o == offset + 1 <==> (index < len - 1 && index + 1 == offset + height))
  {
  }

  /** Moving up keeps a selection at row 1 or below shown. */
  lemma PreviousKeepsShown(len: nat, height: int, index: int, offset: int)
    requires height >= 1 && index >= 1
    requires Shown(index, offset, height)
    ensures var (i, o) := PreviousSelection(len, index, offset);
      Shown(i, o, height) && (o == offset - 1 <==> (len > 0 && index == offset))
  {
  }

  /** Moving up from the first row clears the selection and leaves the offset
      at -1; the next `match` sets it back to 0. */
  lemma PreviousFromFirstRow(len: nat, maxRows: int, blankInput: bool)
    requires len > 0
    ensures PreviousSelection(len, 0, 0) == (-1, -1)
    ensures MatchedOffset(len, ListHeight(len, maxRows), -1) == 0
  {
  }

  // ===========================================================================
  // completion

  /** `getSuggestion`: the part of the selected suggestion beyond the input's
      length, or `""` when no suggestion is selected. */
  function Hint(suggestions: seq<string>, index: int, input: string): (r: string)
    ensures !(0 <= index < |suggestions|) ==> r == ""
    ensures 0 <= index < |suggestions| && |input| <= |suggestions[index]| ==>
      |input| + |r| == |suggestions[index]|
  {
    if 0 <= index < |suggestions| then Substr(suggestions[index], |input|) else ""
  }

  /** The hint completes the input: the input followed by the hint reads as
      the selected suggestion up to case, and exactly when the suggestion
      starts with the input as typed. */
  lemma HintCompletesInput(suggestions: seq<string>, index: int, input: string)
    requires 0 <= index < |suggestions| && MatchesInput(suggestions[index], input)
    ensures Lower(input + Hint(suggestions, index, input)) == Lower(suggestions[index])
    ensures StartsWith(suggestions[index], input) ==> input + Hint(suggestions, index, input) == suggestions[index]
  {
    var x := suggestions[index];
    var h := Hint(suggestions, index, input);
    assert x == x[..|input|] + h;
    LowerAppend(input, h);
    LowerAppend(x[..|input|], h);
    assert Lower(x[..|input|]) == Lower(x)[..|input|];
  }

  /** `complete` applies when a non-empty suggestion is selected. */
  predicate CanComplete(suggestions: seq<string>, index: int)
  {
    |suggestions| > 0 && 0 <= index < |suggestions| && suggestions[index] != ""
  }

  // ===========================================================================
  // key handling

  /** What `handleEvent` does with a key. */
  datatype SuggestionAction = SelectNext | SelectPrevious | Complete | MoveCursorRight | Delegate

  /** The key lists the constructor installs under the caller's own. */
  function SuggestionKeys(userKeys: map<string, seq<string>>): (r: map<string, seq<string>>)
    ensures forall name :: name in userKeys ==> name in r && r[name] == userKeys[name]
    ensures "complete" in r && "next" in r && "previous" in r
    ensures "complete" !in userKeys ==> r["complete"] == ["tab"]
    ensures "next" !in userKeys ==> r["next"] == ["up"]
    ensures "previous" !in userKeys ==> r["previous"] == ["down"]
  {
    map["complete" := ["tab"], "next" := ["up"], "previous" := ["down"]] + userKeys
  }

  /** The `switch (true)` of `handleEvent`: the first key list holding the
      event decides; in list mode "next" and "previous" trade places; the
      cursor-right key completes once the cursor is at the end. */
  function KeyAction(keys: Option<map<string, seq<string>>>, list: bool, inputIndex: int, inputLength: nat,
                     event: KeyEvent): (r: SuggestionAction)
    ensures r == Delegate <==>
      !IsKey(keys, "next", event) && !IsKey(keys, "previous", event) &&
      !IsKey(keys, "complete", event) && !IsKey(keys, "moveCursorRight", event)
    ensures r == MoveCursorRight ==> inputIndex < inputLength
  {
    if IsKey(keys, "next", event) then (if list then SelectPrevious else SelectNext)
    else if IsKey(keys, "previous", event) then (if list then SelectNext else SelectPrevious)
    else if IsKey(keys, "complete", event) then Complete
    else if IsKey(keys, "moveCursorRight", event) then (if inputIndex < inputLength then MoveCursorRight else Complete)
    else Delegate
  }

  /** Exchanges the two selection moves. */
  function Swapped(a: SuggestionAction): SuggestionAction
  {
    match a
    case SelectNext => SelectPrevious
    case SelectPrevious => SelectNext
    case _ => a
  }

  /** List mode swaps the selection direction of every key and leaves the
      other actions alone. */
  lemma ListModeSwapsDirection(keys: Option<map<string, seq<string>>>, inputIndex: int, inputLength: nat, event: KeyEvent)
    ensures KeyAction(keys, true, inputIndex, inputLength, event) ==
            Swapped(KeyAction(keys, false, inputIndex, inputLength, event))
  {
  }

  /** With the installed key lists, tab completes, and up and down move the
      selection (up moves to the next suggestion outside list mode). */
  lemma DefaultKeyBindings(inputIndex: int, inputLength: nat)
    ensures var keys := Some(SuggestionKeys(map[]));
      KeyAction(keys, false, inputIndex, inputLength, KeyEvent(Some("tab"), None, false, false)) == Complete &&
      KeyAction(keys, false, inputIndex, inputLength, KeyEvent(Some("up"), None, false, false)) == SelectNext &&
      KeyAction(keys, false, inputIndex, inputLength, KeyEvent(Some("down"), None, false, false)) == SelectPrevious &&
      KeyAction(keys, true, inputIndex, inputLength, KeyEvent(Some("up"), None, false, false)) == SelectPrevious
  {
    var keys := SuggestionKeys(map[]);
    assert IndexOf(keys["complete"], "tab") == 0;
    assert IndexOf(keys["next"], "up") == 0;
    assert IndexOf(keys["previous"], "down") == 0;
    assert IndexOf(keys["next"], "tab") == -1 && IndexOf(keys["previous"], "tab") == -1;
    assert IndexOf(keys["next"], "down") == -1;
  }

  // ===========================================================================
  // the prompt object

  /** The suggestion state of an input prompt. `inputValue` and `inputIndex`
      are the input text and cursor it inherits. */
  class GenericSuggestions {
    var inputValue: string
    var inputIndex: int
    var suggestions: seq<string>
    var suggestionsIndex: int
    var suggestionsOffset: int
    /** `settings.suggestions`, `settings.maxRows`, `settings.list` and the merged key lists. */
    const configured: Option<seq<string>>
    const maxRows: int
    const list: bool
    const keys: map<string, seq<string>>

    /** The cursor stays within the input. */
    predicate Valid()
      reads this
    {
      0 <= inputIndex <= |inputValue|
    }

    constructor(configured: Option<seq<string>>, maxRows: int, list: bool, userKeys: map<string, seq<string>>)
      ensures Valid()
      ensures this.configured == configured && this.maxRows == maxRows && this.list == list
      ensures keys == SuggestionKeys(userKeys)
      ensures inputValue == "" && inputIndex == 0
      ensures suggestions == [] && suggestionsIndex == -1 && suggestionsOffset == 0
    {
      this.configured := configured;
      this.maxRows := maxRows;
      this.list := list;
      keys := SuggestionKeys(userKeys);
      inputValue := "";
      inputIndex := 0;
      suggestions := [];
      suggestionsIndex := -1;
      suggestionsOffset := 0;
    }

    /** `getListHeight()` for the current suggestions. */
    function Height(): (r: int)
      reads this
      ensures maxRows >= 0 ==> 0 <= r <= |suggestions|
    {
      ListHeight(|suggestions|, maxRows)
    }

    /** `getSuggestion()`: nothing without a selection; with a selected
        suggestion that starts with the input, the rest of that suggestion. */
    function GetSuggestion(): (r: string)
      reads this
      ensures !(0 <= suggestionsIndex < |suggestions|) ==> r == ""
      ensures 0 <= suggestionsIndex < |suggestions| && StartsWith(suggestions[suggestionsIndex], inputValue) ==>
        inputValue + r == suggestions[suggestionsIndex]
    {
      Hint(suggestions, suggestionsIndex, inputValue)
    }

    /** `match`: with suggestions configured, keeps the matching ones and
        clamps the selection and the offset; otherwise does nothing. */
    method Match()
      modifies this
      ensures inputValue == old(inputValue) && inputIndex == old(inputIndex)
      ensures configured.None? || |configured.value| == 0 ==>
        suggestions == old(suggestions) && suggestionsIndex == old(suggestionsIndex) &&
        suggestionsOffset == old(suggestionsOffset)
      ensures configured.Some? && |configured.value| > 0 ==>
        suggestions == Matching(configured.value, inputValue) &&
        suggestionsIndex == MatchedIndex(|suggestions|, |Trim(inputValue)| == 0, old(suggestionsIndex)) &&
        suggestionsOffset == MatchedOffset(|suggestions|, ListHeight(|suggestions|, maxRows), old(suggestionsOffset))
    {
      if configured.None? || |configured.value| == 0 {
        return;
      }
      suggestions := Matching(configured.value, inputValue);
      var floor := if |Trim(inputValue)| == 0 then -1 else 0;
      var upper := if |suggestions| - 1 < suggestionsIndex then |suggestions| - 1 else suggestionsIndex;
      suggestionsIndex := if floor > upper then floor else upper;
      var height := ListHeight(|suggestions|, maxRows);
      var top := if |suggestions| - height < suggestionsOffset then |suggestions| - height else suggestionsOffset;
      suggestionsOffset := if 0 > top then 0 else top;
    }

    /** `selectNextSuggestion`. */
    method SelectNextSuggestion()
      modifies this
      ensures inputValue == old(inputValue) && inputIndex == old(inputIndex) && suggestions == old(suggestions)
      ensures (suggestionsIndex, suggestionsOffset) ==
        NextSelection(|suggestions|, Height(), old(suggestionsIndex), old(suggestionsOffset))
    {
      if |suggestions| > 0 {
        if suggestionsIndex < |suggestions| - 1 {
          suggestionsIndex := suggestionsIndex + 1;
          if suggestionsIndex >= suggestionsOffset + ListHeight(|suggestions|, maxRows) {
            suggestionsOffset := suggestionsOffset + 1;
          }
        }
      }
    }

    /** `selectPreviousSuggestion`. */
    method SelectPreviousSuggestion()
      modifies this
      ensures inputValue == old(inputValue) && inputIndex == old(inputIndex) && suggestions == old(suggestions)
      ensures (suggestionsIndex, suggestionsOffset) ==
        PreviousSelection(|suggestions|, old(suggestionsIndex), old(suggestionsOffset))
    {
      if |suggestions| > 0 {
        if suggestionsIndex > -1 {
          suggestionsIndex := suggestionsIndex - 1;
          if suggestionsIndex < suggestionsOffset {
            suggestionsOffset := suggestionsOffset - 1;
          }
        }
      }
    }

    /** `complete`: takes over the selected suggestion as the input, with the
        cursor at its end, and selects the first row; otherwise does nothing. */
    method CompleteInput()
      requires Valid()
      modifies this
      ensures Valid()
      ensures suggestions == old(suggestions)
      ensures CanComplete(suggestions, old(suggestionsIndex)) ==>
        inputValue == suggestions[old(suggestionsIndex)] && inputIndex == |inputValue| &&
        suggestionsIndex == 0 && suggestionsOffset == 0
      ensures !CanComplete(suggestions, old(suggestionsIndex)) ==>
        inputValue == old(inputValue) && inputIndex == old(inputIndex) &&
        suggestionsIndex == old(suggestionsIndex) && suggestionsOffset == old(suggestionsOffset)
    {
      if |suggestions| > 0 && 0 <= suggestionsIndex < |suggestions| && suggestions[suggestionsIndex] != "" {
        inputValue := suggestions[suggestionsIndex];
        inputIndex := |inputValue|;
        suggestionsIndex := 0;
        suggestionsOffset := 0;
      }
    }

    /** `deleteCharRight`: removes the character under the cursor, and clears
        the selection when the input becomes empty. */
    method DeleteCharRight()
      requires Valid()
      modifies this
      ensures Valid()
      ensures suggestions == old(suggestions) && inputIndex == old(inputIndex)
      ensures old(inputIndex) < |old(inputValue)| ==>
        inputValue == old(inputValue)[..inputIndex] + old(inputValue)[inputIndex + 1..]
      ensures old(inputIndex) >= |old(inputValue)| ==> inputValue == old(inputValue)
      ensures old(inputIndex) < |old(inputValue)| && |inputValue| == 0 ==>
        suggestionsIndex == -1 && suggestionsOffset == 0
      ensures !(old(inputIndex) < |old(inputValue)| && |inputValue| == 0) ==>
        suggestionsIndex == old(suggestionsIndex) && suggestionsOffset == old(suggestionsOffset)
    {
      if inputIndex < |inputValue| {
        inputValue := inputValue[..inputIndex] + inputValue[inputIndex + 1..];
        if |inputValue| == 0 {
          suggestionsIndex := -1;
          suggestionsOffset := 0;
        }
      }
    }

    /** `handleEvent` for the keys this class handles itself; it reports the
        action taken. Moving the cursor leaves the selection alone; what it
        does to the cursor, and everything a delegated key does, belongs to
        the input prompt this class extends. */
    method HandleEvent(event: KeyEvent) returns (action: SuggestionAction)
      requires Valid()
      modifies this
      ensures Valid()
      ensures action == KeyAction(Some(keys), list, old(inputIndex), |old(inputValue)|, event)
      ensures action in {SelectNext, SelectPrevious} ==>
        inputValue == old(inputValue) && inputIndex == old(inputIndex)
      ensures action == SelectNext ==>
        (suggestionsIndex, suggestionsOffset) ==
        NextSelection(|suggestions|, Height(), old(suggestionsIndex), old(suggestionsOffset))
      ensures action == SelectPrevious ==>
        (suggestionsIndex, suggestionsOffset) == PreviousSelection(|suggestions|, old(suggestionsIndex), old(suggestionsOffset))
      ensures action == Complete && CanComplete(suggestions, old(suggestionsIndex)) ==>
        inputValue == suggestions[old(suggestionsIndex)] && inputIndex == |inputValue| &&
        suggestionsIndex == 0 && suggestionsOffset == 0
      ensures action == Complete && !CanComplete(suggestions, old(suggestionsIndex)) ==>
        inputValue == old(inputValue) && inputIndex == old(inputIndex) &&
        suggestionsIndex == old(suggestionsIndex) && suggestionsOffset == old(suggestionsOffset)
      ensures action == MoveCursorRight ==>
        suggestionsIndex == old(suggestionsIndex) && suggestionsOffset == old(suggestionsOffset)
      ensures suggestions == old(suggestions)
    {
      action := KeyAction(Some(keys), list, inputIndex, |inputValue|, event);
      match action
      case SelectNext => SelectNextSuggestion();
      case SelectPrevious => SelectPreviousSuggestion();
      case Complete => CompleteInput();
      case MoveCursorRight =>
      case Delegate =>
    }
  }
}
