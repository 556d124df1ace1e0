/** The selection logic of the checkbox prompt (`Checkbox` in
    prompt/checkbox.ts): turning the configured items into options with their
    initial check marks, toggling the option under the cursor, reading the
    checked values, validating an answer against the options and the
    minimum/maximum counts, and trimming the answer. */
module CheckboxModel {
  import opened Wrappers
  import opened FlagTypes
  import opened JsStrings
  import opened GenericPromptModel

  // ===========================================================================
  // options

  /** A configured item: a bare string, or an object whose `checked` and
      `icon` may be left unspecified. */
  datatype CheckboxItem =
    | Plain(value: string)
    | Detailed(value: string, checked: Option<bool>, icon: Option<bool>)

  /** An option as the prompt holds it. */
  datatype CheckboxOption = CheckboxOption(value: string, checked: bool, icon: bool)

  /** The item's `checked`, `undefined` for a bare string. */
  function CheckedSetting(item: CheckboxItem): Option<bool>
  {
    if item.Plain? then None else item.checked
  }

  /** The mapping `mapOptions` applies to one item, given the prompt's `default` list. */
  function MapOption(item: CheckboxItem, defaults: Option<seq<string>>): (r: CheckboxOption)
    ensures r.value == item.value
    ensures r.checked <==> (CheckedSetting(item) == Some(true) ||
      (CheckedSetting(item).None? && defaults.Some? && item.value in defaults.value))
    ensures r.icon <==> item.Plain? || item.icon != Some(false)
  {
    var checked := CheckedSetting(item);
    CheckboxOption(
      item.value,
      if checked.None? && defaults.Some? && IndexOf(defaults.value, item.value) != -1 then true
      else checked == Some(true),
      if item.Plain? || item.icon.None? then true else item.icon.value)
  }

  /** `mapOptions`: every item mapped, in order. */
  function MapOptions(items: seq<CheckboxItem>, defaults: Option<seq<string>>): (r: seq<CheckboxOption>)
    ensures |r| == |items|
    ensures forall i :: 0 <= i < |items| ==> r[i] == MapOption(items[i], defaults)
  {
    seq(|items|, i requires 0 <= i < |items| => MapOption(items[i], defaults))
  }

  // ===========================================================================
  // checked values

  /** `getValue`: the values of the checked options, in option order. */
  function CheckedValues(options: seq<CheckboxOption>): (r: seq<string>)
    ensures |r| <= |options|
    ensures forall v :: v in r <==> exists i :: 0 <= i < |options| && options[i].checked && options[i].value == v
  {
    if |options| == 0 then []
    else
      var rest := CheckedValues(options[1..]);
      assert forall i :: 1 <= i < |options| ==> options[i] == options[1..][i - 1];
      if options[0].checked then [options[0].value] + rest else rest
  }

  /** Checked values of concatenated option lists are concatenated. */
  lemma {:induction false} CheckedValuesAppend(a: seq<CheckboxOption>, b: seq<CheckboxOption>)
    ensures CheckedValues(a + b) == CheckedValues(a) + CheckedValues(b)
    decreases |a|
  {
    if |a| == 0 {
      assert a + b == b;
    } else {
      assert (a + b)[0] == a[0];
      assert (a + b)[1..] == a[1..] + b;
      CheckedValuesAppend(a[1..], b);
    }
  }

  /** Options built from items that leave `checked` unspecified are checked
      exactly for the values in the default list, in item order. */
  lemma {:induction false} DefaultsPreselect(items: seq<CheckboxItem>, defaults: seq<string>)
    requires forall i :: 0 <= i < |items| ==> CheckedSetting(items[i]).None?
    ensures forall v :: v in CheckedValues(MapOptions(items, Some(defaults))) <==>
      v in defaults && exists i :: 0 <= i < |items| && items[i].value == v
  {
    var r := MapOptions(items, Some(defaults));
    forall v
      ensures v in CheckedValues(r) <==> v in defaults && exists i :: 0 <= i < |items| && items[i].value == v
    {
      if v in CheckedValues(r) {
        var i :| 0 <= i < |r| && r[i].checked && r[i].value == v;
        assert items[i].value == v;
      }
      if v in defaults && exists i :: 0 <= i < |items| && items[i].value == v {
        var i :| 0 <= i < |items| && items[i].value == v;
        assert r[i].checked && r[i].value == v;
      }
    }
  }

  /** The option list with option `k` checked if it was not and unchecked if it was. */
  function Toggle(options: seq<CheckboxOption>, k: nat): (r: seq<CheckboxOption>)
    requires k < |options|
    ensures |r| == |options|
    ensures r[k] == options[k].(checked := !options[k].checked)
    ensures forall i :: 0 <= i < |options| && i != k ==> r[i] == options[i]
  {
    options[k := options[k].(checked := !options[k].checked)]
  }

  /** Toggling the same option twice restores the list. */
  lemma ToggleTwice(options: seq<CheckboxOption>, k: nat)
    requires k < |options|
    ensures Toggle(Toggle(options, k), k) == options
  {
  }

  /** Toggling an option adds its value to the answer when it was unchecked
      and removes one occurrence of it when it was checked; nothing else in
      the answer changes. */
  lemma {:induction false} ToggleChangesAnswer(options: seq<CheckboxOption>, k: nat)
    requires k < |options|
    ensures multiset(CheckedValues(Toggle(options, k))) ==
      if options[k].checked then multiset(CheckedValues(options)) - multiset{options[k].value}
      else multiset(CheckedValues(options)) + multiset{options[k].value}
  {
    var pre, post := options[..k], options[k + 1..];
    assert options == pre + [options[k]] + post;
    var t := Toggle(options, k);
    assert t == pre + [t[k]] + post;
    CheckedValuesAppend(pre + [options[k]], post);
    CheckedValuesAppend(pre, [options[k]]);
    CheckedValuesAppend(pre + [t[k]], post);
    CheckedValuesAppend(pre, [t[k]]);
  }

  // ===========================================================================
  // validation

  /** `options.findIndex(option => option.value === val) !== -1`. */
  predicate KnownValue(options: seq<CheckboxOption>, val: string)
  {
    exists i :: 0 <= i < |options| && options[i].value == val
  }

  /** The `every` callback: a non-empty string naming an option. */
  predicate AcceptableItem(options: seq<CheckboxOption>, v: Value)
  {
    v.Str? && |v.s| > 0 && KnownValue(options, v.s)
  }

  /** `isValidValue`: an array of acceptable items. */
  predicate IsValidValue(options: seq<CheckboxOption>, value: Value)
  {
    value.List? && forall i :: 0 <= i < |value.items| ==> AcceptableItem(options, value.items[i])
  }

  /** How a JavaScript number prints inside a template string. */
  function NumberText(n: JsNumber): string
  {
    match n
    case Finite(i) => IntToString(i)
    case Infinity => "Infinity"
  }

  function MinimumMessage(minOptions: JsNumber, got: nat): string
  {
    "The minimum number of options is " + NumberText(minOptions) + " but got " + NatToString(got) + "."
  }

  function MaximumMessage(maxOptions: JsNumber, got: nat): string
  {
    "The maximum number of options is " + NumberText(maxOptions) + " but got " + NatToString(got) + "."
  }

  /** `validate(value)` with the prompt's options and bounds. */
  function Validate(options: seq<CheckboxOption>, minOptions: JsNumber, maxOptions: JsNumber, value: Value): (r: ValidateResult)
    ensures r == Verdict(true) <==>
      IsValidValue(options, value) && !Less(Finite(|value.items|), minOptions) && !Less(maxOptions, Finite(|value.items|))
    ensures r == Verdict(false) <==> !IsValidValue(options, value)
  {
    if !IsValidValue(options, value) then Verdict(false)
    else if Less(Finite(|value.items|), minOptions) then Message(MinimumMessage(minOptions, |value.items|))
    else if Less(maxOptions, Finite(|value.items|)) then Message(MaximumMessage(maxOptions, |value.items|))
    else Verdict(true)
  }

  /** Too few values are reported with the minimum, even when the maximum is
      exceeded as well: the minimum is checked first. */
  lemma TooFewReportedFirst(options: seq<CheckboxOption>, minOptions: JsNumber, maxOptions: JsNumber, value: Value)
    requires IsValidValue(options, value) && Less(Finite(|value.items|), minOptions)
    ensures Validate(options, minOptions, maxOptions, value) == Message(MinimumMessage(minOptions, |value.items|))
  {
  }

  /** Too many values, with enough of them, are reported with the maximum. */
  lemma TooManyReported(options: seq<CheckboxOption>, minOptions: JsNumber, maxOptions: JsNumber, value: Value)
    requires IsValidValue(options, value) && !Less(Finite(|value.items|), minOptions)
    requires Less(maxOptions, Finite(|value.items|))
    ensures Validate(options, minOptions, maxOptions, value) == Message(MaximumMessage(maxOptions, |value.items|))
  {
  }

  /** With the default bounds (0 and `Infinity`) any array of known values,
      the empty one included, is accepted. */
  lemma DefaultBoundsAccept(options: seq<CheckboxOption>, value: Value)
    requires IsValidValue(options, value)
    ensures Validate(options, Finite(0), Infinity, value) == Verdict(true)
    ensures Validate(options, Finite(0), Infinity, List([])) == Verdict(true)
  {
  }

  /** `transform`: every value trimmed, in order. Only arrays reach it, as
      validation rejects everything else first. */
  function TransformAnswer(value: Value): (r: Value)
    ensures value.List? ==> r.List? && |r.items| == |value.items|
    ensures value.List? ==> forall i :: 0 <= i < |value.items| && value.items[i].Str? ==>
      r.items[i] == Str(Trim(value.items[i].s))
  {
    if value.List? then
      List(seq(|value.items|, i requires 0 <= i < |value.items| =>
        if value.items[i].Str? then Str(Trim(value.items[i].s)) else value.items[i]))
    else value
  }

  /** Trimming an answer twice is trimming it once. */
  lemma TransformIdempotent(value: Value)
    ensures TransformAnswer(TransformAnswer(value)) == TransformAnswer(value)
  {
    if value.List? {
      var once := TransformAnswer(value);
      forall i | 0 <= i < |value.items| && value.items[i].Str?
        ensures TransformAnswer(once).items[i] == once.items[i]
      {
        TrimIdempotent(value.items[i].s);
      }
    }
  }

  // ===========================================================================
  // the prompt object

  /** The checkbox prompt's selection state. `options` are the option objects
      of the settings; the list on screen shows some of them, and `shown`
      holds, for each listed row, the index of the option object it displays,
      so that toggling a row changes the very object the answer is read from. */
  class Checkbox {
    var options: seq<CheckboxOption>
    var shown: seq<nat>
    var listIndex: int
    const minOptions: JsNumber
    const maxOptions: JsNumber

    /** Every listed row displays one of the options. */
    predicate Valid()
      reads this
    {
      forall r :: 0 <= r < |shown| ==> shown[r] < |options|
    }

    /** `Checkbox.prompt`'s settings: options from `mapOptions`, every one listed,
        the first one under the cursor. */
    constructor(items: seq<CheckboxItem>, defaults: Option<seq<string>>, minOptions: JsNumber, maxOptions: JsNumber)
      ensures Valid()
      ensures options == MapOptions(items, defaults)
      ensures shown == seq(|items|, r requires 0 <= r < |items| => r)
      ensures listIndex == 0 && this.minOptions == minOptions && this.maxOptions == maxOptions
    {
      options := MapOptions(items, defaults);
      shown := seq(|items|, r requires 0 <= r < |items| => r);
      listIndex := 0;
      this.minOptions := minOptions;
      this.maxOptions := maxOptions;
    }

    /** `checkValue`: flips the check mark of the option under the cursor.
        With no option under the cursor (an empty or filtered-out list) the
        source reads `checked` of `undefined` and throws a `TypeError`; that
        is `ok == false` here, with nothing changed. */
    method CheckValue() returns (ok: bool)
      requires Valid()
      modifies this
      ensures Valid()
      ensures shown == old(shown) && listIndex == old(listIndex)
      ensures ok <==> 0 <= listIndex < |shown|
      ensures ok ==> options == Toggle(old(options), old(shown[listIndex]))
      ensures !ok ==> options == old(options)
    {
      if !(0 <= listIndex < |shown|) {
        return false;
      }
      var k := shown[listIndex];
      options := options[k := options[k].(checked := !options[k].checked)];
      return true;
    }

    /** `getValue`: the answer read from the option objects. */
    function GetValue(): seq<string>
      reads this
    {
      CheckedValues(options)
    }
  }

  // ===========================================================================
  // the answers of prompt/test/checkbox_test.ts

  /** The options `[{ value: "value1" }, { value: "value2" }, "value3"]`. */
  function TestOptions(): seq<CheckboxOption>
  {
    MapOptions([Detailed("value1", None, None), Detailed("value2", None, None), Plain("value3")], None)
  }

  /** The checkbox's own `validate`, as the prompt base class calls it. */
  function Validator(options: seq<CheckboxOption>, minOptions: JsNumber, maxOptions: JsNumber): Value -> ValidateResult
  {
    v => Validate(options, minOptions, maxOptions, v)
  }

  /** `["value1", "value3"]` is accepted and returned as given. */
  lemma ValidAnswerAccepted()
    ensures var answer := List([Str("value1"), Str("value3")]);
      ValidationStep(PromptSettings(Undefined, None, None), Validator(TestOptions(), Finite(0), Infinity),
                     TransformAnswer, Undefined, None, answer) ==
      Answer(answer, None, true)
  {
    var answer := List([Str("value1"), Str("value3")]);
    var options := TestOptions();
    assert AcceptableItem(options, answer.items[0]) by {
      assert options[0].value == "value1";
    }
    assert AcceptableItem(options, answer.items[1]) by {
      assert options[2].value == "value3";
    }
    assert Validator(options, Finite(0), Infinity)(answer) == Verdict(true);
    TransformKeepsUnpadded(answer);
  }

  /** An answer of strings that are not padded with whitespace is returned as given. */
  lemma TransformKeepsUnpadded(value: Value)
    requires value.List?
    requires forall i :: 0 <= i < |value.items| ==> value.items[i].Str? && Unpadded(value.items[i].s)
    ensures TransformAnswer(value) == value
  {
    var t := TransformAnswer(value);
    forall i | 0 <= i < |value.items|
      ensures t.items[i] == value.items[i]
    {
      UnpaddedTrim(value.items[i].s);
    }
  }

  /** A string that neither starts nor ends with whitespace is its own trim. */
  predicate Unpadded(s: string)
  {
    |s| > 0 && !IsWhitespace(s[0]) && !IsWhitespace(s[|s| - 1])
  }

  lemma UnpaddedTrim(s: string)
    requires Unpadded(s)
    ensures Trim(s) == s
  {
    assert TrimStart(s) == s;
  }

  /** `["value3", "value4"]` names an unknown value and gets `Invalid answer.` */
  lemma UnknownValueRejected()
    ensures ValidationStep(PromptSettings(Undefined, None, None), Validator(TestOptions(), Finite(0), Infinity),
                           TransformAnswer, Undefined, None, List([Str("value3"), Str("value4")])).lastError ==
            Some(InvalidAnswer)
  {
    var answer := List([Str("value3"), Str("value4")]);
    var options := TestOptions();
    assert !AcceptableItem(options, answer.items[1]) by {
      assert options[0].value == "value1" && options[1].value == "value2" && options[2].value == "value3";
    }
    assert Validator(options, Finite(0), Infinity)(answer) == Verdict(false);
  }

  /** `minOptions: 3` with the answer `["value1", "value2"]` is rejected with
      `The minimum number of options is 3 but got 2.` */
  lemma TooFewTestMessage()
    ensures var r := ValidationStep(PromptSettings(Undefined, None, None), Validator(TestOptions(), Finite(3), Infinity),
                                    TransformAnswer, Undefined, None, List([Str("value1"), Str("value2")]));
      r.lastError == Some("The minimum number of options is 3 but got 2.") && !r.accepted
  {
    var answer := List([Str("value1"), Str("value2")]);
    var options := TestOptions();
    TestAnswerValid(answer);
    TooFewReportedFirst(options, Finite(3), Infinity, answer);
    assert MinimumMessage(Finite(3), 2) == "The minimum number of options is 3 but got 2." by {
      assert NatToString(2) == "2" && IntToString(3) == "3";
    }
    MessageBecomesError(PromptSettings(Undefined, None, None), Validator(options, Finite(3), Infinity),
                        TransformAnswer, Undefined, None, answer, MinimumMessage(Finite(3), 2));
  }

  /** `maxOptions: 1` with the answer `["value1", "value2"]` is rejected with
      `The maximum number of options is 1 but got 2.` */
  lemma TooManyTestMessage()
    ensures var r := ValidationStep(PromptSettings(Undefined, None, None), Validator(TestOptions(), Finite(0), Finite(1)),
                                    TransformAnswer, Undefined, None, List([Str("value1"), Str("value2")]));
      r.lastError == Some("The maximum number of options is 1 but got 2.") && !r.accepted
  {
    var answer := List([Str("value1"), Str("value2")]);
    var options := TestOptions();
    TestAnswerValid(answer);
    TooManyReported(options, Finite(0), Finite(1), answer);
    assert MaximumMessage(Finite(1), 2) == "The maximum number of options is 1 but got 2." by {
      assert NatToString(2) == "2" && IntToString(1) == "1";
    }
    MessageBecomesError(PromptSettings(Undefined, None, None), Validator(options, Finite(0), Finite(1)),
                        TransformAnswer, Undefined, None, answer, MaximumMessage(Finite(1), 2));
  }

  /** `["value1", "value2"]` names two of the test options. */
  lemma TestAnswerValid(answer: Value)
    requires answer == List([Str("value1"), Str("value2")])
    ensures IsValidValue(TestOptions(), answer) && |answer.items| == 2
  {
    var options := TestOptions();
    assert AcceptableItem(options, answer.items[0]) by {
      assert options[0].value == "value1";
    }
    assert AcceptableItem(options, answer.items[1]) by {
      assert options[1].value == "value2";
    }
  }
}
