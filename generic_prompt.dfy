/** The answer-validation step of the prompt base class (`GenericPrompt` in
    prompt/_generic_prompt.ts): default substitution, the choice between a
    custom and the prompt's own validator and transformer, how a validation
    result becomes `lastError`, and the key-name lookup `isKey`. Prompt
    values are JavaScript values; the prompt's own `validate` and `transform`
    are the parameters a concrete prompt supplies. */
module GenericPromptModel {
  import opened Wrappers
  import opened FlagTypes
  import opened JsStrings

  /** What a validator returns: `true`/`false`, or an error message. */
  datatype ValidateResult = Verdict(ok: bool) | Message(text: string)

  /** A key press as the key-code parser reports it. */
  datatype KeyEvent = KeyEvent(name: Option<string>, sequence: Option<string>, ctrl: bool, meta: bool)

  /** The prompt settings this step reads: the `default` (`Undefined` when
      none is set) and the optional custom `validate` and `transform`. */
  datatype PromptSettings = PromptSettings(
    default: Value,
    validate: Option<Value -> ValidateResult>,
    transform: Option<Value -> Value>)

  /** The fields `validateValue` writes, and what it returns. */
  datatype Answer = Answer(value: Value, lastError: Option<string>, accepted: bool)

  /** The message a plain `false` from the validator produces. */
  const InvalidAnswer: string := "Invalid answer."

  /** `!this.lastError`: no error, or the empty one. */
  predicate NoError(lastError: Option<string>)
  {
    lastError.None? || lastError.value == ""
  }

  /** `transformValue`: the custom transform when set, else the prompt's own. */
  function TransformValue(settings: PromptSettings, transform: Value -> Value, input: Value): Value
  {
    if settings.transform.Some? then settings.transform.value(input) else transform(input)
  }

  /** The validator `validateValue` consults: the custom one when set, else the prompt's own. */
  function Validator(settings: PromptSettings, validate: Value -> ValidateResult): Value -> ValidateResult
  {
    if settings.validate.Some? then settings.validate.value else validate
  }

  /** `validateValue(input)` from the fields `value` and `lastError`: a
      defaulted input is accepted outright, otherwise the answer is accepted
      exactly when no error is left. */
  function ValidationStep(settings: PromptSettings, validate: Value -> ValidateResult, transform: Value -> Value,
                          value: Value, lastError: Option<string>, input: Value): (r: Answer)
    ensures !Truthy(input) && settings.default != Undefined ==> r.accepted
    ensures !(!Truthy(input) && settings.default != Undefined) ==> (r.accepted <==> NoError(r.lastError))
  {
    if !Truthy(input) && settings.default != Undefined then
      Answer(settings.default, lastError, true)
    else
      match Validator(settings, validate)(input)
      case Verdict(false) => Answer(value, Some(InvalidAnswer), false)
      case Message(text) => Answer(value, Some(text), NoError(Some(text)))
      case Verdict(true) => Answer(TransformValue(settings, transform, input), lastError, NoError(lastError))
  }

  /** A falsy input with a default set takes the default, untouched by any
      validator or transformer, keeps the error state as it was, and is
      accepted even when an earlier error is pending. */
  lemma DefaultSkipsValidation(settings: PromptSettings, validate: Value -> ValidateResult, transform: Value -> Value,
                               value: Value, lastError: Option<string>, input: Value)
    requires !Truthy(input) && settings.default != Undefined
    ensures var r := ValidationStep(settings, validate, transform, value, lastError, input);
      r.value == settings.default && r.lastError == lastError && r.accepted &&
      forall v: Value -> ValidateResult, t: Value -> Value ::
        ValidationStep(settings, v, t, value, lastError, input) == r
  {
  }

  /** A custom validator takes precedence: the prompt's own one is never consulted. */
  lemma CustomValidatorWins(settings: PromptSettings, validate1: Value -> ValidateResult, validate2: Value -> ValidateResult,
                            transform: Value -> Value, value: Value, lastError: Option<string>, input: Value)
    requires settings.validate.Some?
    ensures ValidationStep(settings, validate1, transform, value, lastError, input) ==
            ValidationStep(settings, validate2, transform, value, lastError, input)
  {
  }

  /** A custom transform takes precedence: the prompt's own one is never consulted. */
  lemma CustomTransformWins(settings: PromptSettings, validate: Value -> ValidateResult, transform1: Value -> Value,
                            transform2: Value -> Value, value: Value, lastError: Option<string>, input: Value)
    requires settings.transform.Some?
    ensures ValidationStep(settings, validate, transform1, value, lastError, input) ==
            ValidationStep(settings, validate, transform2, value, lastError, input)
  {
  }

  /** A validation result of `false` rejects the answer with `Invalid answer.`
      and leaves `value` alone. */
  lemma FalseRejects(settings: PromptSettings, validate: Value -> ValidateResult, transform: Value -> Value,
                     value: Value, lastError: Option<string>, input: Value)
    requires Truthy(input) || settings.default == Undefined
    requires Validator(settings, validate)(input) == Verdict(false)
    ensures ValidationStep(settings, validate, transform, value, lastError, input) ==
            Answer(value, Some(InvalidAnswer), false)
  {
  }

  /** A string result becomes `lastError` verbatim and leaves `value` alone; a
      non-empty one rejects the answer. */
  lemma MessageBecomesError(settings: PromptSettings, validate: Value -> ValidateResult, transform: Value -> Value,
                            value: Value, lastError: Option<string>, input: Value, text: string)
    requires Truthy(input) || settings.default == Undefined
    requires Validator(settings, validate)(input) == Message(text)
    ensures var r := ValidationStep(settings, validate, transform, value, lastError, input);
      r.value == value && r.lastError == Some(text) && (r.accepted <==> text == "")
  {
  }

  /** `true` stores the transformed input and accepts the answer exactly when
      no earlier error is pending (the prompt loop clears `lastError` before
      each read, so in practice it accepts). */
  lemma TrueStoresTransformed(settings: PromptSettings, validate: Value -> ValidateResult, transform: Value -> Value,
                              value: Value, lastError: Option<string>, input: Value)
    requires Truthy(input) || settings.default == Undefined
    requires Validator(settings, validate)(input) == Verdict(true)
    ensures var r := ValidationStep(settings, validate, transform, value, lastError, input);
      r.value == TransformValue(settings, transform, input) && r.lastError == lastError &&
      (lastError.None? ==> r.accepted)
  {
  }

  /** With no pending error, the answer is accepted exactly when the input is
      defaulted, or the validator says `true` or returns the empty message. */
  lemma AcceptedIff(settings: PromptSettings, validate: Value -> ValidateResult, transform: Value -> Value,
                    value: Value, input: Value)
    ensures ValidationStep(settings, validate, transform, value, None, input).accepted <==>
      ((!Truthy(input) && settings.default != Undefined) ||
       Validator(settings, validate)(input) in {Verdict(true), Message("")})
  {
  }

  /** `isKey(keys, name, event)`: the key list under `name` is defined and
      holds the event's name or its sequence. */
  predicate IsKey(keys: Option<map<string, seq<string>>>, name: string, event: KeyEvent)
  {
    keys.Some? && name in keys.value &&
    ((event.name.Some? && IndexOf(keys.value[name], event.name.value) != -1) ||
     (event.sequence.Some? && IndexOf(keys.value[name], event.sequence.value) != -1))
  }

  /** `isKey` is membership of the event's name or sequence in the key list. */
  lemma IsKeyMembership(keys: Option<map<string, seq<string>>>, name: string, event: KeyEvent)
    ensures IsKey(keys, name, event) <==>
      keys.Some? && name in keys.value &&
      exists k :: k in keys.value[name] && (Some(k) == event.name || Some(k) == event.sequence)
  {
    if keys.Some? && name in keys.value {
      var list := keys.value[name];
      if event.name.Some? && event.name.value in list {
        assert Some(event.name.value) == event.name;
      } else if event.sequence.Some? && event.sequence.value in list {
        assert Some(event.sequence.value) == event.sequence;
      }
    }
  }

  /** The prompt object's answer state. */
  class GenericPrompt {
    var value: Value
    var lastError: Option<string>
    const settings: PromptSettings
    /** The concrete prompt's own `validate` and `transform`. */
    const validate: Value -> ValidateResult
    const transform: Value -> Value

    constructor(settings: PromptSettings, validate: Value -> ValidateResult, transform: Value -> Value)
      ensures this.settings == settings && this.validate == validate && this.transform == transform
      ensures value == Undefined && lastError == None
    {
      this.settings := settings;
      this.validate := validate;
      this.transform := transform;
      value := Undefined;
      lastError := None;
    }

    /** `validateValue`: updates `value` and `lastError` and reports acceptance. */
    method ValidateValue(input: Value) returns (accepted: bool)
      modifies this
      ensures Answer(value, lastError, accepted) ==
        ValidationStep(settings, validate, transform, old(value), old(lastError), input)
    {
      if !Truthy(input) && settings.default != Undefined {
        value := settings.default;
        return true;
      }
      var validation := if settings.validate.Some? then settings.validate.value(input) else validate(input);
      if validation == Verdict(false) {
        lastError := Some(InvalidAnswer);
      } else if validation.Message? {
        lastError := Some(validation.text);
      } else {
        value := if settings.transform.Some? then settings.transform.value(input) else transform(input);
      }
      return !(lastError.Some? && lastError.value != "");
    }
  }

  /** The class-wide slot `GenericPrompt.injectedValue`. */
  class Injection {
    var injectedValue: Value

    constructor()
      ensures injectedValue == Undefined
    {
      injectedValue := Undefined;
    }

    /** `inject(value)`: later prompts read `value` instead of the keyboard. */
    method Inject(v: Value)
      modifies this
      ensures injectedValue == v
    {
      injectedValue := v;
    }
  }
}
