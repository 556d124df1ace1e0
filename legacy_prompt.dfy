/** The answer-validation step of the older prompt base class
    (packages/prompt/lib/generic-prompt.ts). Unlike the newer one it sanitizes
    first, stores the sanitized value before validating it, and validates the
    default too. */
module LegacyPrompt {
  import opened Wrappers
  import opened FlagTypes
  import opened GenericPromptModel

  /** The settings this step reads: the `default` (`Undefined` when none is
      set) and the optional custom `sanitize` and `validate`. */
  datatype LegacySettings = LegacySettings(
    default: Value,
    sanitize: Option<Value -> Value>,
    validate: Option<Value -> ValidateResult>)

  /** `sanitizeValue`: a falsy input with a default set gives the default;
      otherwise the custom sanitizer when set, else the prompt's own. */
  function SanitizeValue(settings: LegacySettings, sanitize: Value -> Value, input: Value): (r: Value)
    ensures !Truthy(input) && settings.default != Undefined ==> r == settings.default
    ensures (Truthy(input) || settings.default == Undefined) && settings.sanitize.Some? ==>
      r == settings.sanitize.value(input)
    ensures (Truthy(input) || settings.default == Undefined) && settings.sanitize.None? ==> r == sanitize(input)
  {
    if !Truthy(input) && settings.default != Undefined then settings.default
    else if settings.sanitize.Some? then settings.sanitize.value(input)
    else sanitize(input)
  }

  /** The validator `validateValue` consults: the custom one when set, else the prompt's own. */
  function LegacyValidator(settings: LegacySettings, validate: Value -> ValidateResult): Value -> ValidateResult
  {
    if settings.validate.Some? then settings.validate.value else validate
  }

  /** `validateValue(input)` from the field `lastError`: the new `value`, the
      new `lastError` and the result. */
  function LegacyValidationStep(settings: LegacySettings, sanitize: Value -> Value, validate: Value -> ValidateResult,
                                lastError: Option<string>, input: Value): (r: Answer)
    ensures r.value == SanitizeValue(settings, sanitize, input)
    ensures r.accepted <==> NoError(r.lastError)
  {
    var value := SanitizeValue(settings, sanitize, input);
    match LegacyValidator(settings, validate)(value)
    case Verdict(false) => Answer(value, Some(InvalidAnswer), false)
    case Message(text) => Answer(value, Some(text), NoError(Some(text)))
    case Verdict(true) => Answer(value, lastError, NoError(lastError))
  }

  /** The validator sees the sanitized value, the custom one in preference to
      the prompt's own: two validators that agree on the sanitized value give
      the same step. */
  lemma ValidatorSeesSanitized(settings: LegacySettings, sanitize: Value -> Value,
                               validate1: Value -> ValidateResult, validate2: Value -> ValidateResult,
                               lastError: Option<string>, input: Value)
    requires settings.validate.Some? || validate1(SanitizeValue(settings, sanitize, input)) ==
                                        validate2(SanitizeValue(settings, sanitize, input))
    ensures LegacyValidationStep(settings, sanitize, validate1, lastError, input) ==
            LegacyValidationStep(settings, sanitize, validate2, lastError, input)
  {
  }

  /** A rejected answer still leaves the sanitized value stored. */
  lemma RejectedValueStored(settings: LegacySettings, sanitize: Value -> Value, validate: Value -> ValidateResult,
                            lastError: Option<string>, input: Value)
    requires !LegacyValidationStep(settings, sanitize, validate, lastError, input).accepted
    ensures LegacyValidationStep(settings, sanitize, validate, lastError, input).value ==
            SanitizeValue(settings, sanitize, input)
    ensures !NoError(LegacyValidationStep(settings, sanitize, validate, lastError, input).lastError)
  {
  }

  /** `false` gives `Invalid answer.`, a string becomes the error verbatim,
      and `true` keeps the error state as it was. */
  lemma LegacyErrors(settings: LegacySettings, sanitize: Value -> Value, validate: Value -> ValidateResult,
                     lastError: Option<string>, input: Value)
    ensures var value := SanitizeValue(settings, sanitize, input);
      var res := LegacyValidator(settings, validate)(value);
      var r := LegacyValidationStep(settings, sanitize, validate, lastError, input);
      (res == Verdict(false) ==> r.lastError == Some(InvalidAnswer) && !r.accepted) &&
      (res.Message? ==> r.lastError == Some(res.text)) &&
      (res == Verdict(true) ==> r.lastError == lastError)
  {
  }

  /** The older prompt object's answer state. */
  class LegacyGenericPrompt {
    var value: Value
    var lastError: Option<string>
    const settings: LegacySettings
    /** The concrete prompt's own `sanitize` and `validate`. */
    const sanitize: Value -> Value
    const validate: Value -> ValidateResult

    constructor(settings: LegacySettings, sanitize: Value -> Value, validate: Value -> ValidateResult)
      ensures this.settings == settings && this.sanitize == sanitize && this.validate == validate
      ensures value == Undefined && lastError == None
    {
      this.settings := settings;
      this.sanitize := sanitize;
      this.validate := validate;
      value := Undefined;
      lastError := None;
    }

    /** `validateValue`: stores the sanitized value, validates it, and reports acceptance. */
    method ValidateValue(input: Value) returns (accepted: bool)
      modifies this
      ensures Answer(value, lastError, accepted) ==
        LegacyValidationStep(settings, sanitize, validate, old(lastError), input)
    {
      value := SanitizeValue(settings, sanitize, input);
      var validation := if settings.validate.Some? then settings.validate.value(value) else validate(value);
      if validation == Verdict(false) {
        lastError := Some(InvalidAnswer);
      } else if validation.Message? {
        lastError := Some(validation.text);
      }
      return !(lastError.Some? && lastError.value != "");
    }
  }
}
