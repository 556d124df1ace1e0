# A verified model of cliffy's flag validation, prompts, table options and bash completions

This project models, in Dafny, the core of the cliffy command-line toolkit for
Deno:

- **Flag validation** (`flags/validate_flags.ts`, `flags/_utils.ts`). This is
  the check that runs after parsing:
  - it injects declared defaults into the flags record, including the implicit
    `true` behind a `--no-X` option;
  - then, per parsed option in map order, it runs the standalone, conflicts,
    depends and required-argument checks;
  - finally it runs the required-option pass.

  Also modelled are the helpers beside it: `paramCaseToCamelCase`, `getOption`,
  `getFlag`, the Levenshtein `distance`, `closest` and the "Did you mean"
  suggestions.
- **Prompts.** The answer-validation step of the prompt base class
  (`prompt/_generic_prompt.ts`) and of its older version
  (`packages/prompt/lib/generic-prompt.ts`). The suggestion list of
  text-input prompts: matching, selection and scrolling, completion, and key
  dispatch (`prompt/_generic_suggestions.ts`). The checkbox prompt's options,
  toggling, answer and validation (`prompt/checkbox.ts`).
- **Table** (`table/table.ts`): the option setters with their `override` flag,
  the column definitions, header and body, and the border queries.
- **Bash completions** (`command/completions/bash-completions-generator.ts`):
  the per-command completion function and the pre-order walk over the command
  tree.

The modules follow the source files:

| module | file | source |
|---|---|---|
| `Wrappers` | `wrappers.dfy` | Option/Result/Outcome and JavaScript numbers with `Infinity` |
| `FlagTypes` | `flag_types.dfy` | JavaScript values and the declared option |
| `FlagUtils` | `flag_utils.dfy` | `flags/_utils.ts` |
| `FlagValidator` | `validate_flags.dfy` | `flags/validate_flags.ts` |
| `FlagValidatorFacts` | `validate_flags_facts.dfy` | properties of the validator |
| `JsStrings` | `js_strings.dfy` | `trim`, `toLowerCase`, `split`, `join`, `substr`, `indexOf` |
| `GenericPromptModel` | `generic_prompt.dfy` | `prompt/_generic_prompt.ts` |
| `LegacyPrompt` | `legacy_prompt.dfy` | `packages/prompt/lib/generic-prompt.ts` |
| `Suggestions` | `suggestions.dfy` | `prompt/_generic_suggestions.ts` |
| `CheckboxModel` | `checkbox.dfy` | `prompt/checkbox.ts` |
| `TableModel` | `table.dfy` | `table/table.ts` |
| `BashCompletions` | `bash_completions.dfy` | `command/completions/bash-completions-generator.ts` |

**Where the state changes, the model is imperative:**
- the parse context `ctx` is a class whose `flags` and `standalone` the
  validator updates;
- the prompt objects, the suggestion list, the checkbox and the table are
  classes whose methods update their fields;
- `distance` fills a two-dimensional array.

Each such method is proved against a specification function of its inputs
and old state, and the properties are proved about those functions.

**JavaScript values** are the datatype `FlagTypes.Value`. It distinguishes a
missing key from a key that holds `undefined`, because the source tests both
`in` and `typeof … === "undefined"`. An exception thrown by the validator is
an `Outcome` (or `Result`) carrying a `FlagError`.

**Where the code and the prose description of the validator differ, the
model follows the code:**
- **Checks run per option, not per rule.** The standalone, conflicts, depends
  and required-argument checks run one option at a time, in the parsed map's
  order (`flags/validate_flags.ts:35-54`). So an error on an earlier option
  wins over a standalone option later in the map. Only the required-option
  pass runs after all options.
- **The standalone key count includes defaults.** The "only one key" test of
  the standalone check counts every key of the record, injected defaults
  included (line 30). Defaults are discounted only in the loop over the other
  options (line 139).
- **A declared positive option suppresses the `true` of `--no-X`.** Any
  declared option `X`, with or without a default, suppresses the implicit
  `true`. So does any `X` already in the record, whatever its value
  (lines 83-91).
- **Conflict exemptions from `required` test truthiness under the raw name.**
  They test whether the conflicting flag's value is truthy, under its name as
  written, not under its camelCase key (line 217). A conflicting `--audio-codec`
  (stored as `audioCodec`) therefore never exempts. The model keeps the raw
  lookup (`FlagValidator.RawTruthy`).
- **A missing multi-argument value is a TypeError.** A required slot of a
  multi-argument option whose value is missing throws JavaScript's TypeError
  rather than `MissingOptionValue` (lines 192-194). The model names this error
  `ValueNotIndexable`.

## Model

| member | source | states |
|---|---|---|
| `FlagUtils.Upper` | flags/_utils.ts:7 | upper-casing a lower-case ASCII letter gives an upper-case letter |
| `FlagUtils.ParamCaseToCamelCase` | flags/_utils.ts:4-9 | the result is never longer than the input (each replaced `-x` shrinks by one) |
| `FlagUtils.CamelCaseHead` | flags/_utils.ts:4-9 | the first character is the upper-cased letter after a leading `-`, or the input's first character |
| `FlagUtils.CamelCaseNoDash` | flags/_utils.ts:4-9 | a string without dashes is left unchanged |
| `FlagUtils.CamelCaseNoMatch` | flags/_utils.ts:4-9 | a string with no `-` followed by a lower-case letter is left unchanged |
| `FlagUtils.CamelCaseLeavesNoMatch` | flags/_utils.ts:4-9 | the result contains no `-` followed by a lower-case letter (the global replace leaves none) |
| `FlagUtils.CamelCaseOneDash` | flags/_utils.ts:4-9 | `a-cb` becomes `aCb` for dash-free `a`, `b` and a lower-case `c` |
| `FlagUtils.CamelCaseIdempotent` | flags/_utils.ts:4-9 | converting twice is converting once |
| `FlagUtils.StripDashes` | flags/_utils.ts:21-23 | the result is a suffix of the name, starts with no dash, and everything removed was a dash |
| `FlagUtils.StripLeadingDashes` | flags/_utils.ts:21-23 | the `while` loop computes `StripDashes` |
| `FlagUtils.FirstOptionIndex` | flags/_utils.ts:25-31 | nothing exactly when no option has the name or alias; otherwise the first option that does |
| `FlagUtils.IsOptionNames` | flags/_utils.ts:80-83 | an option is recognised under exactly its name and its aliases |
| `FlagUtils.FindOption` | flags/_utils.ts:17-32 | after stripping dashes, nothing exactly when no option matches; otherwise a matching option |
| `FlagUtils.GetOption` | flags/_utils.ts:17-32 | the loops return `FindOption`; undefined exactly when no option has the stripped name as name or alias |
| `FlagUtils.FirstOptionIndexUnique` | flags/_utils.ts:25-31 | the first match found is the earliest matching option |
| `FlagUtils.GetFlag` | flags/_utils.ts:64-72 | the flag starts with a dash and names the same option; a dashed name is kept, otherwise `--` or `-` is prefixed by length |
| `FlagUtils.GetFlagIdempotent` | flags/_utils.ts:64-72 | applying `getFlag` twice is applying it once |
| `FlagUtils.LevSelf` | flags/_utils.ts:85-112 | the edit distance of a string to itself is 0 |
| `FlagUtils.LevSymmetric` | flags/_utils.ts:85-112 | the edit distance is symmetric |
| `FlagUtils.LevBounds` | flags/_utils.ts:85-112 | the distance is at least the length difference and at most the longer length |
| `FlagUtils.LevStep` | flags/_utils.ts:99-109 | the recurrence the matrix cell follows, in terms of the distance of prefixes |
| `FlagUtils.FillRow` | flags/_utils.ts:100-109 | filling row `i` makes every cell of rows `0..i` the distance of the corresponding prefixes, and leaves later rows alone |
| `FlagUtils.Distance` | flags/_utils.ts:85-112 | the matrix algorithm returns the edit distance `Lev(a, b)` |
| `FlagUtils.EarliestMin` | flags/_utils.ts:114-125 | the index of a minimum distance among the first `n` candidates, earlier than any other index with the same distance |
| `FlagUtils.ClosestMatch` | flags/_utils.ts:114-125 | undefined exactly for an empty list; otherwise the first candidate of minimum distance |
| `FlagUtils.Closest` | flags/_utils.ts:114-125 | the strict `<` scan returns `ClosestMatch` |
| `FlagUtils.DidYouMean` | flags/_utils.ts:55-62 | empty exactly when there is no match or it is empty; otherwise the message quotes the earliest non-empty candidate of minimal distance |
| `FlagUtils.CandidateFlags` | flags/_utils.ts:38-47 | every candidate is a flag spelling that starts with a dash, and there is at least one when options are declared |
| `FlagUtils.CandidateFlagsSound` | flags/_utils.ts:38-47 | every candidate is the flag spelling of a declared option's name or alias |
| `FlagUtils.CandidateFlagsAppend` | flags/_utils.ts:38-47 | the candidates follow the options' declaration order: those of a concatenation are the candidates of each part in turn |
| `FlagUtils.CandidateFlagsComplete` | flags/_utils.ts:38-47 | every option's name and every alias appear among the candidates as flags |
| `FlagUtils.DidYouMeanOption` | flags/_utils.ts:34-49 | a suggestion is made exactly when options are declared; it quotes the candidate closest to the flag spelling of the input, which is the flag of some declared name or alias |
| `FlagUtils.DidYouMeanType` | flags/_utils.ts:51-53 | for non-empty type names, a suggestion is made exactly when there are types; it quotes the type closest to the given name |
| `FlagValidator.FlagsResult.constructor` | flags/validate_flags.ts:21 | the parse context holds the given record and marker |
| `FlagValidator.IsSetCamelCase` | flags/validate_flags.ts:235-239 | a flag is looked up under its camelCase key, so the param-case and camelCase spellings are set alike |
| `FlagValidator.Target` | flags/validate_flags.ts:79-98 | only a `no-X` option can be skipped or carry an implicit default, and that default is `true`; a non-empty option name never writes to the empty key |
| `FlagValidator.Step` | flags/validate_flags.ts:79-118 | one option records at most its own name as default-sourced and never overwrites or drops a defined value |
| `FlagValidator.DefaultsUpTo` | flags/validate_flags.ts:78-119 | after any number of options, every value the user supplied is still there, and every recorded name is the name of an option processed so far |
| `FlagValidator.Validate` | flags/validate_flags.ts:20-61 | `standalone` is never cleared and is only set on success, and every value the user supplied survives validation |
| `FlagValidator.DefaultTarget` | flags/validate_flags.ts:79-98 | the key an option's default goes to, or a skip for a `no-X` whose `X` is present or declared |
| `FlagValidator.SetDefaultValue` | flags/validate_flags.ts:79-118 | one loop iteration performs one `Step` of the record and the default-sourced names |
| `FlagValidator.InjectDefaults` | flags/validate_flags.ts:78-119 | the loop leaves the state after all declared options (`DefaultsUpTo`) |
| `FlagValidator.SetDefaultValues` | flags/validate_flags.ts:67-122 | `ctx.flags` and the returned names are `Defaults` of the old record; `standalone` is untouched |
| `FlagValidator.StandaloneOutcome` | flags/validate_flags.ts:124-145 | not standalone: continue; standalone with one key: stop; otherwise an error exactly when another option's value is not default-sourced |
| `FlagValidator.ValidateStandaloneOption` | flags/validate_flags.ts:124-145 | the loop returns `StandaloneOutcome` |
| `FlagValidator.ConflictOutcome` | flags/validate_flags.ts:147-159 | passes exactly when no conflicting flag is set; otherwise it reports the first one that is |
| `FlagValidator.ValidateConflictingOptions` | flags/validate_flags.ts:147-159 | the loop returns `ConflictOutcome` |
| `FlagValidator.DependsOutcome` | flags/validate_flags.ts:161-175 | a default-sourced option passes; otherwise it passes exactly when every dependency is set, and it reports the first one that is not |
| `FlagValidator.ValidateDependingOptions` | flags/validate_flags.ts:161-175 | the loop returns `DependsOutcome` |
| `FlagValidator.RequiredValuesOutcome` | flags/validate_flags.ts:177-200 | no args: pass; one arg: fail exactly when required and undefined; several args over an array: pass exactly when every required slot is defined; the first failing slot is reported |
| `FlagValidator.ValidateRequiredValues` | flags/validate_flags.ts:177-200 | the loop returns `RequiredValuesOutcome` |
| `FlagValidator.FirstRawTruthy` | flags/validate_flags.ts:216-217 | the first conflicting flag whose raw-name value is truthy, or none exactly when there is none |
| `FlagValidator.IsMissingRequired` | flags/validate_flags.ts:213-225 | the finds compute `MissingRequired` (required, absent and not exempted by either kind of conflict) |
| `FlagValidator.RequiredOptionsOutcome` | flags/validate_flags.ts:202-228 | passes exactly when no declared option is missing; otherwise it reports the first missing one |
| `FlagValidator.ValidateRequiredOptions` | flags/validate_flags.ts:202-228 | the loop returns `RequiredOptionsOutcome` |
| `FlagValidator.OptionStep` | flags/validate_flags.ts:36-53 | one option's checks either continue or end the loop with the standalone marker or an error, never with normal completion |
| `FlagValidator.OptionSteps` | flags/validate_flags.ts:35-54 | the per-option outcomes, one per parsed option |
| `FlagValidator.CheckOption` | flags/validate_flags.ts:36-53 | the unknown-option, standalone, conflicts, depends and required-value checks of one option compute `OptionStep` |
| `FlagValidator.CheckOptions` | flags/validate_flags.ts:35-54 | the loop stops at the first option that ends it (`OptionChecks`) |
| `FlagValidator.ValidateFlags` | flags/validate_flags.ts:20-61 | the new `ctx.flags`, `ctx.standalone` and the outcome are those of the specification `Validate` |
| `FlagValidatorFacts.NoSchemaNoop` | flags/validate_flags.ts:25-27 | without declared options nothing changes and validation passes |
| `FlagValidatorFacts.AllowEmptySkipsChecks` | flags/validate_flags.ts:30-33 | with `allowEmpty` and an empty record after defaults, no check runs |
| `FlagValidatorFacts.StepKeepsDefined` | flags/validate_flags.ts:105-118 | one injection step never overwrites a defined value, drops no key and forgets no default-sourced name |
| `FlagValidatorFacts.DefaultsKeepDefined` | flags/validate_flags.ts:78-119 | the same holds between any two points of the loop |
| `FlagValidatorFacts.RecordedAreDeclared` | flags/validate_flags.ts:114 | every name recorded as default-sourced belongs to an option processed so far |
| `FlagValidatorFacts.SuppliedValuesKept` | flags/validate_flags.ts:105-110 | a value supplied by the user is never replaced by a default |
| `FlagValidatorFacts.StepInjects` | flags/validate_flags.ts:105-118 | an option with a default, not ignored and not already set, gets its (transformed) default and is recorded |
| `FlagValidatorFacts.DefaultInjected` | flags/validate_flags.ts:78-119 | such an option still holds its injected default after the whole loop |
| `FlagValidatorFacts.NoDefaultNoChange` | flags/validate_flags.ts:105-110 | an ordinary option without a default changes nothing |
| `FlagValidatorFacts.NoXSkipped` | flags/validate_flags.ts:83-91 | `no-X` changes nothing when `X` is in the record or declared |
| `FlagValidatorFacts.NoXSetsPositive` | flags/validate_flags.ts:83-118 | otherwise `no-X` sets `X`'s camelCase key to its default, which is `true` unless a default or handler says otherwise |
| `FlagValidatorFacts.OptionStepPasses` | flags/validate_flags.ts:36-53 | one option continues the loop exactly when it is known, not standalone, and passes the conflicts, depends and value checks |
| `FlagValidatorFacts.OptionStepNotRequired` | flags/validate_flags.ts:36-53 | the per-option checks never report a missing required option |
| `FlagValidatorFacts.OptionChecksDone` | flags/validate_flags.ts:35-54 | the loop completes exactly when every option continues it |
| `FlagValidatorFacts.OptionChecksStop` | flags/validate_flags.ts:35-54 | otherwise it ends with the outcome of the first option that stops it |
| `FlagValidatorFacts.OptionChecksNotRequired` | flags/validate_flags.ts:35-54 | the loop never fails with a missing required option |
| `FlagValidatorFacts.RequiredCheckedLast` | flags/validate_flags.ts:56-60 | a missing-required error comes only after every option passed, from a declared option that is missing |
| `FlagValidatorFacts.StandaloneEndsValidation` | flags/validate_flags.ts:46-49 | when the loop stops at a standalone option, `standalone` is set and validation passes with the defaulted record |
| `FlagValidatorFacts.StandaloneSingleKey` | flags/validate_flags.ts:133-135 | a known standalone first option with a single key in the record ends validation successfully |
| `FlagValidatorFacts.ExemptWhenListed` | flags/validate_flags.ts:218-221 | a required option named in any parsed option's conflicts is exempt |
| `FlagValidatorFacts.ExemptByOwnConflict` | flags/validate_flags.ts:216-217 | a required option with a truthy conflicting flag is exempt |
| `FlagValidatorFacts.ConflictsNoDefaults` | command/test/option/conflicts_test.ts:5-27 | the test command's options carry no defaults, so injection changes nothing |
| `FlagValidatorFacts.ConflictsNoArguments` | command/test/option/conflicts_test.ts:29-37 | with no options given, the command fails with the missing required option `type` |
| `JsStrings.TrimStart` | prompt/checkbox.ts:275 | the result is a suffix, what was removed is whitespace, and it starts with non-whitespace |
| `JsStrings.TrimEnd` | prompt/checkbox.ts:275 | the result is a prefix, what was removed is whitespace, and it ends with non-whitespace |
| `JsStrings.Trim` | prompt/checkbox.ts:275 | the result is no longer and starts and ends with non-whitespace |
| `JsStrings.TrimIdempotent` | prompt/checkbox.ts:275 | trimming twice is trimming once |
| `JsStrings.BlankIffWhitespace` | prompt/_generic_suggestions.ts:85 | the trimmed input is empty exactly when the input is all whitespace |
| `JsStrings.Lower` | prompt/_generic_suggestions.ts:80-81 | lower-casing maps every character and keeps the length |
| `JsStrings.LowerAppend` | prompt/_generic_suggestions.ts:80-81 | lower-casing distributes over concatenation |
| `JsStrings.Substr` | prompt/_generic_suggestions.ts:103-105 | `substr(start)` is what follows the first `start` characters, or empty past the end |
| `JsStrings.IndexOf` | prompt/checkbox.ts:125 | `-1` exactly when absent; otherwise the first position of the element |
| `JsStrings.Split` | command/completions/bash-completions-generator.ts:92 | at least one piece, none containing the separator |
| `JsStrings.Join` | command/completions/bash-completions-generator.ts:98 | joining a single piece gives that piece |
| `JsStrings.JoinSplit` | command/completions/bash-completions-generator.ts:98 | joining the pieces of a split with the separator gives back the string |
| `JsStrings.SplitWithout` | command/completions/bash-completions-generator.ts:92 | a string without the separator splits into itself |
| `JsStrings.SplitFirst` | command/completions/bash-completions-generator.ts:98 | splitting at the first separator gives the part before it, then the split of the rest |
| `JsStrings.ConcatAppend` | command/completions/bash-completions-generator.ts:74 | concatenating joined lists is joining their concatenations |
| `Wrappers.NatToString` | prompt/checkbox.ts:260 | a non-empty string of decimal digits that denotes the number (`DigitsValue`) |
| `Wrappers.IntToString` | prompt/checkbox.ts:260 | non-negative numbers print as digits, negative ones with a leading minus |
| `GenericPromptModel.ValidationStep` | prompt/_generic_prompt.ts:286-306 | a falsy input with a default set is accepted outright, even with an error pending; any other answer is accepted exactly when no error is left |
| `GenericPromptModel.DefaultSkipsValidation` | prompt/_generic_prompt.ts:287-290 | a falsy input with a default set stores the default, keeps the error state, is accepted, and runs neither validator nor transform |
| `GenericPromptModel.CustomValidatorWins` | prompt/_generic_prompt.ts:292-295 | with a custom validator set, the prompt's own validator does not matter |
| `GenericPromptModel.CustomTransformWins` | prompt/_generic_prompt.ts:273-277 | with a custom transform set, the prompt's own transform does not matter |
| `GenericPromptModel.FalseRejects` | prompt/_generic_prompt.ts:297-298 | `false` sets `Invalid answer.` and rejects, leaving the value alone |
| `GenericPromptModel.MessageBecomesError` | prompt/_generic_prompt.ts:299-300 | a message becomes the error verbatim and the value is kept; it is accepted only for the empty message |
| `GenericPromptModel.TrueStoresTransformed` | prompt/_generic_prompt.ts:301-302 | `true` stores the transformed input and leaves the error state as it was |
| `GenericPromptModel.AcceptedIff` | prompt/_generic_prompt.ts:286-306 | from a clean state, an answer is accepted exactly when the default applies or validation returns `true` or an empty message |
| `GenericPromptModel.IsKeyMembership` | prompt/_generic_prompt.ts:315-328 | a key matches exactly when the named binding exists and lists the event's name or sequence |
| `GenericPromptModel.GenericPrompt.constructor` | prompt/_generic_prompt.ts:62 | the prompt starts with its settings, no value and no error |
| `GenericPromptModel.GenericPrompt.ValidateValue` | prompt/_generic_prompt.ts:286-306 | the new value, error and result are those of `ValidationStep` |
| `GenericPromptModel.Injection.constructor` | prompt/_generic_prompt.ts:46 | no value is injected at first |
| `GenericPromptModel.Injection.Inject` | prompt/_generic_prompt.ts:58-60 | the injected value is the given one |
| `LegacyPrompt.SanitizeValue` | packages/prompt/lib/generic-prompt.ts:120-127 | a falsy input with a default gives the default; otherwise the custom sanitizer, else the prompt's own |
| `LegacyPrompt.LegacyValidationStep` | packages/prompt/lib/generic-prompt.ts:129-145 | the sanitized value is always stored, and the answer is accepted exactly when no error is left |
| `LegacyPrompt.ValidatorSeesSanitized` | packages/prompt/lib/generic-prompt.ts:131-133 | the validator is applied to the sanitized value, the custom one overriding the prompt's own |
| `LegacyPrompt.RejectedValueStored` | packages/prompt/lib/generic-prompt.ts:131-144 | a rejected answer still leaves the sanitized value stored and an error set |
| `LegacyPrompt.LegacyErrors` | packages/prompt/lib/generic-prompt.ts:135-142 | `false` gives `Invalid answer.`, a message becomes the error, `true` keeps the error state |
| `LegacyPrompt.LegacyGenericPrompt.constructor` | packages/prompt/lib/generic-prompt.ts:27-29 | the prompt starts with no value and no error |
| `LegacyPrompt.LegacyGenericPrompt.ValidateValue` | packages/prompt/lib/generic-prompt.ts:129-145 | the new value, error and result are those of `LegacyValidationStep` |
| `Suggestions.Matching` | prompt/_generic_suggestions.ts:78-83 | exactly the configured suggestions that start with the input, ignoring ASCII case |
| `Suggestions.MatchingAppend` | prompt/_generic_suggestions.ts:78-83 | filtering keeps the order (it distributes over concatenation) |
| `Suggestions.EmptyInputMatchesAll` | prompt/_generic_suggestions.ts:78-83 | an empty input keeps every suggestion |
| `Suggestions.ListHeight` | prompt/_generic_suggestions.ts:197-204 | the list height is the number of suggestions, capped by a positive `maxRows` |
| `Suggestions.MatchedIndex` | prompt/_generic_suggestions.ts:84-87 | the selection is clamped to the list, with -1 allowed only for a blank input: a selection in range is kept, one past the end becomes the last row, and one below the floor (or any, with no matches) becomes the floor |
| `Suggestions.MatchedOffset` | prompt/_generic_suggestions.ts:88-94 | the scroll offset is clamped so that the list stays full: an offset in range is kept, one past the last full window becomes that window, and a negative one (or any, when the list is shorter than the window) becomes 0 |
| `Suggestions.MatchKeepsSelectionShown` | prompt/_generic_suggestions.ts:84-94 | re-matching keeps a visible selection, and it stays visible |
| `Suggestions.NextSelection` | prompt/_generic_suggestions.ts:274-286 | moves down by one unless at the end, scrolling by at most one |
| `Suggestions.PreviousSelection` | prompt/_generic_suggestions.ts:262-271 | moves up by one unless already at -1, scrolling by at most one |
| `Suggestions.NextKeepsShown` | prompt/_generic_suggestions.ts:274-286 | moving down keeps the selection visible, scrolling exactly when it leaves the bottom row |
| `Suggestions.PreviousKeepsShown` | prompt/_generic_suggestions.ts:262-271 | moving up keeps the selection visible, scrolling exactly when it leaves the top row |
| `Suggestions.PreviousFromFirstRow` | prompt/_generic_suggestions.ts:262-271 | moving up from the first row gives selection -1 and offset -1, which the next match clamps to 0 |
| `Suggestions.Hint` | prompt/_generic_suggestions.ts:101-106 | no hint without a selection; otherwise the input and the hint together have the suggestion's length |
| `Suggestions.HintCompletesInput` | prompt/_generic_suggestions.ts:101-106 | the input followed by the hint is the selected suggestion, up to ASCII case, and exactly it when the case matches |
| `Suggestions.SuggestionKeys` | prompt/_generic_suggestions.ts:57-62 | the bindings include `complete`, `next` and `previous` with defaults `tab`, `up` and `down`, user bindings overriding |
| `Suggestions.KeyAction` | prompt/_generic_suggestions.ts:210-239 | the base prompt handles the event exactly when it is none of the four keys; moving the cursor right needs room to move |
| `Suggestions.ListModeSwapsDirection` | prompt/_generic_suggestions.ts:212-225 | list mode swaps next and previous and nothing else |
| `Suggestions.DefaultKeyBindings` | prompt/_generic_suggestions.ts:57-62 | tab completes, up selects next, down selects previous, and up selects previous in list mode |
| `Suggestions.GenericSuggestions.constructor` | prompt/_generic_suggestions.ts:46-67 | no suggestions, selection -1, offset 0, and the default key bindings merged with the user's |
| `Suggestions.GenericSuggestions.Height` | prompt/_generic_suggestions.ts:197-204 | for a non-negative `maxRows`, the height is at most the number of suggestions |
| `Suggestions.GenericSuggestions.GetSuggestion` | prompt/_generic_suggestions.ts:101-106 | nothing without a selection; for a selected suggestion that starts with the input, the input followed by the hint is that suggestion |
| `Suggestions.GenericSuggestions.Match` | prompt/_generic_suggestions.ts:74-95 | without configured suggestions nothing changes; otherwise the list is `Matching` and the selection and offset are clamped |
| `Suggestions.GenericSuggestions.SelectNextSuggestion` | prompt/_generic_suggestions.ts:274-286 | the selection and offset become `NextSelection`; nothing else changes |
| `Suggestions.GenericSuggestions.SelectPreviousSuggestion` | prompt/_generic_suggestions.ts:262-271 | the selection and offset become `PreviousSelection`; nothing else changes |
| `Suggestions.GenericSuggestions.CompleteInput` | prompt/_generic_suggestions.ts:252-259 | a non-empty selected suggestion becomes the input with the cursor at its end and the selection reset; otherwise nothing changes |
| `Suggestions.GenericSuggestions.DeleteCharRight` | prompt/_generic_suggestions.ts:242-250 | removes the character under the cursor if there is one, and resets the selection when the input becomes empty |
| `Suggestions.GenericSuggestions.HandleEvent` | prompt/_generic_suggestions.ts:210-239 | dispatches as `KeyAction` says; a selection move changes only the selection and offset; a completion sets the input to the selected suggestion, the cursor to its end and the selection to the first row, or changes nothing; a cursor move leaves the selection and offset alone; every action keeps the suggestion list |
| `CheckboxModel.MapOption` | prompt/checkbox.ts:119-128 | an item is checked when it says so, or leaves it unset and is in the default list; the icon is on unless switched off |
| `CheckboxModel.MapOptions` | prompt/checkbox.ts:117-130 | one option per item, in order |
| `CheckboxModel.CheckedValues` | prompt/checkbox.ts:166-170 | exactly the values of the checked options, no more of them than options |
| `CheckboxModel.CheckedValuesAppend` | prompt/checkbox.ts:166-170 | the answer keeps the option order |
| `CheckboxModel.DefaultsPreselect` | prompt/checkbox.ts:124-127 | items without their own `checked` are checked exactly when their value is in the default list |
| `CheckboxModel.Toggle` | prompt/checkbox.ts:235-238 | only the option under the cursor changes, and only its mark |
| `CheckboxModel.ToggleTwice` | prompt/checkbox.ts:235-238 | toggling twice restores the options |
| `CheckboxModel.ToggleChangesAnswer` | prompt/checkbox.ts:235-238 | toggling adds the option's value to the answer or removes it, and nothing else |
| `CheckboxModel.Validate` | prompt/checkbox.ts:245-267 | `true` exactly for an array of known non-empty values within the bounds; `false` exactly when some value is not acceptable; a message otherwise |
| `CheckboxModel.TooFewReportedFirst` | prompt/checkbox.ts:259-261 | too few values are reported with the minimum message, even when there are also too many |
| `CheckboxModel.TooManyReported` | prompt/checkbox.ts:262-264 | too many values, with the minimum met, are reported with the maximum message |
| `CheckboxModel.DefaultBoundsAccept` | prompt/checkbox.ts:81-82 | the default bounds 0 and `Infinity` accept every valid answer, the empty one included |
| `CheckboxModel.TransformAnswer` | prompt/checkbox.ts:274-276 | every value is trimmed, in order |
| `CheckboxModel.TransformIdempotent` | prompt/checkbox.ts:274-276 | trimming the answer twice is trimming it once |
| `CheckboxModel.Checkbox.constructor` | prompt/checkbox.ts:75-99 | the options come from `mapOptions`, all of them are listed, and the cursor is on the first |
| `CheckboxModel.Checkbox.CheckValue` | prompt/checkbox.ts:235-238 | the option object under the cursor is toggled; nothing else changes; with no option under the cursor it fails (the source's `TypeError`) and nothing changes |
| `CheckboxModel.ValidAnswerAccepted` | prompt/test/checkbox_test.ts:8-15 | `["value1", "value3"]` is accepted and returned unchanged |
| `CheckboxModel.TransformKeepsUnpadded` | prompt/checkbox.ts:274-276 | an answer of unpadded strings is returned as given |
| `CheckboxModel.UnknownValueRejected` | prompt/test/checkbox_test.ts:44-58 | `["value3", "value4"]` gets `Invalid answer.` |
| `CheckboxModel.TooFewTestMessage` | prompt/test/checkbox_test.ts:77-94 | `minOptions: 3` with two values is rejected with `The minimum number of options is 3 but got 2.` |
| `CheckboxModel.TooManyTestMessage` | prompt/test/checkbox_test.ts:96-113 | `maxOptions: 1` with two values is rejected with `The maximum number of options is 1 but got 2.` |
| `TableModel.SetOption` | table/table.ts:191-256 | with `override` the option takes the value; without it, it takes the value only when unset |
| `TableModel.NewTableKeepsInitialised` | table/table.ts:52-60 | on a new table, only `align` (initially unset) responds to a setter called without `override` |
| `TableModel.MergeColumn` | table/table.ts:137 | each of the five column options (border, align, minimum and maximum width, padding) takes the given value when set and keeps the column's own otherwise |
| `TableModel.MergeIntoNew` | table/table.ts:136-140 | merging options into an empty column is building a column from them |
| `TableModel.ColumnsAfter` | table/table.ts:130-142 | only `index` changes: an instance replaces it, options merge into an existing column or create one |
| `TableModel.ColumnOptionsOnEmpty` | table/table.ts:136-140 | on an empty or missing column, `column(index, options)` gives the column of those options |
| `TableModel.HeaderBorder` | table/table.ts:339-343 | the header row's own `true` or `false` decides; when it has none, the table border decides |
| `TableModel.CellsHaveBorder` | table/table.ts:352 | a cell array has a border exactly when some cell object has one |
| `TableModel.RowsHaveBorder` | table/table.ts:349-353 | the body rows have a border exactly when some row has one |
| `TableModel.TableBorderCases` | table/table.ts:357-359 | a bordered table has a border; without borders on the table, columns and rows, only a header row's own border counts |
| `TableModel.Table.constructor` | table/table.ts:52-61 | a new table holds the rows, no header, and the initial options |
| `TableModel.Table.Body` | table/table.ts:157-161 | the rows are replaced by the given ones; nothing else changes |
| `TableModel.Table.GetBody` | table/table.ts:309-311 | the rows, as a copy |
| `TableModel.Table.Header` | table/table.ts:148-151 | the header row is set; nothing else changes |
| `TableModel.Table.Columns` | table/table.ts:118-123 | the columns are exactly one per argument, instances kept and options turned into columns; nothing else changes |
| `TableModel.Table.SetColumn` | table/table.ts:130-142 | the columns become `ColumnsAfter`; nothing else changes |
| `TableModel.Table.GetColumn` | table/table.ts:372-374 | returns the column at `index`, first storing an empty one when there is none |
| `TableModel.Table.MaxColWidth` | table/table.ts:191-196 | `maxColWidth` follows `SetOption`; nothing else changes |
| `TableModel.Table.MinColWidth` | table/table.ts:203-208 | `minColWidth` follows `SetOption`; nothing else changes |
| `TableModel.Table.Indent` | table/table.ts:215-220 | `indent` follows `SetOption`; nothing else changes |
| `TableModel.Table.Padding` | table/table.ts:227-232 | `padding` follows `SetOption`; nothing else changes |
| `TableModel.Table.Border` | table/table.ts:239-244 | `border` follows `SetOption`; nothing else changes |
| `TableModel.Table.Align` | table/table.ts:251-256 | `align` follows `SetOption`; nothing else changes |
| `BashCompletions.ReplaceSpecialChars` | command/completions/bash-completions-generator.ts:139-141 | the length is kept, ASCII letters and digits are kept, everything else becomes `_` |
| `BashCompletions.ReplaceSpecialCharsIdempotent` | command/completions/bash-completions-generator.ts:139-141 | replacing twice is replacing once |
| `BashCompletions.ReplaceKeepsNames` | command/completions/bash-completions-generator.ts:139-141 | a name of letters, digits and `_` is left unchanged |
| `BashCompletions.ChildPath` | command/completions/bash-completions-generator.ts:63 | the root's path is its name; a child's is the parent's path, a space and its name |
| `BashCompletions.SplitCount` | command/completions/bash-completions-generator.ts:98 | splitting yields one more piece than there are separators |
| `BashCompletions.ChildPathWords` | command/completions/bash-completions-generator.ts:63 | a child's path has one more word than its parent's |
| `BashCompletions.CompletionsPathIsTail` | command/completions/bash-completions-generator.ts:97-99 | empty exactly for a one-word path; otherwise the path is its first word followed by the completions path |
| `BashCompletions.CompletionsPath` | command/completions/bash-completions-generator.ts:97-99 | empty exactly when the path has no space; otherwise it starts with a space |
| `BashCompletions.FlagNames` | command/completions/bash-completions-generator.ts:89-94 | one trimmed name per comma-separated flag spelling |
| `BashCompletions.FlattenMembership` | command/completions/bash-completions-generator.ts:95 | flattening keeps exactly the elements of the parts |
| `BashCompletions.CompletionWordsMembership` | command/completions/bash-completions-generator.ts:86-95 | the offered words are exactly the flag spellings of the options and the names of the subcommands |
| `BashCompletions.CompletionWords` | command/completions/bash-completions-generator.ts:86-95 | the subcommand names close the word list, in their order |
| `BashCompletions.CompletionCall` | command/completions/bash-completions-generator.ts:109-113 | a completion call is made exactly when there are arguments |
| `BashCompletions.OnlyFirstArgument` | command/completions/bash-completions-generator.ts:109-127 | only the first argument's action matters, for options and for positional arguments alike |
| `BashCompletions.CaseArmList` | command/completions/bash-completions-generator.ts:104-117 | one `case` arm per option, in order |
| `BashCompletions.CaseArm` | command/completions/bash-completions-generator.ts:105-116 | an option without arguments gets an arm with an empty `opts` |
| `BashCompletions.CaseBlock` | command/completions/bash-completions-generator.ts:101-119 | the `case` statement is empty exactly when the command has no options |
| `BashCompletions.PositionalCompletion` | command/completions/bash-completions-generator.ts:122-127 | the positional completion is empty exactly when the command takes no arguments |
| `BashCompletions.CaseStatement` | command/completions/bash-completions-generator.ts:101-119 | the loop builds `CaseBlock` |
| `BashCompletions.CommandCompletions` | command/completions/bash-completions-generator.ts:81-136 | the generated function is `Block` of the command's visit |
| `BashCompletions.BlockText` | command/completions/bash-completions-generator.ts:129-135 | the function is named `__` followed by its path with special characters replaced |
| `BashCompletions.Block` | command/completions/bash-completions-generator.ts:81-136 | the completion function of a visit is named after the visit's path |
| `BashCompletions.Visits` | command/completions/bash-completions-generator.ts:62-79 | the walk starts with the command itself at its own path and depth |
| `BashCompletions.GenerateCompletions` | command/completions/bash-completions-generator.ts:61-79 | a command's own completion function comes before those of its subcommands |
| `BashCompletions.ConcatMapAppend` | command/completions/bash-completions-generator.ts:71-74 | rendering concatenated lists is concatenating their renderings |
| `BashCompletions.GeneratePreOrder` | command/completions/bash-completions-generator.ts:62-79 | the output is the sections of the pre-order walk, in order, skipping a command listed as its own child |
| `BashCompletions.ChildPreOrder` | command/completions/bash-completions-generator.ts:69-74 | the children's output is the sections of their walks, in order |
| `BashCompletions.VisitDepth` | command/completions/bash-completions-generator.ts:62-72 | every visited path is non-empty and has as many words as the visit's depth index |
| `BashCompletions.ChildVisitDepth` | command/completions/bash-completions-generator.ts:69-72 | the same holds for the children's walks |
| `BashCompletions.RootWalkDepth` | command/completions/bash-completions-generator.ts:62-79 | from the root (`""`, 1), the first path is the root's name and the depth always equals the word count |

## Left out

- Parsing, type coercion, the command tree and error message formatting are
  outside this model. The validator takes the parsed record and the
  parsed-options map as given. Its errors are constructors, not message
  strings.
- `getDefaultValue(option)` and the option's `value` handler are code outside
  this model. They appear as function parameters. A `value` handler's presence
  is a flag on the option.
- The unknown-option error carries only the option's name. The schema the
  source attaches, for its "Did you mean" text, is left out.
- Object identity (`opt !== option`, `subCommand !== command`) is modelled by
  position in the parsed-options map and by a command `id`.
- `ValidationStep`, `LegacyValidationStep` and the prompt `ValidateValue`
  methods model the `await` on a validator as a direct call. Everything
  asynchronous is left out, and so is what calls `validateValue`:
  - `prompt`, `execute`, `render`, `read`;
  - the injected-value short cut and the `Deno.exit` on cancel.
- `GenericInput` and `GenericList` are not part of this model:
  - `getCurrentInputValue()` is the input value;
  - moving the cursor right is a reported action, not modelled further;
  - keys not handled by the suggestion prompt are reported as delegated to
    the base class.
- `Suggestions.GenericSuggestions.HandleEvent`: for a cursor move it states
  only that the selection and offset are unchanged, and for a delegated key
  only that the suggestion list is. What `moveCursorRight` and the input
  prompt's key handling do to the input and the cursor belongs to the input
  prompt and is not part of this model. That key handling can reach this
  class's `deleteCharRight` override, which clears the selection when the
  last character goes. `DeleteCharRight` models that override on its own,
  but `HandleEvent` does not dispatch to it.
- The input prompt's own default key lists (moving the cursor, deleting)
  are not part of this model. `SuggestionKeys` holds only the `complete`,
  `next` and `previous` lists this class adds, and the user's lists. So the
  `moveCursorRight` branch of `KeyAction`, including completing at the end of
  the input, applies here only when the user supplies that list.
- Rendering is left out: `getList`, `getInfo`, `getListItem`, colours and
  `stripColor` (the model takes suggestions as plain text).
- Suggestions are strings. Numeric suggestions (`toString()`) are left out.
- Strings are sequences of code points, whereas JavaScript strings are
  sequences of UTF-16 code units. For text outside the Basic Multilingual
  Plane the model therefore differs in every length and position:
  - `FlagUtils.GetFlag`'s `name.length > 1` test (flags/_utils.ts:68);
  - the Levenshtein distance behind `Lev` and `Distance`, which compares
    `charAt` units;
  - `Substr` and the suggestion hint (`Hint`, `GetSuggestion`);
  - the indexing of string values in `ElementDefined`
    (flags/validate_flags.ts:192-194).
- The flags record `ctx.flags` is a finite map holding only its own keys.
  A JavaScript object also answers `in` and `typeof` for keys inherited
  from `Object.prototype` (`constructor`, `toString`, ...). So an option
  whose camelCase key is such a name is taken as absent here, where the
  source sees it as present. This affects the `in` test of `no-X`
  (flags/validate_flags.ts:85), the defined test of injection
  (flags/validate_flags.ts:105-110), the required-option lookup
  (flags/validate_flags.ts:213) and `isset` (flags/validate_flags.ts:235-239).
  The same holds for the other records the validator reads:
  - the `ignoreDefaults` record that `Step` consults
    (flags/validate_flags.ts:105-106), where the source never injects a
    default for such a key and the model does;
  - the record of default-sourced names, the `recorded` set read by
    `StandaloneOutcome` and `DependsOutcome` (flags/validate_flags.ts:139,
    171), where the source treats an option named like an inherited key as
    default-sourced and the model does not;
  - the raw-name lookup of `FirstRawTruthy` (flags/validate_flags.ts:217),
    which is truthy in the source for a conflict named like an inherited
    function.
- JavaScript numbers are modelled as whole numbers and `Infinity`
  (`JsNumber`, and `Num(int)` in the parsed values). Fractional numbers,
  `NaN` and `-Infinity` are left out. So a bound such as `minOptions: 1.5`
  cannot be printed, a `NaN` bound (which never compares as exceeded) cannot
  be stated, and `NaN` is not among the falsy values of `Truthy`.
- `toLowerCase` is modelled for ASCII letters only. `trim` removes
  JavaScript's white-space and line-terminator characters. Both work on code
  points, not UTF-16 code units.
- `BashCompletions.ReplaceSpecialChars`: works per code point, whereas the
  source's regular expression works per UTF-16 code unit, so a character
  outside the Basic Multilingual Plane becomes one `_` instead of two.
- The checkbox option's `name`, `disabled` and separator handling (`mapOption`
  in the list base class) are left out. An option is its value, its check
  mark and its icon.
- The checkbox's own key handling (`handleEvent`) is not modelled, only
  `checkValue`. The list filter is reduced to `shown`, the mapping from
  listed rows to option objects.
- `CheckboxModel.Checkbox.GetValue` is a function of the options
  (`CheckedValues`), so it carries no contract of its own.
- Table rendering is left out:
  - the `Column`, `Row` and `Cell` classes beyond their border settings;
  - `Row.from`, `chars`, value parsers and renderers;
  - `Table.from`, `fromJson`, `clone`, `toString`, `render`;
  - the plain getters.
- A row object is modelled by its `hasBorder()` result, and `header` takes
  such a row.
- Columns are values: merging options into a column shared with another
  table (aliasing) is not captured.
- `TableModel.Table.HasHeaderBorder`, `HasBodyBorder` and `HasBorder` read
  the state through `HeaderBorder`, `BodyBorder` and `TableBorder`, whose
  properties are stated in those functions' lemmas.
- The heredoc around the completion functions (`generate`, including
  `command.getVersion()`) is left out; only the per-command functions and
  their concatenation are modelled.
- `flags/types/integer.ts` is not part of this model.
- Of the conflicts tests, only the empty command line is stated as a lemma.
  The other scenarios are covered by the general outcome functions.
