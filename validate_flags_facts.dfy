/** Properties of the flag validator: the early returns, what default injection
    may and may not change, the `--no-X` rule, the order of the checks, the
    standalone short-cut, the exemptions from `required`, and the outcomes of
    the conflicting-options scenarios the command tests pin down. */
module FlagValidatorFacts {
  import opened Wrappers
  import opened FlagTypes
  import opened FlagUtils
  import opened FlagValidator

  // ===========================================================================
  // early returns

  /** Without a declared option list nothing is injected or checked. */
  lemma NoSchemaNoop(flags0: map<string, Value>, standalone0: bool, opts: ParseOptions, options: ParsedOptions,
                     getDefault: FlagOption -> Value, applyValue: (FlagOption, Value) -> Value)
    requires opts.flags.None?
    ensures Validate(flags0, standalone0, opts, options, getDefault, applyValue) == Validation(flags0, standalone0, Pass)
  {
  }

  /** With `allowEmpty` and an empty record after default injection, no check runs. */
  lemma AllowEmptySkipsChecks(flags0: map<string, Value>, standalone0: bool, opts: ParseOptions, options: ParsedOptions,
                              getDefault: FlagOption -> Value, applyValue: (FlagOption, Value) -> Value)
    requires opts.flags.Some? && opts.allowEmpty
    requires |Defaults(flags0, opts, getDefault, applyValue).flags| == 0
    ensures Validate(flags0, standalone0, opts, options, getDefault, applyValue) == Validation(map[], standalone0, Pass)
  {
    var d := Defaults(flags0, opts, getDefault, applyValue);
    assert d.flags.Keys == {};
    assert d.flags == map[];
  }

  // ===========================================================================
  // default injection

  /** `b` keeps every defined value of `a`, every key and every recorded name. */
  ghost predicate Keeps(a: DefaultsState, b: DefaultsState)
  {
    (forall key :: Defined(a.flags, key) ==> key in b.flags && b.flags[key] == a.flags[key]) &&
    a.flags.Keys <= b.flags.Keys && a.recorded <= b.recorded
  }

  /** One step of default injection keeps every defined value, every key and
      every recorded name. */
  lemma StepKeepsDefined(st: DefaultsState, option: FlagOption, schema: seq<FlagOption>, ignore: Option<map<string, Value>>,
                         getDefault: FlagOption -> Value, applyValue: (FlagOption, Value) -> Value)
    ensures Keeps(st, Step(st, option, schema, ignore, getDefault, applyValue))
  {
  }

  /** Along a sequence of states each of which keeps the one before, every
      state keeps every earlier one. */
  lemma {:induction false} KeepsAlong(trace: seq<DefaultsState>, j: nat, k: nat)
    requires j <= k < |trace|
    requires forall i {:trigger Keeps(trace[i], trace[i + 1])} :: 0 <= i < |trace| - 1 ==> Keeps(trace[i], trace[i + 1])
    ensures Keeps(trace[j], trace[k])
    decreases k
  {
    if j < k {
      var m := k - 1;
      KeepsAlong(trace, j, m);
      assert Keeps(trace[m], trace[m + 1]);
      assert trace[m + 1] == trace[k];
    }
  }

  /** Each declared option keeps the state the previous ones left. */
  lemma DefaultsStepKeeps(flags0: map<string, Value>, schema: seq<FlagOption>, ignore: Option<map<string, Value>>,
                          i: nat, getDefault: FlagOption -> Value, applyValue: (FlagOption, Value) -> Value)
    requires i < |schema|
    ensures Keeps(DefaultsUpTo(flags0, schema, ignore, i, getDefault, applyValue),
                  DefaultsUpTo(flags0, schema, ignore, i + 1, getDefault, applyValue))
  {
    StepKeepsDefined(DefaultsUpTo(flags0, schema, ignore, i, getDefault, applyValue), schema[i], schema, ignore,
                     getDefault, applyValue);
  }

  /** Default injection never changes a key that already holds a defined
      value and never removes a key; what holds after `j` options still holds
      after `k >= j`, and recorded names stay recorded. */
  lemma DefaultsKeepDefined(flags0: map<string, Value>, schema: seq<FlagOption>, ignore: Option<map<string, Value>>,
                            j: nat, k: nat, getDefault: FlagOption -> Value, applyValue: (FlagOption, Value) -> Value)
    requires j <= k <= |schema|
    ensures Keeps(DefaultsUpTo(flags0, schema, ignore, j, getDefault, applyValue), DefaultsUpTo(flags0, schema, ignore, k, getDefault, applyValue))
  {
    var trace := DefaultsTrace(flags0, schema, ignore, getDefault, applyValue);
    DefaultsTraceKeeps(flags0, schema, ignore, getDefault, applyValue);
    KeepsAlong(trace, j, k);
  }

  /** The states after each prefix of the declared options. */
  ghost function DefaultsTrace(flags0: map<string, Value>, schema: seq<FlagOption>, ignore: Option<map<string, Value>>,
                               getDefault: FlagOption -> Value, applyValue: (FlagOption, Value) -> Value): (r: seq<DefaultsState>)
    ensures |r| == |schema| + 1
    ensures forall i :: 0 <= i <= |schema| ==> r[i] == DefaultsUpTo(flags0, schema, ignore, i, getDefault, applyValue)
  {
    seq(|schema| + 1, i requires 0 <= i <= |schema| => DefaultsUpTo(flags0, schema, ignore, i, getDefault, applyValue))
  }

  lemma DefaultsTraceKeeps(flags0: map<string, Value>, schema: seq<FlagOption>, ignore: Option<map<string, Value>>,
                           getDefault: FlagOption -> Value, applyValue: (FlagOption, Value) -> Value)
    ensures var trace := DefaultsTrace(flags0, schema, ignore, getDefault, applyValue);
      forall i {:trigger Keeps(trace[i], trace[i + 1])} :: 0 <= i < |trace| - 1 ==> Keeps(trace[i], trace[i + 1])
  {
    var trace := DefaultsTrace(flags0, schema, ignore, getDefault, applyValue);
    forall i {:trigger Keeps(trace[i], trace[i + 1])} | 0 <= i < |trace| - 1
      ensures Keeps(trace[i], trace[i + 1])
    {
      DefaultsStepKeeps(flags0, schema, ignore, i, getDefault, applyValue);
    }
  }

  /** The names of the first `k` declared options. */
  function NamesUpTo(schema: seq<FlagOption>, k: nat): (r: set<string>)
    requires k <= |schema|
    ensures forall n :: n in r <==> exists i :: 0 <= i < k && schema[i].name == n
  {
    if k == 0 then {} else NamesUpTo(schema, k - 1) + {schema[k - 1].name}
  }

  /** `b` records nothing beyond what `a` records and `name`. */
  ghost predicate RecordsAtMost(a: DefaultsState, b: DefaultsState, name: string)
  {
    b.recorded <= a.recorded + {name}
  }

  /** One step records at most the name of the option it processes. */
  lemma StepRecordsOwnName(st: DefaultsState, option: FlagOption, schema: seq<FlagOption>, ignore: Option<map<string, Value>>,
                           getDefault: FlagOption -> Value, applyValue: (FlagOption, Value) -> Value)
    ensures RecordsAtMost(st, Step(st, option, schema, ignore, getDefault, applyValue), option.name)
  {
  }

  /** Declared option `i` records at most its own name. */
  lemma DefaultsStepRecords(flags0: map<string, Value>, schema: seq<FlagOption>, ignore: Option<map<string, Value>>,
                            i: nat, getDefault: FlagOption -> Value, applyValue: (FlagOption, Value) -> Value)
    requires i < |schema|
    ensures RecordsAtMost(DefaultsUpTo(flags0, schema, ignore, i, getDefault, applyValue),
                          DefaultsUpTo(flags0, schema, ignore, i + 1, getDefault, applyValue), schema[i].name)
  {
    StepRecordsOwnName(DefaultsUpTo(flags0, schema, ignore, i, getDefault, applyValue), schema[i], schema, ignore,
                       getDefault, applyValue);
  }

  /** Along a trace whose step `i` records at most `schema[i].name`, only those names are recorded. */
  lemma {:induction false} RecordedAlong(trace: seq<DefaultsState>, schema: seq<FlagOption>, k: nat)
    requires |trace| == |schema| + 1 && k <= |schema|
    requires trace[0].recorded == {}
    requires forall i {:trigger RecordsAtMost(trace[i], trace[i + 1], schema[i].name)} :: 0 <= i < |schema| ==>
               RecordsAtMost(trace[i], trace[i + 1], schema[i].name)
    ensures trace[k].recorded <= NamesUpTo(schema, k)
  {
    if k > 0 {
      var m := k - 1;
      RecordedAlong(trace, schema, m);
      assert RecordsAtMost(trace[m], trace[m + 1], schema[m].name);
      assert NamesUpTo(schema, k) == NamesUpTo(schema, m) + {schema[m].name};
      assert trace[m + 1] == trace[k];
    }
  }

  lemma DefaultsTraceRecords(flags0: map<string, Value>, schema: seq<FlagOption>, ignore: Option<map<string, Value>>,
                             getDefault: FlagOption -> Value, applyValue: (FlagOption, Value) -> Value)
    ensures var trace := DefaultsTrace(flags0, schema, ignore, getDefault, applyValue);
      forall i {:trigger RecordsAtMost(trace[i], trace[i + 1], schema[i].name)} :: 0 <= i < |schema| ==>
        RecordsAtMost(trace[i], trace[i + 1], schema[i].name)
  {
    var trace := DefaultsTrace(flags0, schema, ignore, getDefault, applyValue);
    forall i {:trigger RecordsAtMost(trace[i], trace[i + 1], schema[i].name)} | 0 <= i < |schema|
      ensures RecordsAtMost(trace[i], trace[i + 1], schema[i].name)
    {
      DefaultsStepRecords(flags0, schema, ignore, i, getDefault, applyValue);
    }
  }

  /** Only declared option names are recorded as default-sourced. */
  lemma RecordedAreDeclared(flags0: map<string, Value>, schema: seq<FlagOption>, ignore: Option<map<string, Value>>,
                            k: nat, getDefault: FlagOption -> Value, applyValue: (FlagOption, Value) -> Value)
    requires k <= |schema|
    ensures DefaultsUpTo(flags0, schema, ignore, k, getDefault, applyValue).recorded <= NamesUpTo(schema, k)
  {
    var trace := DefaultsTrace(flags0, schema, ignore, getDefault, applyValue);
    DefaultsTraceRecords(flags0, schema, ignore, getDefault, applyValue);
    assert trace[0] == DefaultsUpTo(flags0, schema, ignore, 0, getDefault, applyValue);
    RecordedAlong(trace, schema, k);
  }

  /** Explicitly supplied (defined) values survive default injection. */
  lemma SuppliedValuesKept(flags0: map<string, Value>, opts: ParseOptions,
                           getDefault: FlagOption -> Value, applyValue: (FlagOption, Value) -> Value, key: string)
    requires Defined(flags0, key)
    ensures var d := Defaults(flags0, opts, getDefault, applyValue);
      key in d.flags && d.flags[key] == flags0[key]
  {
    if opts.flags.Some? && |opts.flags.value| > 0 {
      DefaultsKeepDefined(flags0, opts.flags.value, opts.ignoreDefaults, 0, |opts.flags.value|, getDefault, applyValue);
    }
  }

  /** A declared option (not `no-X`) whose camelCase key is undefined when its
      turn comes, which declares a default and is not in `ignoreDefaults`,
      receives its default passed through its value handler, and its name is
      recorded as default-sourced; a defined result stays until the end. */
  lemma DefaultInjected(flags0: map<string, Value>, schema: seq<FlagOption>, ignore: Option<map<string, Value>>, j: nat,
                        getDefault: FlagOption -> Value, applyValue: (FlagOption, Value) -> Value)
    requires j < |schema|
    requires !StartsWithNo(schema[j].name) && schema[j].default != Undefined
    requires var n := ParamCaseToCamelCase(schema[j].name);
      (ignore.None? || !Defined(ignore.value, n)) &&
      !Defined(DefaultsUpTo(flags0, schema, ignore, j, getDefault, applyValue).flags, n)
    requires InjectedValue(schema[j], Undefined, getDefault, applyValue) != Undefined
    ensures var d := DefaultsUpTo(flags0, schema, ignore, |schema|, getDefault, applyValue);
      var n := ParamCaseToCamelCase(schema[j].name);
      n in d.flags && d.flags[n] == InjectedValue(schema[j], Undefined, getDefault, applyValue) &&
      schema[j].name in d.recorded
  {
    var before := DefaultsUpTo(flags0, schema, ignore, j, getDefault, applyValue);
    StepInjects(before, schema[j], schema, ignore, getDefault, applyValue);
    assert DefaultsUpTo(flags0, schema, ignore, j + 1, getDefault, applyValue) ==
      Step(before, schema[j], schema, ignore, getDefault, applyValue);
    DefaultsKeepDefined(flags0, schema, ignore, j + 1, |schema|, getDefault, applyValue);
  }

  /** The step of such an option writes its default under its camelCase key
      and records its name. */
  lemma StepInjects(st: DefaultsState, option: FlagOption, schema: seq<FlagOption>, ignore: Option<map<string, Value>>,
                    getDefault: FlagOption -> Value, applyValue: (FlagOption, Value) -> Value)
    requires !StartsWithNo(option.name) && option.default != Undefined
    requires var n := ParamCaseToCamelCase(option.name);
      (ignore.None? || !Defined(ignore.value, n)) && !Defined(st.flags, n)
    ensures var b := Step(st, option, schema, ignore, getDefault, applyValue);
      var n := ParamCaseToCamelCase(option.name);
      n in b.flags && b.flags[n] == InjectedValue(option, Undefined, getDefault, applyValue) && option.name in b.recorded
  {
  }

  /** An option without a declared default, other than a `no-X` option,
      never changes the record. */
  lemma NoDefaultNoChange(st: DefaultsState, option: FlagOption, schema: seq<FlagOption>, ignore: Option<map<string, Value>>,
                          getDefault: FlagOption -> Value, applyValue: (FlagOption, Value) -> Value)
    requires !StartsWithNo(option.name) && option.default == Undefined
    ensures Step(st, option, schema, ignore, getDefault, applyValue) == st
  {
  }

  /** `no-X` is skipped when `X` is already a key of the record or is itself a
      declared option. */
  lemma NoXSkipped(st: DefaultsState, option: FlagOption, schema: seq<FlagOption>, ignore: Option<map<string, Value>>,
                   getDefault: FlagOption -> Value, applyValue: (FlagOption, Value) -> Value)
    requires StartsWithNo(option.name)
    requires option.name[3..] in st.flags || FindOption(schema, option.name[3..]).Some?
    ensures Step(st, option, schema, ignore, getDefault, applyValue) == st
  {
  }

  /** Otherwise `no-X` sets `camelCase(X)` when that key is undefined and not
      ignored, to `true` unless the option's own default or value handler
      says otherwise, and records the `no-X` option as default-sourced. */
  lemma NoXSetsPositive(st: DefaultsState, option: FlagOption, schema: seq<FlagOption>, ignore: Option<map<string, Value>>,
                        getDefault: FlagOption -> Value, applyValue: (FlagOption, Value) -> Value)
    requires StartsWithNo(option.name)
    requires option.name[3..] !in st.flags && FindOption(schema, option.name[3..]).None?
    requires var n := ParamCaseToCamelCase(option.name[3..]);
      n != "" && (ignore.None? || !Defined(ignore.value, n)) && !Defined(st.flags, n)
    ensures var n := ParamCaseToCamelCase(option.name[3..]);
      Step(st, option, schema, ignore, getDefault, applyValue) ==
        DefaultsState(st.flags[n := InjectedValue(option, Bool(true), getDefault, applyValue)], st.recorded + {option.name})
    ensures !option.hasValueHandler && (getDefault(option) == Undefined || getDefault(option) == Null) ==>
      InjectedValue(option, Bool(true), getDefault, applyValue) == Bool(true)
  {
  }

  // ===========================================================================
  // the per-option loop

  /** Parsed option `k` is declared and passes the standalone, conflicts,
      depends and required-value checks without stopping the loop. */
  predicate OptionPasses(flags: map<string, Value>, defaultValues: set<string>, schema: seq<FlagOption>,
                         options: ParsedOptions, keyCount: nat, k: nat)
    requires k < |options|
  {
    FindOption(schema, options[k].1.name).Some? &&
    StandaloneOutcome(k, options, keyCount, defaultValues) == Ok(false) &&
    ConflictOutcome(flags, options[k].1).Pass? &&
    DependsOutcome(flags, options[k].1, defaultValues).Pass? &&
    RequiredValuesOutcome(flags, options[k].1, options[k].0).Pass?
  }

  /** A parsed option passes exactly when its step lets the loop go on. */
  lemma OptionStepPasses(flags: map<string, Value>, defaultValues: set<string>, schema: seq<FlagOption>,
                         options: ParsedOptions, keyCount: nat, k: nat)
    requires k < |options|
    ensures OptionStep(flags, defaultValues, schema, options, keyCount, k).None? <==>
      OptionPasses(flags, defaultValues, schema, options, keyCount, k)
  {
    var name, option := options[k].0, options[k].1;
    var r := OptionStep(flags, defaultValues, schema, options, keyCount, k);
    var s := StandaloneOutcome(k, options, keyCount, defaultValues);
    if FindOption(schema, option.name).None? {
      assert r.Some?;
    } else if s.Err? || s.value {
      assert r.Some?;
    } else if ConflictOutcome(flags, option).Fail? || DependsOutcome(flags, option, defaultValues).Fail? {
      assert r.Some?;
    } else {
      assert r.None? <==> RequiredValuesOutcome(flags, option, name).Pass?;
    }
  }

  /** The step of a parsed option never reports a missing required option. */
  lemma OptionStepNotRequired(flags: map<string, Value>, defaultValues: set<string>, schema: seq<FlagOption>,
                              options: ParsedOptions, keyCount: nat, k: nat)
    requires k < |options|
    ensures var r := OptionStep(flags, defaultValues, schema, options, keyCount, k);
      r.Some? && r.value.Failed? ==> !r.value.error.MissingRequiredOption?
  {
    var name, option := options[k].0, options[k].1;
    var s := StandaloneOutcome(k, options, keyCount, defaultValues);
    var c := ConflictOutcome(flags, option);
    var d := DependsOutcome(flags, option, defaultValues);
    var v := RequiredValuesOutcome(flags, option, name);
    assert s.Err? ==> s.error.OptionNotCombinable?;
    assert c.Fail? ==> c.error.ConflictingOption? by {
      if c.Fail? {
        var cs := ListOrEmpty(option.conflicts);
        var i :| 0 <= i < |cs| && c.error == ConflictingOption(option.name, cs[i]);
      }
    }
    assert d.Fail? ==> d.error.DependingOption? by {
      if d.Fail? {
        var ds := ListOrEmpty(option.depends);
        var i :| 0 <= i < |ds| && d.error == DependingOption(option.name, ds[i]);
      }
    }
    assert v.Fail? ==> !v.error.MissingRequiredOption?;
  }


  /** A stopping loop runs through exactly when no step stops it. */
  lemma {:induction false} FirstStopDone(steps: seq<Option<LoopEnd>>, i: nat)
    requires i <= |steps|
    requires forall k :: 0 <= k < |steps| ==> steps[k] != Some(Done)
    ensures FirstStop(steps, i) == Done <==> forall k :: i <= k < |steps| ==> steps[k].None?
    decreases |steps| - i
  {
    if i < |steps| {
      FirstStopDone(steps, i + 1);
    }
  }

  /** When it stops early, it ends with the outcome of the first step that
      stops it, and every step before that one let it go on. */
  lemma {:induction false} FirstStopAt(steps: seq<Option<LoopEnd>>, i: nat)
    requires i <= |steps|
    requires forall k :: 0 <= k < |steps| ==> steps[k] != Some(Done)
    requires FirstStop(steps, i) != Done
    ensures exists k :: (i <= k < |steps| && steps[k] == Some(FirstStop(steps, i)) &&
      forall m :: i <= m < k ==> steps[m].None?)
    decreases |steps| - i
  {
    if steps[i].None? {
      FirstStopAt(steps, i + 1);
    }
  }

  /** The per-option loop runs through exactly when every parsed option's
      step lets it go on. */
  lemma OptionChecksDone(flags: map<string, Value>, defaultValues: set<string>, schema: seq<FlagOption>,
                         options: ParsedOptions, keyCount: nat)
    ensures OptionChecks(flags, defaultValues, schema, options, keyCount) == Done <==>
      forall k :: 0 <= k < |options| ==> OptionSteps(flags, defaultValues, schema, options, keyCount)[k].None?
  {
    var steps := OptionSteps(flags, defaultValues, schema, options, keyCount);
    FirstStopDone(steps, 0);
  }

  /** When the per-option loop stops early, it ends with the outcome of the
      first option whose step stops it, and the steps of all options before
      that one let it go on. */
  lemma OptionChecksStop(flags: map<string, Value>, defaultValues: set<string>, schema: seq<FlagOption>,
                         options: ParsedOptions, keyCount: nat)
    requires OptionChecks(flags, defaultValues, schema, options, keyCount) != Done
    ensures var end := OptionChecks(flags, defaultValues, schema, options, keyCount);
      exists k :: (0 <= k < |options| && OptionSteps(flags, defaultValues, schema, options, keyCount)[k] == Some(end) &&
        forall m :: 0 <= m < k ==> OptionSteps(flags, defaultValues, schema, options, keyCount)[m].None?)
  {
    var steps := OptionSteps(flags, defaultValues, schema, options, keyCount);
    FirstStopAt(steps, 0);
  }

  /** The per-option loop never reports a missing required option. */
  lemma OptionChecksNotRequired(flags: map<string, Value>, defaultValues: set<string>, schema: seq<FlagOption>,
                                options: ParsedOptions, keyCount: nat)
    ensures var end := OptionChecks(flags, defaultValues, schema, options, keyCount);
      end.Failed? ==> !end.error.MissingRequiredOption?
  {
    var steps := OptionSteps(flags, defaultValues, schema, options, keyCount);
    if FirstStop(steps, 0).Failed? {
      FirstStopAt(steps, 0);
      var k :| 0 <= k < |steps| && steps[k] == Some(FirstStop(steps, 0));
      OptionStepNotRequired(flags, defaultValues, schema, options, keyCount, k);
    }
  }

  /** A missing required option is reported only after every parsed option
      passed its checks (see `OptionStepPasses`), only when no standalone option ended the loop and
      the context was not standalone already, and only for a declared option
      that is missing although required. */
  lemma RequiredCheckedLast(flags0: map<string, Value>, standalone0: bool, opts: ParseOptions, options: ParsedOptions,
                            getDefault: FlagOption -> Value, applyValue: (FlagOption, Value) -> Value, n: string)
    requires Validate(flags0, standalone0, opts, options, getDefault, applyValue).outcome == Fail(MissingRequiredOption(n))
    ensures opts.flags.Some? && !standalone0
    ensures var d := Defaults(flags0, opts, getDefault, applyValue);
      forall k :: 0 <= k < |options| ==> OptionSteps(d.flags, d.recorded, opts.flags.value, options, |d.flags|)[k].None?
    ensures var d := Defaults(flags0, opts, getDefault, applyValue);
      exists k :: 0 <= k < |opts.flags.value| && opts.flags.value[k].name == n &&
        MissingRequired(opts.flags.value[k], d.flags, options)
  {
    var d := Defaults(flags0, opts, getDefault, applyValue);
    var schema := opts.flags.value;
    OptionChecksNotRequired(d.flags, d.recorded, schema, options, |d.flags|);
    OptionChecksDone(d.flags, d.recorded, schema, options, |d.flags|);
  }

  /** Once a standalone option ends the loop the context is marked standalone
      and the validation passes: the remaining options and the required-option
      pass are not looked at. */
  lemma StandaloneEndsValidation(flags0: map<string, Value>, standalone0: bool, opts: ParseOptions, options: ParsedOptions,
                                 getDefault: FlagOption -> Value, applyValue: (FlagOption, Value) -> Value)
    requires opts.flags.Some?
    requires var d := Defaults(flags0, opts, getDefault, applyValue);
      !(|d.flags| == 0 && opts.allowEmpty) &&
      OptionChecks(d.flags, d.recorded, opts.flags.value, options, |d.flags|) == Standalone
    ensures var d := Defaults(flags0, opts, getDefault, applyValue);
      Validate(flags0, standalone0, opts, options, getDefault, applyValue) == Validation(d.flags, true, Pass)
  {
  }

  /** A declared standalone option that is parsed first, with a single key in
      the record, makes the validation pass and marks the context standalone,
      whatever else is declared as required. */
  lemma StandaloneSingleKey(flags0: map<string, Value>, standalone0: bool, opts: ParseOptions, options: ParsedOptions,
                            getDefault: FlagOption -> Value, applyValue: (FlagOption, Value) -> Value)
    requires opts.flags.Some? && |options| > 0
    requires |Defaults(flags0, opts, getDefault, applyValue).flags| == 1
    requires FindOption(opts.flags.value, options[0].1.name).Some? && options[0].1.standalone
    ensures var d := Defaults(flags0, opts, getDefault, applyValue);
      Validate(flags0, standalone0, opts, options, getDefault, applyValue) == Validation(d.flags, true, Pass)
  {
  }

  // ===========================================================================
  // required options

  /** A required option is exempt when some parsed option lists its (non-empty)
      name among its conflicts. */
  lemma ExemptWhenListed(option: FlagOption, flags: map<string, Value>, options: ParsedOptions, k: nat)
    requires k < |options| && option.name != "" && option.name in ListOrEmpty(options[k].1.conflicts)
    ensures !MissingRequired(option, flags, options)
  {
  }

  /** A required option is exempt when the first of its own conflicts whose
      name holds a truthy value in the record has a non-empty name. */
  lemma ExemptByOwnConflict(option: FlagOption, flags: map<string, Value>, options: ParsedOptions, j: nat)
    requires var cs := ListOrEmpty(option.conflicts);
      j < |cs| && cs[j] != "" && RawTruthy(cs[j], flags) && forall m :: 0 <= m < j ==> !RawTruthy(cs[m], flags)
    ensures !MissingRequired(option, flags, options)
  {
    var cs := ListOrEmpty(option.conflicts);
    var own := FirstRawTruthy(cs, flags);
    assert own.Some? && own.value == j;
  }

  // ===========================================================================
  // the conflicting-options command (four required options, `type` conflicts
  // with the three others, which depend on each other)

  function Arg(): seq<FlagArgument> { [FlagArgument(false)] }

  function TypeOption(): FlagOption
  {
    FlagOption("type", Some(["t"]), false, true, Some(["video-type", "audio-type", "image-type"]), None, Some(Arg()), Undefined, false)
  }

  function VideoOption(): FlagOption
  {
    FlagOption("video-type", Some(["v"]), false, true, Some(["type"]), Some(["audio-type", "image-type"]), Some(Arg()), Undefined, false)
  }

  function AudioOption(): FlagOption
  {
    FlagOption("audio-type", Some(["a"]), false, true, Some(["type"]), Some(["video-type", "image-type"]), Some(Arg()), Undefined, false)
  }

  function ImageOption(): FlagOption
  {
    FlagOption("image-type", Some(["i"]), false, true, Some(["type"]), Some(["video-type", "audio-type"]), Some(Arg()), Undefined, false)
  }

  function ConflictsCommand(): ParseOptions
  {
    ParseOptions(Some([TypeOption(), VideoOption(), AudioOption(), ImageOption()]), false, None)
  }

  /** A name that does not start with `n` is no `no-X` option. */
  lemma NotNoOption(name: string)
    requires |name| > 0 && name[0] != 'n'
    ensures !StartsWithNo(name)
  {
    if |name| >= 3 {
      assert name[..3][0] == name[0];
    }
  }

  /** None of the four options has a default, so nothing is injected. */
  lemma ConflictsNoDefaults(flags0: map<string, Value>, getDefault: FlagOption -> Value, applyValue: (FlagOption, Value) -> Value)
    ensures Defaults(flags0, ConflictsCommand(), getDefault, applyValue) == DefaultsState(flags0, {})
  {
    var schema := ConflictsCommand().flags.value;
    var st := DefaultsState(flags0, {});
    forall k | 0 <= k < 4
      ensures Step(st, schema[k], schema, None, getDefault, applyValue) == st
    {
      NotNoOption(schema[k].name);
    }
    assert DefaultsUpTo(flags0, schema, None, 1, getDefault, applyValue) == st;
    assert DefaultsUpTo(flags0, schema, None, 2, getDefault, applyValue) == st;
    assert DefaultsUpTo(flags0, schema, None, 3, getDefault, applyValue) == st;
    assert DefaultsUpTo(flags0, schema, None, 4, getDefault, applyValue) == st;
  }

  /** No argument at all: `type` is reported missing. */
  lemma ConflictsNoArguments(getDefault: FlagOption -> Value, applyValue: (FlagOption, Value) -> Value)
    ensures Validate(map[], false, ConflictsCommand(), [], getDefault, applyValue) ==
      Validation(map[], false, Fail(MissingRequiredOption("type")))
  {
    var schema := ConflictsCommand().flags.value;
    ConflictsNoDefaults(map[], getDefault, applyValue);
    assert OptionChecks(map[], {}, schema, [], 0) == Done;
    assert MissingRequired(schema[0], map[], []);
  }
}
