/** Post-parse validation of the flags record: default injection (including the
    `--no-X` rule), then, per parsed option in map order, the standalone,
    conflicts, depends and required-argument checks, and finally the
    required-option pass. Errors are the constructors of `FlagError`. */
module FlagValidator {
  import opened Wrappers
  import opened FlagTypes
  import opened FlagUtils

  /** The errors the validator throws, carrying the option and flag names. */
  datatype FlagError =
    | UnknownOption(name: string)
    | OptionNotCombinable(option: string)
    | ConflictingOption(option: string, flag: string)
    | DependingOption(option: string, flag: string)
    | MissingOptionValue(option: string)
    | MissingRequiredOption(option: string)
      /** JavaScript's TypeError when a required slot of a multi-argument option
          is read from an `undefined` or `null` value. */
    | ValueNotIndexable(option: string)

  /** The parse settings the validator reads: the declared options (`undefined`
      when no schema was given), `allowEmpty` and `ignoreDefaults`. */
  datatype ParseOptions = ParseOptions(
    flags: Option<seq<FlagOption>>,
    allowEmpty: bool,
    ignoreDefaults: Option<map<string, Value>>
  )

  /** The parsed options map (property name -> option), in insertion order. */
  type ParsedOptions = seq<(string, FlagOption)>

  /** The parse context: the flags record and the `standalone` marker. */
  class FlagsResult {
    var flags: map<string, Value>
    var standalone: bool

    constructor (flags: map<string, Value>, standalone: bool)
      ensures this.flags == flags && this.standalone == standalone
    {
      this.flags := flags;
      this.standalone := standalone;
    }
  }

  /** `typeof record[key] !== "undefined"`. */
  predicate Defined(record: map<string, Value>, key: string)
  {
    key in record && record[key] != Undefined
  }

  /** `isset`: the camelCase key of `flagName` holds a defined value. */
  predicate IsSet(flagName: string, flags: map<string, Value>)
  {
    Defined(flags, ParamCaseToCamelCase(flagName))
  }

  /** A flag is looked up under its camelCase key, so naming it in camelCase
      or in param-case finds the same value. */
  lemma IsSetCamelCase(flagName: string, flags: map<string, Value>)
    ensures IsSet(ParamCaseToCamelCase(flagName), flags) <==> IsSet(flagName, flags)
  {
    CamelCaseIdempotent(flagName);
  }

  /** `a ?? b`. */
  function Coalesce(a: Value, b: Value): Value
  {
    if a == Undefined || a == Null then b else a
  }

  predicate StartsWithNo(name: string)
  {
    |name| >= 3 && name[..3] == "no-"
  }

  // ===========================================================================
  // setDefaultValues

  /** The flags record and the set of option names whose value came from a default. */
  datatype DefaultsState = DefaultsState(flags: map<string, Value>, recorded: set<string>)

  /** The key an option writes its default to and the implicit default that
      comes with it (`true` for `no-X`), or nothing when a `no-X` option is
      skipped because `X` is already in the record or declared as an option. */
  function Target(flags: map<string, Value>, option: FlagOption, schema: seq<FlagOption>): (r: Option<(string, Value)>)
    ensures r.None? ==> StartsWithNo(option.name)
    ensures r.Some? && r.value.1 != Undefined ==> StartsWithNo(option.name) && r.value.1 == Bool(true)
    ensures r.Some? && option.name != "" ==> r.value.0 != ""
  {
    if StartsWithNo(option.name) then
      var propName := option.name[3..];
      if propName in flags || FindOption(schema, propName).Some? then None
      else
        var name := ParamCaseToCamelCase(propName);
        Some((if name == "" then ParamCaseToCamelCase(option.name) else name, Bool(true)))
    else Some((ParamCaseToCamelCase(option.name), Undefined))
  }

  /** The value injected for `option`: its default (or the implicit one), passed
      through its `value` handler when it has one. */
  function InjectedValue(option: FlagOption, implicit: Value, getDefault: FlagOption -> Value, applyValue: (FlagOption, Value) -> Value): Value
  {
    var v := Coalesce(getDefault(option), implicit);
    if option.hasValueHandler then applyValue(option, v) else v
  }

  /** One iteration of the default-injection loop. */
  function Step(st: DefaultsState, option: FlagOption, schema: seq<FlagOption>, ignore: Option<map<string, Value>>,
                getDefault: FlagOption -> Value, applyValue: (FlagOption, Value) -> Value): (r: DefaultsState)
    ensures st.recorded <= r.recorded <= st.recorded + {option.name}
    ensures forall key :: Defined(st.flags, key) ==> key in r.flags && r.flags[key] == st.flags[key]
  {
    var t := Target(st.flags, option, schema);
    if t.None? then st
    else
      var (name, implicit) := t.value;
      if (ignore.None? || !Defined(ignore.value, name)) && !Defined(st.flags, name)
         && (option.default != Undefined || implicit != Undefined)
      then DefaultsState(st.flags[name := InjectedValue(option, implicit, getDefault, applyValue)], st.recorded + {option.name})
      else st
  }

  /** The state after the first `k` declared options were processed. */
  function DefaultsUpTo(flags0: map<string, Value>, schema: seq<FlagOption>, ignore: Option<map<string, Value>>, k: nat,
                        getDefault: FlagOption -> Value, applyValue: (FlagOption, Value) -> Value): (r: DefaultsState)
    requires k <= |schema|
    ensures forall key :: Defined(flags0, key) ==> key in r.flags && r.flags[key] == flags0[key]
    ensures forall n :: n in r.recorded ==> exists j :: 0 <= j < k && schema[j].name == n
  {
    if k == 0 then DefaultsState(flags0, {})
    else Step(DefaultsUpTo(flags0, schema, ignore, k - 1, getDefault, applyValue), schema[k - 1], schema, ignore, getDefault, applyValue)
  }

  /** What `setDefaultValues` leaves: nothing changes without declared options. */
  function Defaults(flags0: map<string, Value>, opts: ParseOptions,
                    getDefault: FlagOption -> Value, applyValue: (FlagOption, Value) -> Value): DefaultsState
  {
    if opts.flags.None? || |opts.flags.value| == 0 then DefaultsState(flags0, {})
    else DefaultsUpTo(flags0, opts.flags.value, opts.ignoreDefaults, |opts.flags.value|, getDefault, applyValue)
  }

  /** The first half of one iteration of `setDefaultValues`: the key the
      option's default goes to and its implicit default, or `None` where the
      loop continues with the next option. */
  method DefaultTarget(flags: map<string, Value>, option: FlagOption, schema: seq<FlagOption>)
    returns (t: Option<(string, Value)>)
    ensures t == Target(flags, option, schema)
  {
    var name := "";
    var defaultValue := Undefined;
    if StartsWithNo(option.name) {
      var propName := option.name[3..];
      if propName in flags {
        return None;
      }
      var positiveOption := GetOption(schema, propName);
      if positiveOption.Some? {
        return None;
      }
      name := ParamCaseToCamelCase(propName);
      defaultValue := Bool(true);
    }
    if name == "" {
      name := ParamCaseToCamelCase(option.name);
    }
    return Some((name, defaultValue));
  }

  /** The body of the default-injection loop for one declared option. */
  method SetDefaultValue(flags: map<string, Value>, defaultValues: set<string>, option: FlagOption, schema: seq<FlagOption>,
                         ignore: Option<map<string, Value>>, getDefault: FlagOption -> Value, applyValue: (FlagOption, Value) -> Value)
    returns (flags': map<string, Value>, defaultValues': set<string>)
    ensures DefaultsState(flags', defaultValues') == Step(DefaultsState(flags, defaultValues), option, schema, ignore, getDefault, applyValue)
  {
    flags', defaultValues' := flags, defaultValues;
    var t := DefaultTarget(flags, option, schema);
    if t.Some? {
      var name := t.value.0;
      var defaultValue := t.value.1;
      var hasDefaultValue := (ignore.None? || !Defined(ignore.value, name))
        && !Defined(flags, name)
        && (option.default != Undefined || defaultValue != Undefined);
      if hasDefaultValue {
        var value := Coalesce(getDefault(option), defaultValue);
        if option.hasValueHandler {
          value := applyValue(option, value);
        }
        flags' := flags[name := value];
        defaultValues' := defaultValues + {option.name};
      }
    }
  }

  /** The default-injection loop over the declared options, on a copy of the record. */
  method InjectDefaults(flags0: map<string, Value>, schema: seq<FlagOption>, ignore: Option<map<string, Value>>,
                        getDefault: FlagOption -> Value, applyValue: (FlagOption, Value) -> Value)
    returns (flags: map<string, Value>, defaultValues: set<string>)
    ensures DefaultsState(flags, defaultValues) == DefaultsUpTo(flags0, schema, ignore, |schema|, getDefault, applyValue)
  {
    flags, defaultValues := flags0, {};
    for i := 0 to |schema|
      invariant DefaultsState(flags, defaultValues) == DefaultsUpTo(flags0, schema, ignore, i, getDefault, applyValue)
    {
      flags, defaultValues := SetDefaultValue(flags, defaultValues, schema[i], schema, ignore, getDefault, applyValue);
    }
  }

  /** Injects the defaults into `ctx.flags` and returns the names of the options
      whose value came from a default. The record is updated through a local
      copy that is stored back at the end; nothing else reads it meanwhile. */
  method SetDefaultValues(ctx: FlagsResult, opts: ParseOptions,
                          getDefault: FlagOption -> Value, applyValue: (FlagOption, Value) -> Value)
    returns (defaultValues: set<string>)
    modifies ctx
    ensures DefaultsState(ctx.flags, defaultValues) == Defaults(old(ctx.flags), opts, getDefault, applyValue)
    ensures ctx.standalone == old(ctx.standalone)
  {
    defaultValues := {};
    if opts.flags.None? || |opts.flags.value| == 0 {
      return;
    }
    var flags;
    flags, defaultValues := InjectDefaults(ctx.flags, opts.flags.value, opts.ignoreDefaults, getDefault, applyValue);
    ctx.flags := flags;
  }

  // ===========================================================================
  // the per-option checks

  /** `validateStandaloneOption`: `Ok(true)` when the option is standalone and the
      record holds one key, or every other parsed option is default-sourced;
      `OptionNotCombinable` when some other parsed option is not. */
  function StandaloneOutcome(i: nat, options: ParsedOptions, keyCount: nat, defaultValues: set<string>): (r: Result<bool, FlagError>)
    requires i < |options|
    ensures !options[i].1.standalone ==> r == Ok(false)
    ensures options[i].1.standalone && keyCount == 1 ==> r == Ok(true)
    ensures r.Err? <==> (options[i].1.standalone && keyCount != 1 &&
      exists j :: 0 <= j < |options| && j != i && options[j].1.name !in defaultValues)
    ensures r.Err? ==> r.error == OptionNotCombinable(options[i].1.name)
  {
    var option := options[i].1;
    if !option.standalone then Ok(false)
    else if keyCount == 1 then Ok(true)
    else
      var p := (j: nat) => j < |options| && options[j].1.name !in defaultValues && j != i;
      assert forall j :: 0 <= j < |options| ==> (p(j) <==> (options[j].1.name !in defaultValues && j != i));
      var other := FirstWhere(|options|, p);
      if other.Some? then Err(OptionNotCombinable(option.name)) else Ok(true)
  }

  method ValidateStandaloneOption(i: nat, options: ParsedOptions, keyCount: nat, defaultValues: set<string>)
    returns (r: Result<bool, FlagError>)
    requires i < |options|
    ensures r == StandaloneOutcome(i, options, keyCount, defaultValues)
  {
    var option := options[i].1;
    if !option.standalone {
      return Ok(false);
    }
    if keyCount == 1 {
      return Ok(true);
    }
    for j := 0 to |options|
      invariant forall k :: 0 <= k < j ==> options[k].1.name in defaultValues || k == i
    {
      if options[j].1.name !in defaultValues && j != i {
        return Err(OptionNotCombinable(option.name));
      }
    }
    return Ok(true);
  }

  /** `validateConflictingOptions`: the first listed conflict that is set. */
  function ConflictOutcome(flags: map<string, Value>, option: FlagOption): (r: Outcome<FlagError>)
    ensures var cs := ListOrEmpty(option.conflicts);
      r.Pass? <==> forall k :: 0 <= k < |cs| ==> !IsSet(cs[k], flags)
    ensures var cs := ListOrEmpty(option.conflicts);
      r.Fail? ==> exists k :: (0 <= k < |cs| && IsSet(cs[k], flags) && r.error == ConflictingOption(option.name, cs[k]) &&
        forall j :: 0 <= j < k ==> !IsSet(cs[j], flags))
  {
    var cs := ListOrEmpty(option.conflicts);
    var p := (j: nat) => j < |cs| && IsSet(cs[j], flags);
    assert forall j :: 0 <= j < |cs| ==> (p(j) <==> IsSet(cs[j], flags));
    var k := FirstWhere(|cs|, p);
    if k.None? then Pass else Fail(ConflictingOption(option.name, cs[k.value]))
  }

  method ValidateConflictingOptions(flags: map<string, Value>, option: FlagOption) returns (r: Outcome<FlagError>)
    ensures r == ConflictOutcome(flags, option)
  {
    if option.conflicts.None? || |option.conflicts.value| == 0 {
      return Pass;
    }
    var cs := option.conflicts.value;
    for k := 0 to |cs|
      invariant forall j :: 0 <= j < k ==> !IsSet(cs[j], flags)
    {
      if IsSet(cs[k], flags) {
        return Fail(ConflictingOption(option.name, cs[k]));
      }
    }
    return Pass;
  }

  /** `validateDependingOptions`: the first listed dependency that is not set,
      unless the option's own value came from a default. */
  function DependsOutcome(flags: map<string, Value>, option: FlagOption, defaultValues: set<string>): (r: Outcome<FlagError>)
    ensures option.name in defaultValues ==> r == Pass
    ensures var ds := ListOrEmpty(option.depends);
      option.name !in defaultValues ==> (r.Pass? <==> forall k :: 0 <= k < |ds| ==> IsSet(ds[k], flags))
    ensures var ds := ListOrEmpty(option.depends);
      r.Fail? ==> exists k :: (0 <= k < |ds| && !IsSet(ds[k], flags) && r.error == DependingOption(option.name, ds[k]) &&
        forall j :: 0 <= j < k ==> IsSet(ds[j], flags))
  {
    var ds := ListOrEmpty(option.depends);
    var p := (j: nat) => j < |ds| && !IsSet(ds[j], flags) && option.name !in defaultValues;
    assert forall j :: 0 <= j < |ds| ==> (p(j) <==> (!IsSet(ds[j], flags) && option.name !in defaultValues));
    var k := FirstWhere(|ds|, p);
    if k.None? then Pass else Fail(DependingOption(option.name, ds[k.value]))
  }

  method ValidateDependingOptions(flags: map<string, Value>, option: FlagOption, defaultValues: set<string>)
    returns (r: Outcome<FlagError>)
    ensures r == DependsOutcome(flags, option, defaultValues)
  {
    if option.depends.None? {
      return Pass;
    }
    var ds := option.depends.value;
    for k := 0 to |ds|
      invariant forall j :: 0 <= j < k ==> IsSet(ds[j], flags) || option.name in defaultValues
    {
      if !IsSet(ds[k], flags) && option.name !in defaultValues {
        return Fail(DependingOption(option.name, ds[k]));
      }
    }
    return Pass;
  }

  /** Whether element `i` of a value is defined, reading it as an array; `None`
      when the read itself throws (`undefined[i]`, `null[i]`). */
  function ElementDefined(v: Value, i: nat): Option<bool>
  {
    match v
    case Undefined => None
    case Null => None
    case List(items) => Some(i < |items| && items[i] != Undefined)
    case Str(s) => Some(i < |s|)
    case Bool(_) => Some(false)
    case Num(_) => Some(false)
  }

  /** The check of argument slot `i` of the option stored under `name`. */
  function SlotOutcome(flags: map<string, Value>, option: FlagOption, name: string, i: nat): Outcome<FlagError>
    requires option.args.Some? && i < |option.args.value|
  {
    var args := option.args.value;
    if !args[i].requiredValue then Pass
    else if |args| > 1 then
      var e := ElementDefined(if name in flags then flags[name] else Undefined, i);
      if e.None? then Fail(ValueNotIndexable(option.name))
      else if e.value then Pass
      else Fail(MissingOptionValue(option.name))
    else if Defined(flags, name) then Pass
    else Fail(MissingOptionValue(option.name))
  }

  /** `validateRequiredValues`: the first required slot without a value. */
  function RequiredValuesOutcome(flags: map<string, Value>, option: FlagOption, name: string): (r: Outcome<FlagError>)
    ensures option.args.None? ==> r == Pass
    ensures option.args.Some? ==>
      (r.Pass? <==> forall i :: 0 <= i < |option.args.value| ==> SlotOutcome(flags, option, name, i).Pass?)
    ensures option.args.Some? && r.Fail? ==> exists k :: (0 <= k < |option.args.value| &&
      r == SlotOutcome(flags, option, name, k) && forall j :: 0 <= j < k ==> SlotOutcome(flags, option, name, j).Pass?)
    ensures option.args.Some? && |option.args.value| == 1 ==>
      r == if option.args.value[0].requiredValue && !Defined(flags, name) then Fail(MissingOptionValue(option.name)) else Pass
    ensures option.args.Some? && |option.args.value| > 1 && name in flags && flags[name].List? ==>
      (r.Pass? <==> forall i :: 0 <= i < |option.args.value| && option.args.value[i].requiredValue ==>
        i < |flags[name].items| && flags[name].items[i] != Undefined)
    ensures r.Fail? ==> r.error == MissingOptionValue(option.name) || r.error == ValueNotIndexable(option.name)
  {
    if option.args.None? then Pass
    else
      var args := option.args.value;
      var p := (i: nat) => i < |args| && SlotOutcome(flags, option, name, i).Fail?;
      assert forall i :: 0 <= i < |args| ==> (p(i) <==> SlotOutcome(flags, option, name, i).Fail?);
      var k := FirstWhere(|args|, p);
      assert |args| > 1 && name in flags && flags[name].List? ==>
        forall i :: 0 <= i < |args| ==> (SlotOutcome(flags, option, name, i).Pass? <==>
          (args[i].requiredValue ==> i < |flags[name].items| && flags[name].items[i] != Undefined));
      if k.None? then Pass else SlotOutcome(flags, option, name, k.value)
  }

  method ValidateRequiredValues(flags: map<string, Value>, option: FlagOption, name: string) returns (r: Outcome<FlagError>)
    ensures r == RequiredValuesOutcome(flags, option, name)
  {
    if option.args.None? {
      return Pass;
    }
    var args := option.args.value;
    var isArray := |args| > 1;
    for i := 0 to |args|
      invariant forall j :: 0 <= j < i ==> SlotOutcome(flags, option, name, j).Pass?
    {
      if !args[i].requiredValue {
        continue;
      }
      var hasValue: bool;
      if isArray {
        var v := if name in flags then flags[name] else Undefined;
        if v == Undefined || v == Null {
          assert SlotOutcome(flags, option, name, i) == Fail(ValueNotIndexable(option.name));
          return Fail(ValueNotIndexable(option.name));
        }
        hasValue := ElementDefined(v, i) == Some(true);
      } else {
        hasValue := Defined(flags, name);
      }
      if !hasValue {
        assert SlotOutcome(flags, option, name, i) == Fail(MissingOptionValue(option.name));
        return Fail(MissingOptionValue(option.name));
      }
    }
    return Pass;
  }

  /** `!!ctx.flags[flag]`: the record holds a truthy value under `flag` as
      written, without the camelCase conversion. */
  predicate RawTruthy(flag: string, flags: map<string, Value>)
  {
    flag in flags && Truthy(flags[flag])
  }

  /** The index `conflicts.find(...)` stops at: the first conflict whose raw
      name holds a truthy value. */
  function FirstRawTruthy(cs: seq<string>, flags: map<string, Value>): (r: Option<nat>)
    ensures r.None? <==> forall j :: 0 <= j < |cs| ==> !RawTruthy(cs[j], flags)
    ensures r.Some? ==> (r.value < |cs| && RawTruthy(cs[r.value], flags) &&
      forall j :: 0 <= j < r.value ==> !RawTruthy(cs[j], flags))
  {
    var p := (j: nat) => j < |cs| && RawTruthy(cs[j], flags);
    assert forall j :: 0 <= j < |cs| ==> (p(j) <==> RawTruthy(cs[j], flags));
    FirstWhere(|cs|, p)
  }

  /** `validateRequiredOptions` on one declared option: it is required, its camelCase
      key is absent, and no conflicting alternative exempts it. An own conflict
      counts only when the record holds a truthy value under the conflict's name
      as written, and `find` must return a truthy (non-empty) name; an option
      that lists this one among its conflicts exempts it only when the name is
      non-empty, for the same reason. */
  predicate MissingRequired(option: FlagOption, flags: map<string, Value>, options: ParsedOptions)
  {
    var cs := ListOrEmpty(option.conflicts);
    var own := FirstRawTruthy(cs, flags);
    var ownConflict := own.Some? && cs[own.value] != "";
    var listedBy := option.name != "" && exists k :: 0 <= k < |options| && option.name in ListOrEmpty(options[k].1.conflicts);
    option.required && ParamCaseToCamelCase(option.name) !in flags && !ownConflict && !listedBy
  }

  /** The first declared option that is missing although required. */
  function RequiredOptionsOutcome(flags: map<string, Value>, options: ParsedOptions, opts: ParseOptions): (r: Outcome<FlagError>)
    ensures r.Fail? ==> opts.flags.Some? && exists k :: (0 <= k < |opts.flags.value| &&
      r.error == MissingRequiredOption(opts.flags.value[k].name) && MissingRequired(opts.flags.value[k], flags, options) &&
      forall j :: 0 <= j < k ==> !MissingRequired(opts.flags.value[j], flags, options))
    ensures r.Pass? <==> (opts.flags.None? ||
      forall k :: 0 <= k < |opts.flags.value| ==> !MissingRequired(opts.flags.value[k], flags, options))
  {
    if opts.flags.None? then Pass
    else
      var schema := opts.flags.value;
      var p := (i: nat) => i < |schema| && MissingRequired(schema[i], flags, options);
      assert forall i :: 0 <= i < |schema| ==> (p(i) <==> MissingRequired(schema[i], flags, options));
      var k := FirstWhere(|schema|, p);
      if k.None? then Pass else Fail(MissingRequiredOption(schema[k.value].name))
  }

  /** The checks `validateRequiredOptions` makes on one declared option. */
  method IsMissingRequired(option: FlagOption, flags: map<string, Value>, options: ParsedOptions) returns (missing: bool)
    ensures missing == MissingRequired(option, flags, options)
  {
    if !option.required || ParamCaseToCamelCase(option.name) in flags {
      return false;
    }
    var conflicts := ListOrEmpty(option.conflicts);
    var j := 0;
    while j < |conflicts| && !RawTruthy(conflicts[j], flags)
      invariant j <= |conflicts|
      invariant forall m :: 0 <= m < j ==> !RawTruthy(conflicts[m], flags)
    {
      j := j + 1;
    }
    var hasConflict := if j < |conflicts| then conflicts[j] else "";
    assert FirstRawTruthy(conflicts, flags) == if j < |conflicts| then Some(j) else None;
    var k := 0;
    while k < |options| && option.name !in ListOrEmpty(options[k].1.conflicts)
      invariant k <= |options|
      invariant forall m :: 0 <= m < k ==> option.name !in ListOrEmpty(options[m].1.conflicts)
    {
      k := k + 1;
    }
    var listedBy := k < |options|;
    return hasConflict == "" && (option.name == "" || !listedBy);
  }

  method ValidateRequiredOptions(flags: map<string, Value>, options: ParsedOptions, opts: ParseOptions)
    returns (r: Outcome<FlagError>)
    ensures r == RequiredOptionsOutcome(flags, options, opts)
  {
    if opts.flags.None? || |opts.flags.value| == 0 {
      return Pass;
    }
    var schema := opts.flags.value;
    for i := 0 to |schema|
      invariant forall j :: 0 <= j < i ==> !MissingRequired(schema[j], flags, options)
    {
      var missing := IsMissingRequired(schema[i], flags, options);
      if missing {
        return Fail(MissingRequiredOption(schema[i].name));
      }
    }
    return Pass;
  }

  // ===========================================================================
  // validateFlags

  /** How the per-option loop ends: it runs through, stops at a standalone
      option, or throws. */
  datatype LoopEnd = Done | Standalone | Failed(error: FlagError)

  /** The checks on parsed option `i` in order: unknown option, standalone,
      conflicts, depends, required values. `None` when the option passes and
      the loop goes on to the next one. */
  function OptionStep(flags: map<string, Value>, defaultValues: set<string>, schema: seq<FlagOption>,
                      options: ParsedOptions, keyCount: nat, i: nat): (r: Option<LoopEnd>)
    requires i < |options|
    ensures r != Some(Done)
  {
    var (name, option) := options[i];
    if FindOption(schema, option.name).None? then Some(Failed(UnknownOption(name)))
    else
      var s := StandaloneOutcome(i, options, keyCount, defaultValues);
      if s.Err? then Some(Failed(s.error))
      else if s.value then Some(Standalone)
      else
        var c := ConflictOutcome(flags, option);
        if c.Fail? then Some(Failed(c.error))
        else
          var d := DependsOutcome(flags, option, defaultValues);
          if d.Fail? then Some(Failed(d.error))
          else
            var v := RequiredValuesOutcome(flags, option, name);
            if v.Fail? then Some(Failed(v.error)) else None
  }

  /** The step outcome of every parsed option, in map order. */
  function OptionSteps(flags: map<string, Value>, defaultValues: set<string>, schema: seq<FlagOption>,
                       options: ParsedOptions, keyCount: nat): (r: seq<Option<LoopEnd>>)
    ensures |r| == |options|
    ensures forall k :: 0 <= k < |options| ==> r[k] == OptionStep(flags, defaultValues, schema, options, keyCount, k)
  {
    seq(|options|, k requires 0 <= k < |options| => OptionStep(flags, defaultValues, schema, options, keyCount, k))
  }

  /** A loop over `steps` from index `i` that ends at the first step that stops it. */
  function FirstStop(steps: seq<Option<LoopEnd>>, i: nat): LoopEnd
    requires i <= |steps|
    decreases |steps| - i
  {
    if i == |steps| then Done
    else if steps[i].Some? then steps[i].value
    else FirstStop(steps, i + 1)
  }

  /** How the per-option loop of `validateFlags` ends. */
  function OptionChecks(flags: map<string, Value>, defaultValues: set<string>, schema: seq<FlagOption>,
                        options: ParsedOptions, keyCount: nat): LoopEnd
  {
    FirstStop(OptionSteps(flags, defaultValues, schema, options, keyCount), 0)
  }

  /** The context after validation and the outcome. */
  datatype Validation = Validation(flags: map<string, Value>, standalone: bool, outcome: Outcome<FlagError>)

  /** What `validateFlags` does to a context holding `flags0` and `standalone0`. */
  function Validate(flags0: map<string, Value>, standalone0: bool, opts: ParseOptions, options: ParsedOptions,
                    getDefault: FlagOption -> Value, applyValue: (FlagOption, Value) -> Value): (r: Validation)
    ensures standalone0 ==> r.standalone
    ensures r.outcome.Fail? ==> r.standalone == standalone0
    ensures forall key :: Defined(flags0, key) ==> key in r.flags && r.flags[key] == flags0[key]
  {
    if opts.flags.None? then Validation(flags0, standalone0, Pass)
    else
      var d := Defaults(flags0, opts, getDefault, applyValue);
      if |d.flags| == 0 && opts.allowEmpty then Validation(d.flags, standalone0, Pass)
      else
        match OptionChecks(d.flags, d.recorded, opts.flags.value, options, |d.flags|)
        case Failed(e) => Validation(d.flags, standalone0, Fail(e))
        case Standalone => Validation(d.flags, true, Pass)
        case Done =>
          if standalone0 then Validation(d.flags, standalone0, Pass)
          else Validation(d.flags, standalone0, RequiredOptionsOutcome(d.flags, options, opts))
  }

  /** The body of the per-option loop of `validateFlags` for parsed option `i`. */
  method CheckOption(flags: map<string, Value>, defaultValues: set<string>, schema: seq<FlagOption>,
                     options: ParsedOptions, keyCount: nat, i: nat)
    returns (r: Option<LoopEnd>)
    requires i < |options|
    ensures r == OptionStep(flags, defaultValues, schema, options, keyCount, i)
  {
    var (name, option) := options[i];
    var known := GetOption(schema, option.name);
    if known.None? {
      return Some(Failed(UnknownOption(name)));
    }
    var isStandaloneOption := ValidateStandaloneOption(i, options, keyCount, defaultValues);
    if isStandaloneOption.Err? {
      return Some(Failed(isStandaloneOption.error));
    }
    if isStandaloneOption.value {
      return Some(Standalone);
    }
    var c := ValidateConflictingOptions(flags, option);
    if c.Fail? {
      return Some(Failed(c.error));
    }
    var d := ValidateDependingOptions(flags, option, defaultValues);
    if d.Fail? {
      return Some(Failed(d.error));
    }
    var v := ValidateRequiredValues(flags, option, name);
    if v.Fail? {
      return Some(Failed(v.error));
    }
    return None;
  }

  /** The per-option loop of `validateFlags`, run over the parsed options in
      map order; it stops at the first unknown option, the first standalone
      option or the first check that throws. */
  method CheckOptions(flags: map<string, Value>, defaultValues: set<string>, schema: seq<FlagOption>,
                      options: ParsedOptions, keyCount: nat)
    returns (end: LoopEnd)
    ensures end == OptionChecks(flags, defaultValues, schema, options, keyCount)
  {
    ghost var steps := OptionSteps(flags, defaultValues, schema, options, keyCount);
    var i := 0;
    while i < |options|
      invariant 0 <= i <= |options|
      invariant FirstStop(steps, i) == FirstStop(steps, 0)
    {
      var step := CheckOption(flags, defaultValues, schema, options, keyCount, i);
      assert step == steps[i];
      if step.Some? {
        return step.value;
      }
      i := i + 1;
    }
    return Done;
  }

  /** Validates the parse context in place; the defaults stay injected even
      when a check then throws, and a standalone option marks the context. */
  method ValidateFlags(ctx: FlagsResult, opts: ParseOptions, options: ParsedOptions,
                       getDefault: FlagOption -> Value, applyValue: (FlagOption, Value) -> Value)
    returns (r: Outcome<FlagError>)
    modifies ctx
    ensures var v := Validate(old(ctx.flags), old(ctx.standalone), opts, options, getDefault, applyValue);
      ctx.flags == v.flags && ctx.standalone == v.standalone && r == v.outcome
  {
    if opts.flags.None? {
      return Pass;
    }
    var defaultValues := SetDefaultValues(ctx, opts, getDefault, applyValue);
    var keyCount := |ctx.flags|;
    if keyCount == 0 && opts.allowEmpty {
      return Pass;
    }
    var end := CheckOptions(ctx.flags, defaultValues, opts.flags.value, options, keyCount);
    if end.Failed? {
      return Fail(end.error);
    }
    if end.Standalone? {
      ctx.standalone := true;
      return Pass;
    }
    if ctx.standalone {
      return Pass;
    }
    r := ValidateRequiredOptions(ctx.flags, options, opts);
  }
}
