/** The declared-option records and parsed values that the flag validator and
    its helpers work on (the `IFlagOptions` / `IFlagArgument` shapes). */
module FlagTypes {
  import opened Wrappers

  /** A parsed JavaScript value as it can sit in the flags record. */
  datatype Value =
    | Undefined
    | Null
    | Bool(b: bool)
    | Str(s: string)
    | Num(n: int)
    | List(items: seq<Value>)

  /** JavaScript truthiness (`!!v`); arrays are truthy even when empty. */
  predicate Truthy(v: Value)
  {
    match v
    case Undefined => false
    case Null => false
    case Bool(b) => b
    case Str(s) => s != ""
    case Num(n) => n != 0
    case List(_) => true
  }

  /** One argument slot of an option (`<value>` is required, `[value]` is not). */
  datatype FlagArgument = FlagArgument(requiredValue: bool)

  /** A declared option. `default` is `Undefined` when no default is declared;
      `hasValueHandler` says whether a `value` post-processing callback is set. */
  datatype FlagOption = FlagOption(
    name: string,
    aliases: Option<seq<string>>,
    standalone: bool,
    required: bool,
    conflicts: Option<seq<string>>,
    depends: Option<seq<string>>,
    args: Option<seq<FlagArgument>>,
    default: Value,
    hasValueHandler: bool
  )

  /** Names listed in an optional list (`option.conflicts ?? []`). */
  function ListOrEmpty(l: Option<seq<string>>): seq<string>
  {
    if l.Some? then l.value else []
  }
}
