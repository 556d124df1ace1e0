/** Helpers of the flag parser: kebab-case to camelCase keys, option lookup by
    name or alias, flag spelling, the edit distance and the "did you mean"
    suggestions built on it. */
module FlagUtils {
  import opened Wrappers
  import opened FlagTypes

  // ---------------------------------------------------------------------------
  // paramCaseToCamelCase: every "-x" with x in a..z becomes "X"

  predicate IsLower(c: char) { 'a' <= c <= 'z' }

  function Upper(c: char): (u: char)
    requires IsLower(c)
    ensures 'A' <= u <= 'Z'
  {
    (c as int - 32) as char
  }

  /** True when `s` starts with a dash followed by a lower-case ASCII letter. */
  predicate StartsWithMatch(s: string)
  {
    |s| >= 2 && s[0] == '-' && IsLower(s[1])
  }

  /** No position of `s` holds a dash followed by a lower-case letter. */
  predicate NoMatch(s: string)
  {
    forall i :: 0 <= i < |s| ==> !StartsWithMatch(s[i..])
  }

  /** The global replacement of `/-([a-z])/g` by the upper-cased letter, scanning left to right. */
  function ParamCaseToCamelCase(s: string): (r: string)
    ensures |r| <= |s|
    decreases |s|
  {
    if |s| == 0 then []
    else if StartsWithMatch(s) then [Upper(s[1])] + ParamCaseToCamelCase(s[2..])
    else [s[0]] + ParamCaseToCamelCase(s[1..])
  }

  /** The first character of the result is the upper-cased letter of a leading
      match, and the input's first character otherwise. */
  lemma CamelCaseHead(s: string)
    requires |s| > 0
    ensures |ParamCaseToCamelCase(s)| > 0
    ensures ParamCaseToCamelCase(s)[0] == if StartsWithMatch(s) then Upper(s[1]) else s[0]
  {
  }

  /** A string without any dash is left unchanged. */
  lemma {:induction false} CamelCaseNoDash(s: string)
    requires forall i :: 0 <= i < |s| ==> s[i] != '-'
    ensures ParamCaseToCamelCase(s) == s
    decreases |s|
  {
    if |s| > 0 {
      assert !StartsWithMatch(s);
      CamelCaseNoDash(s[1..]);
    }
  }

  /** A string with no dash-letter pair is left unchanged. */
  lemma {:induction false} CamelCaseNoMatch(s: string)
    requires NoMatch(s)
    ensures ParamCaseToCamelCase(s) == s
    decreases |s|
  {
    if |s| > 0 {
      assert !StartsWithMatch(s[0..]);
      assert s[0..] == s;
      assert NoMatch(s[1..]) by {
        forall i | 0 <= i < |s[1..]| ensures !StartsWithMatch(s[1..][i..]) {
          assert s[1..][i..] == s[i + 1..];
        }
      }
      CamelCaseNoMatch(s[1..]);
    }
  }

  /** The result never holds a dash followed by a lower-case letter. */
  lemma {:induction false} CamelCaseLeavesNoMatch(s: string)
    ensures NoMatch(ParamCaseToCamelCase(s))
    decreases |s|
  {
    var r := ParamCaseToCamelCase(s);
    if |s| == 0 {
    } else {
      var rest := if StartsWithMatch(s) then s[2..] else s[1..];
      var tail := ParamCaseToCamelCase(rest);
      CamelCaseLeavesNoMatch(rest);
      assert r == [r[0]] + tail;
      forall i | 0 <= i < |r| ensures !StartsWithMatch(r[i..]) {
        if i == 0 {
          assert r[0..] == r;
          if |r| >= 2 && r[0] == '-' {
            CamelCaseHead(rest);
            assert r[1] == tail[0];
            assert !IsLower(r[1]);
          }
        } else {
          assert r[i..] == tail[i - 1..];
        }
      }
    }
  }

  /** A kebab-case name with one dash before a lower-case letter: the dash goes
      and the letter is upper-cased ("script-arg1" becomes "scriptArg1"). */
  lemma {:induction false} CamelCaseOneDash(a: string, c: char, b: string)
    requires forall i :: 0 <= i < |a| ==> a[i] != '-'
    requires forall i :: 0 <= i < |b| ==> b[i] != '-'
    requires IsLower(c)
    ensures ParamCaseToCamelCase(a + ['-', c] + b) == a + [Upper(c)] + b
    decreases |a|
  {
    var s := a + ['-', c] + b;
    if |a| == 0 {
      assert s == ['-', c] + b;
      assert StartsWithMatch(s);
      assert s[2..] == b;
      CamelCaseNoDash(b);
    } else {
      assert !StartsWithMatch(s);
      assert s[1..] == a[1..] + ['-', c] + b;
      CamelCaseOneDash(a[1..], c, b);
      assert a == [a[0]] + a[1..];
    }
  }

  /** Converting twice is converting once. */
  lemma CamelCaseIdempotent(s: string)
    ensures ParamCaseToCamelCase(ParamCaseToCamelCase(s)) == ParamCaseToCamelCase(s)
  {
    CamelCaseLeavesNoMatch(s);
    CamelCaseNoMatch(ParamCaseToCamelCase(s));
  }

  // ---------------------------------------------------------------------------
  // getOption / isOption

  /** `name` with all leading dashes removed. */
  function StripDashes(name: string): (r: string)
    ensures |r| <= |name| && r == name[|name| - |r|..]
    ensures |r| > 0 ==> r[0] != '-'
    ensures forall i :: 0 <= i < |name| - |r| ==> name[i] == '-'
  {
    if |name| > 0 && name[0] == '-' then StripDashes(name[1..]) else name
  }

  /** The option is called `name`, or lists it among its aliases. */
  predicate IsOption(option: FlagOption, name: string)
  {
    option.name == name || (option.aliases.Some? && name in option.aliases.value)
  }

  /** Index of the first option named (or aliased) `name`. */
  function FirstOptionIndex(flags: seq<FlagOption>, name: string): (r: Option<nat>)
    ensures r.None? <==> forall i :: 0 <= i < |flags| ==> !IsOption(flags[i], name)
    ensures r.Some? ==> r.value < |flags| && IsOption(flags[r.value], name)
    ensures r.Some? ==> forall j :: 0 <= j < r.value ==> !IsOption(flags[j], name)
  {
    if |flags| == 0 then None
    else if IsOption(flags[0], name) then Some(0)
    else
      var t := FirstOptionIndex(flags[1..], name);
      if t.None? then None else Some(t.value + 1)
  }

  /** The option `getOption(flags, name)` returns. */
  function FindOption(flags: seq<FlagOption>, name: string): (r: Option<FlagOption>)
    ensures r.None? <==> forall i :: 0 <= i < |flags| ==> !IsOption(flags[i], StripDashes(name))
    ensures r.Some? ==> exists k :: 0 <= k < |flags| && r.value == flags[k] && IsOption(flags[k], StripDashes(name))
  {
    var k := FirstOptionIndex(flags, StripDashes(name));
    if k.None? then None else Some(flags[k.value])
  }

  /** The `replace(/^-+/, "")` of `getOption`, one dash at a time. */
  method StripLeadingDashes(name: string) returns (n: string)
    ensures n == StripDashes(name)
  {
    n := name;
    while |n| > 0 && n[0] == '-'
      invariant StripDashes(n) == StripDashes(name)
    {
      n := n[1..];
    }
  }

  /** Strips leading dashes, then scans the options for the first with that name or alias. */
  method GetOption(flags: seq<FlagOption>, name: string) returns (r: Option<FlagOption>)
    ensures r == FindOption(flags, name)
    ensures r.None? <==> forall i :: 0 <= i < |flags| ==> !IsOption(flags[i], StripDashes(name))
  {
    var n := StripLeadingDashes(name);
    for i := 0 to |flags|
      invariant forall j :: 0 <= j < i ==> !IsOption(flags[j], n)
    {
      if IsOption(flags[i], n) {
        FirstOptionIndexUnique(flags, n, i);
        return Some(flags[i]);
      }
    }
    return None;
  }

  lemma {:induction false} FirstOptionIndexUnique(flags: seq<FlagOption>, name: string, i: nat)
    requires i < |flags| && IsOption(flags[i], name)
    requires forall j :: 0 <= j < i ==> !IsOption(flags[j], name)
    ensures FirstOptionIndex(flags, name) == Some(i)
  {
  }

  // ---------------------------------------------------------------------------
  // getFlag

  /** `name` spelled as a command-line flag: kept when it already starts with a
      dash, `--name` for longer names, `-n` for a single character. */
  function GetFlag(name: string): (r: string)
    ensures |r| > 0 && r[0] == '-'
    ensures StripDashes(r) == StripDashes(name)
    ensures |name| > 0 && name[0] == '-' ==> r == name
    ensures !(|name| > 0 && name[0] == '-') ==> r[|r| - |name|..] == name && |r| - |name| == (if |name| > 1 then 2 else 1)
  {
    if |name| > 0 && name[0] == '-' then name
    else if |name| > 1 then
      assert StripDashes("--" + name) == StripDashes(("--" + name)[1..]);
      assert ("--" + name)[1..] == "-" + name;
      assert ("-" + name)[1..] == name;
      "--" + name
    else
      assert ("-" + name)[1..] == name;
      "-" + name
  }

  /** Spelling an already spelled flag changes nothing. */
  lemma GetFlagIdempotent(name: string)
    ensures GetFlag(GetFlag(name)) == GetFlag(name)
  {
  }

  // ---------------------------------------------------------------------------
  // distance: unit-cost insert / delete / substitute edit distance

  function Min3(x: nat, y: nat, z: nat): nat
  {
    if x <= y && x <= z then x else if y <= z then y else z
  }

  /** The recurrence the distance matrix fills: the entry for the prefixes `a`
      and `b`, comparing their last characters. */
  function Lev(a: string, b: string): nat
    decreases |a| + |b|
  {
    if |a| == 0 then |b|
    else if |b| == 0 then |a|
    else
      var a', b' := a[..|a| - 1], b[..|b| - 1];
      if a[|a| - 1] == b[|b| - 1] then Lev(a', b')
      else 1 + Min3(Lev(a', b'), Lev(a, b'), Lev(a', b))
  }

  /** A string is at distance 0 from itself. */
  lemma {:induction false} LevSelf(a: string)
    ensures Lev(a, a) == 0
    decreases |a|
  {
    if |a| > 0 {
      LevSelf(a[..|a| - 1]);
    }
  }

  /** The distance is symmetric. */
  lemma {:induction false} LevSymmetric(a: string, b: string)
    ensures Lev(a, b) == Lev(b, a)
    decreases |a| + |b|
  {
    if |a| > 0 && |b| > 0 {
      var a', b' := a[..|a| - 1], b[..|b| - 1];
      LevSymmetric(a', b');
      LevSymmetric(a, b');
      LevSymmetric(a', b);
    }
  }

  /** The distance lies between the length difference and the longer length. */
  lemma {:induction false} LevBounds(a: string, b: string)
    ensures |a| - |b| <= Lev(a, b) && |b| - |a| <= Lev(a, b)
    ensures Lev(a, b) <= if |a| >= |b| then |a| else |b|
    decreases |a| + |b|
  {
    if |a| > 0 && |b| > 0 {
      var a', b' := a[..|a| - 1], b[..|b| - 1];
      LevBounds(a', b');
      LevBounds(a, b');
      LevBounds(a', b);
    }
  }

  /** Fills the `(|b| + 1) x (|a| + 1)` matrix row by row; `matrix[i, j]` holds the
      distance between the first `j` characters of `a` and the first `i` of `b`. */
  method Distance(a: string, b: string) returns (d: nat)
    ensures d == Lev(a, b)
  {
    if |a| == 0 {
      return |b|;
    }
    if |b| == 0 {
      return |a|;
    }
    var matrix := new nat[|b| + 1, |a| + 1];
    var i := 0;
    while i <= |b|
      invariant 0 <= i <= |b| + 1
      invariant forall r :: 0 <= r < i ==> matrix[r, 0] == r
    {
      matrix[i, 0] := i;
      i := i + 1;
    }
    var j := 0;
    while j <= |a|
      invariant 0 <= j <= |a| + 1
      invariant forall c :: 0 <= c < j ==> matrix[0, c] == c
      invariant forall r :: 1 <= r <= |b| ==> matrix[r, 0] == r
    {
      matrix[0, j] := j;
      j := j + 1;
    }
    assert forall c :: 0 <= c <= |a| ==> matrix[0, c] == Lev(a[..c], b[..0]);
    i := 1;
    while i <= |b|
      invariant 1 <= i <= |b| + 1
      invariant forall r, c :: 0 <= r < i && 0 <= c <= |a| ==> matrix[r, c] == Lev(a[..c], b[..r])
      invariant forall r :: i <= r <= |b| ==> matrix[r, 0] == r
    {
      FillRow(matrix, a, b, i);
      i := i + 1;
    }
    assert a[..|a|] == a && b[..|b|] == b;
    d := matrix[|b|, |a|];
  }

  /** Fills row `i` of the matrix from the row above it and its own first entry. */
  method FillRow(matrix: array2<nat>, a: string, b: string, i: nat)
    requires matrix.Length0 == |b| + 1 && matrix.Length1 == |a| + 1 && 1 <= i <= |b|
    requires forall r, c :: 0 <= r < i && 0 <= c <= |a| ==> matrix[r, c] == Lev(a[..c], b[..r])
    requires matrix[i, 0] == i
    modifies matrix
    ensures forall r, c :: 0 <= r <= i && 0 <= c <= |a| ==> matrix[r, c] == Lev(a[..c], b[..r])
    ensures forall r, c :: i < r <= |b| && 0 <= c <= |a| ==> matrix[r, c] == old(matrix[r, c])
  {
    assert matrix[i, 0] == Lev(a[..0], b[..i]);
    var j := 1;
    while j <= |a|
      invariant 1 <= j <= |a| + 1
      invariant forall r, c :: 0 <= r < i && 0 <= c <= |a| ==> matrix[r, c] == Lev(a[..c], b[..r])
      invariant forall c :: 0 <= c < j ==> matrix[i, c] == Lev(a[..c], b[..i])
      invariant forall r, c :: i < r <= |b| && 0 <= c <= |a| ==> matrix[r, c] == old(matrix[r, c])
    {
      LevStep(a, b, i, j);
      if b[i - 1] == a[j - 1] {
        matrix[i, j] := matrix[i - 1, j - 1];
      } else {
        matrix[i, j] := Min3(matrix[i - 1, j - 1] + 1, matrix[i, j - 1] + 1, matrix[i - 1, j] + 1);
      }
      j := j + 1;
    }
  }

  /** One step of the matrix recurrence, in terms of prefixes. */
  lemma LevStep(a: string, b: string, i: nat, j: nat)
    requires 1 <= i <= |b| && 1 <= j <= |a|
    ensures Lev(a[..j], b[..i]) ==
      if b[i - 1] == a[j - 1] then Lev(a[..j - 1], b[..i - 1])
      else Min3(Lev(a[..j - 1], b[..i - 1]) + 1, Lev(a[..j - 1], b[..i]) + 1, Lev(a[..j], b[..i - 1]) + 1)
  {
    assert a[..j][..j - 1] == a[..j - 1];
    assert b[..i][..i - 1] == b[..i - 1];
  }

  // ---------------------------------------------------------------------------
  // closest / didYouMean

  /** Index of the earliest candidate among the first `n` at minimal distance from `s`. */
  function EarliestMin(s: string, arr: seq<string>, n: nat): (k: nat)
    requires 1 <= n <= |arr|
    ensures k < n
    ensures forall j :: 0 <= j < n ==> Lev(s, arr[k]) <= Lev(s, arr[j])
    ensures forall j :: 0 <= j < k ==> Lev(s, arr[k]) < Lev(s, arr[j])
  {
    if n == 1 then 0
    else
      var k := EarliestMin(s, arr, n - 1);
      if Lev(s, arr[n - 1]) < Lev(s, arr[k]) then n - 1 else k
  }

  /** The candidate `closest` returns: nothing for an empty list, otherwise the
      first one at minimal distance. */
  function ClosestMatch(s: string, arr: seq<string>): (r: Option<string>)
    ensures r.None? <==> |arr| == 0
    ensures r.Some? ==> exists k :: (0 <= k < |arr| && r.value == arr[k] &&
      (forall j :: 0 <= j < |arr| ==> Lev(s, arr[k]) <= Lev(s, arr[j])) &&
      (forall j :: 0 <= j < k ==> Lev(s, arr[k]) < Lev(s, arr[j])))
  {
    if |arr| == 0 then None
    else
      var k := EarliestMin(s, arr, |arr|);
      assert arr[k] == arr[k];
      Some(arr[k])
  }

  /** Scans the candidates once; a strictly smaller distance replaces the current
      best, so the earliest candidate wins ties. */
  method Closest(s: string, arr: seq<string>) returns (r: Option<string>)
    ensures r == ClosestMatch(s, arr)
  {
    var minDistance := Infinity;
    var minIndex := 0;
    var i := 0;
    while i < |arr|
      invariant 0 <= i <= |arr|
      invariant i == 0 ==> minDistance == Infinity && minIndex == 0
      invariant i > 0 ==> minIndex == EarliestMin(s, arr, i) && minDistance == Finite(Lev(s, arr[minIndex]))
    {
      var dist := Distance(s, arr[i]);
      if Less(Finite(dist), minDistance) {
        minDistance := Finite(dist);
        minIndex := i;
      }
      i := i + 1;
    }
    if minIndex < |arr| {
      r := Some(arr[minIndex]);
    } else {
      r := None;
    }
  }

  /** `<message> "<match>"?` for a truthy closest match, and the empty string
      otherwise: the quoted candidate is the earliest one at minimal distance. */
  function DidYouMean(message: string, input: string, candidates: seq<string>): (r: string)
    ensures r == "" <==> ClosestMatch(input, candidates).None? || ClosestMatch(input, candidates).value == ""
    ensures r != "" ==> exists k :: (0 <= k < |candidates| && candidates[k] != "" &&
      r == message + " \"" + candidates[k] + "\"?" &&
      (forall j :: 0 <= j < |candidates| ==> Lev(input, candidates[k]) <= Lev(input, candidates[j])) &&
      (forall j :: 0 <= j < k ==> Lev(input, candidates[k]) < Lev(input, candidates[j])))
  {
    var m := ClosestMatch(input, candidates);
    if m.Some? && m.value != "" then message + " \"" + m.value + "\"?" else ""
  }

  /** Every name and alias of `option`, the name first. */
  function OptionNames(option: FlagOption): (r: seq<string>)
  {
    [option.name] + ListOrEmpty(option.aliases)
  }

  /** `isOption` recognises exactly the option's name and its aliases, the
      same names the suggestion for a misspelt option draws on. */
  lemma IsOptionNames(option: FlagOption, name: string)
    ensures IsOption(option, name) <==> name in OptionNames(option)
  {
  }

  /** The names and aliases of all options, in declaration order, each spelled as a flag. */
  function CandidateFlags(options: seq<FlagOption>): (r: seq<string>)
    ensures |options| > 0 ==> |r| > 0
    ensures forall i :: 0 <= i < |r| ==> |r[i]| > 0 && r[i][0] == '-'
  {
    if |options| == 0 then []
    else
      var names := OptionNames(options[0]);
      seq(|names|, i requires 0 <= i < |names| => GetFlag(names[i])) + CandidateFlags(options[1..])
  }

  /** Every name and alias of every option is among the candidates. */
  lemma {:induction false} CandidateFlagsComplete(options: seq<FlagOption>, k: nat, name: string)
    requires k < |options| && name in OptionNames(options[k])
    ensures GetFlag(name) in CandidateFlags(options)
  {
    var names := OptionNames(options[0]);
    var head := seq(|names|, i requires 0 <= i < |names| => GetFlag(names[i]));
    assert CandidateFlags(options) == head + CandidateFlags(options[1..]);
    if k == 0 {
      var i :| 0 <= i < |names| && names[i] == name;
      assert head[i] == GetFlag(name);
    } else {
      assert options[1..][k - 1] == options[k];
      CandidateFlagsComplete(options[1..], k - 1, name);
    }
  }

  /** Every candidate is the flag spelling of a name or alias of some option. */
  lemma {:induction false} CandidateFlagsSound(options: seq<FlagOption>, f: string)
    requires f in CandidateFlags(options)
    ensures exists k, n :: 0 <= k < |options| && n in OptionNames(options[k]) && f == GetFlag(n)
  {
    assert |options| > 0;
    var names := OptionNames(options[0]);
    var head := seq(|names|, i requires 0 <= i < |names| => GetFlag(names[i]));
    assert CandidateFlags(options) == head + CandidateFlags(options[1..]);
    if f in head {
      var i :| 0 <= i < |head| && head[i] == f;
      assert names[i] in OptionNames(options[0]);
    } else {
      CandidateFlagsSound(options[1..], f);
      var k, n :| 0 <= k < |options[1..]| && n in OptionNames(options[1..][k]) && f == GetFlag(n);
      assert options[1..][k] == options[k + 1];
    }
  }

  /** The candidates follow declaration order: those of a concatenation of
      option lists are the candidates of the first list, then of the second. */
  lemma {:induction false} CandidateFlagsAppend(a: seq<FlagOption>, b: seq<FlagOption>)
    ensures CandidateFlags(a + b) == CandidateFlags(a) + CandidateFlags(b)
    decreases |a|
  {
    if |a| == 0 {
      assert a + b == b;
    } else {
      assert (a + b)[0] == a[0];
      assert (a + b)[1..] == a[1..] + b;
      CandidateFlagsAppend(a[1..], b);
      var names := OptionNames(a[0]);
      var head := seq(|names|, i requires 0 <= i < |names| => GetFlag(names[i]));
      calc {
        CandidateFlags(a + b);
        head + CandidateFlags(a[1..] + b);
        head + (CandidateFlags(a[1..]) + CandidateFlags(b));
        (head + CandidateFlags(a[1..])) + CandidateFlags(b);
        CandidateFlags(a) + CandidateFlags(b);
      }
    }
  }

  /** The suggestion for an unknown option: the option's flag spelling compared
      against every option's flag spellings; with options declared, it always
      names the closest of them, which is the flag of a declared name or alias. */
  function DidYouMeanOption(option: string, options: seq<FlagOption>): (r: string)
    ensures r == "" <==> |options| == 0
    ensures |options| > 0 ==>
      r == " Did you mean option" + " \"" + ClosestMatch(GetFlag(option), CandidateFlags(options)).value + "\"?"
    ensures |options| > 0 ==> exists k, n :: (0 <= k < |options| && n in OptionNames(options[k]) &&
      r == " Did you mean option" + " \"" + GetFlag(n) + "\"?")
  {
    var candidates := CandidateFlags(options);
    var m := ClosestMatch(GetFlag(option), candidates);
    assert m.Some? ==> m.value in candidates;
    if m.Some? then CandidateFlagsSound(options, m.value); DidYouMean(" Did you mean option", GetFlag(option), candidates)
    else DidYouMean(" Did you mean option", GetFlag(option), candidates)
  }

  /** The suggestion for an unknown type name: the closest of the known types,
      when there is one and it is not empty. */
  function DidYouMeanType(typeName: string, types: seq<string>): (r: string)
    ensures (forall i :: 0 <= i < |types| ==> types[i] != "") ==> (r == "" <==> |types| == 0)
    ensures r != "" ==> r == " Did you mean type" + " \"" + ClosestMatch(typeName, types).value + "\"?"
  {
    var m := ClosestMatch(typeName, types);
    assert m.Some? ==> m.value in types;
    DidYouMean(" Did you mean type", typeName, types)
  }
}
