/** The string logic of the bash completion script generator
    (command/completions/bash-completions-generator.ts): function names made
    of the command path, the per-command completion block with its word list
    and its `case` arms, and the pre-order walk over the command tree. */
module BashCompletions {
  import opened Wrappers
  import opened JsStrings

  /** A declared argument of an option or a command: only its completion action is read. */
  datatype Arg = Arg(action: string)

  /** A command option: its flags text (such as `-h, --help`) and its arguments. */
  datatype CmdOption = CmdOption(flags: string, args: seq<Arg>)

  /** A command of the tree. `id` stands for the object's identity, which the
      generator compares to skip a command registered as its own child. */
  datatype Command = Command(id: nat, name: string, options: seq<CmdOption>, arguments: seq<Arg>,
                             commands: seq<Command>)

  // ===========================================================================
  // replaceSpecialChars

  /** An ASCII letter or digit. */
  predicate IsAsciiAlnum(c: char)
  {
    ('a' <= c <= 'z') || ('A' <= c <= 'Z') || ('0' <= c <= '9')
  }

  /** A character allowed in a bash function name as the generator builds it. */
  predicate IsNameChar(c: char)
  {
    IsAsciiAlnum(c) || c == '_'
  }

  /** `replaceSpecialChars`: every character other than an ASCII letter or
      digit becomes `_`. */
  function ReplaceSpecialChars(s: string): (r: string)
    ensures |r| == |s|
    ensures forall i :: 0 <= i < |s| ==> (IsAsciiAlnum(s[i]) ==> r[i] == s[i]) && (!IsAsciiAlnum(s[i]) ==> r[i] == '_')
    ensures forall i :: 0 <= i < |r| ==> IsNameChar(r[i])
  {
    seq(|s|, i requires 0 <= i < |s| => if IsAsciiAlnum(s[i]) then s[i] else '_')
  }

  /** Replacing twice is replacing once. */
  lemma ReplaceSpecialCharsIdempotent(s: string)
    ensures ReplaceSpecialChars(ReplaceSpecialChars(s)) == ReplaceSpecialChars(s)
  {
  }

  /** A string of letters, digits and underscores is left as it is. */
  lemma ReplaceKeepsNames(s: string)
    requires forall i :: 0 <= i < |s| ==> IsNameChar(s[i])
    ensures ReplaceSpecialChars(s) == s
  {
  }

  // ===========================================================================
  // paths

  /** The path of a command from its parent's path: the parent's path, a
      space and the name, or the name alone under an empty parent path. */
  function ChildPath(parentPath: string, name: string): (r: string)
    ensures parentPath == "" ==> r == name
    ensures parentPath != "" ==> r == parentPath + [' '] + name
  {
    (if parentPath != "" then parentPath + " " else "") + name
  }

  /** The words of a path. */
  function Words(path: string): seq<string>
  {
    Split(path, ' ')
  }

  /** A split has one piece more than the string has separators. */
  lemma {:induction false} SplitCount(s: string, sep: char)
    ensures |Split(s, sep)| == multiset(s)[sep] + 1
    decreases |s|
  {
    var i := IndexOf(s, sep);
    if i == -1 {
      assert sep !in multiset(s);
    } else {
      SplitCount(s[i + 1..], sep);
      MultisetAround(s, i);
      assert sep !in multiset(s[..i]);
    }
  }

  /** The characters of a string around one position. */
  lemma MultisetAround(s: string, i: nat)
    requires i < |s|
    ensures multiset(s) == multiset(s[..i]) + multiset{s[i]} + multiset(s[i + 1..])
  {
    assert s == s[..i] + [s[i]] + s[i + 1..];
  }

  /** A name without spaces adds exactly one word to a non-empty path, and
      is the only word of a path under an empty one. */
  lemma ChildPathWords(parentPath: string, name: string)
    requires ' ' !in name
    ensures parentPath != "" ==> |Words(ChildPath(parentPath, name))| == |Words(parentPath)| + 1
    ensures parentPath == "" ==> Words(ChildPath(parentPath, name)) == [name]
  {
    SplitWithout(name, ' ');
    if parentPath != "" {
      var p := ChildPath(parentPath, name);
      SplitCount(p, ' ');
      SplitCount(parentPath, ' ');
      assert multiset(p) == multiset(parentPath) + multiset{' '} + multiset(name);
      assert ' ' !in multiset(name);
    }
  }

  /** `completionsPath`: empty for a path of one word, otherwise a space and
      the path without its first word. */
  function CompletionsPath(path: string): (r: string)
    ensures r == "" <==> ' ' !in path
    ensures r != "" ==> r[0] == ' '
  {
    if IndexOf(path, ' ') != -1 then " " + Join(Words(path)[1..], " ") else ""
  }

  /** The completions path is empty exactly when the path has no space, and
      otherwise it is what follows the path's first word. */
  lemma CompletionsPathIsTail(path: string)
    ensures CompletionsPath(path) == "" <==> ' ' !in path
    ensures ' ' in path ==> path == Words(path)[0] + CompletionsPath(path) && ' ' !in Words(path)[0]
  {
    if ' ' in path {
      var parts := Words(path);
      SplitCount(path, ' ');
      JoinSplit(path, ' ');
      JoinCons(parts, " ");
      var tail := Join(parts[1..], " ");
      assert CompletionsPath(path) == " " + tail;
      AppendAssoc(parts[0], " ", tail);
    }
  }

  /** Concatenating one more part of a list appends that part. */
  lemma ConcatStep(parts: seq<string>, i: nat)
    requires i < |parts|
    ensures Concat(parts[..i + 1]) == Concat(parts[..i]) + parts[i]
  {
    ConcatAppend(parts[..i], [parts[i]]);
    TakeSnoc(parts, i);
    assert Concat([parts[i]]) == parts[i] + Concat([]);
  }

  /** Appending is associative. */
  lemma AppendAssoc<T>(a: seq<T>, b: seq<T>, c: seq<T>)
    ensures a + (b + c) == (a + b) + c
  {
  }

  /** A prefix one longer is the prefix and the next element. */
  lemma TakeSnoc<T>(s: seq<T>, i: nat)
    requires i < |s|
    ensures s[..i + 1] == s[..i] + [s[i]]
  {
  }

  /** The prefix as long as the sequence is the sequence. */
  lemma TakeAll<T>(s: seq<T>)
    ensures s[..|s|] == s
  {
  }

  /** Joining two or more parts puts the separator after the first. */
  lemma JoinCons(parts: seq<string>, sep: string)
    requires |parts| >= 2
    ensures Join(parts, sep) == parts[0] + sep + Join(parts[1..], sep)
  {
  }

  // ===========================================================================
  // one command's block

  /** The trimmed, comma-separated flags of an option. */
  function FlagNames(o: CmdOption): (r: seq<string>)
    ensures |r| == |Split(o.flags, ',')|
    ensures forall j :: 0 <= j < |r| ==> r[j] == Trim(Split(o.flags, ',')[j])
  {
    var parts := Split(o.flags, ',');
    seq(|parts|, j requires 0 <= j < |parts| => Trim(parts[j]))
  }

  /** Membership in a flattened list is membership in one of the lists. */
  lemma {:induction false} FlattenMembership<T>(xss: seq<seq<T>>, x: T)
    ensures x in Flatten(xss) <==> exists i :: 0 <= i < |xss| && x in xss[i]
  {
    if |xss| > 0 {
      FlattenMembership(xss[1..], x);
      if x in xss[0] {
        assert x in Flatten(xss);
      }
      if exists i :: 0 <= i < |xss| && x in xss[i] {
        var i :| 0 <= i < |xss| && x in xss[i];
        if i > 0 {
          assert x in xss[1..][i - 1];
        }
      }
    }
  }

  /** The words a command completes to: the flags of its options in order,
      then the names of its sub-commands. */
  function CompletionWords(c: Command): (r: seq<string>)
    ensures |r| >= |c.commands|
    ensures forall k :: 0 <= k < |c.commands| ==> r[|r| - |c.commands| + k] == c.commands[k].name
  {
    Flatten(seq(|c.options|, i requires 0 <= i < |c.options| => FlagNames(c.options[i]))) +
    seq(|c.commands|, k requires 0 <= k < |c.commands| => c.commands[k].name)
  }

  /** A word is offered exactly when it is a trimmed flag of some option or
      the name of some sub-command. */
  lemma CompletionWordsMembership(c: Command, w: string)
    ensures w in CompletionWords(c) <==>
      (exists i :: 0 <= i < |c.options| && w in FlagNames(c.options[i])) ||
      (exists k :: 0 <= k < |c.commands| && c.commands[k].name == w)
  {
    var flagLists := seq(|c.options|, i requires 0 <= i < |c.options| => FlagNames(c.options[i]));
    var names := seq(|c.commands|, k requires 0 <= k < |c.commands| => c.commands[k].name);
    assert CompletionWords(c) == Flatten(flagLists) + names;
    FlattenMembership(flagLists, w);
    if exists i :: 0 <= i < |c.options| && w in FlagNames(c.options[i]) {
      var i :| 0 <= i < |c.options| && w in FlagNames(c.options[i]);
      assert w in flagLists[i];
    }
    if exists k :: 0 <= k < |c.commands| && c.commands[k].name == w {
      var k :| 0 <= k < |c.commands| && c.commands[k].name == w;
      assert names[k] == w;
    }
  }

  /** The completion call for a list of declared arguments: only the first
      one's action is used, and there is none without arguments. `rootName`
      is the name of the command the script is generated for. */
  function CompletionCall(rootName: string, args: seq<Arg>, completionsPath: string): (r: string)
    ensures r == "" <==> |args| == 0
  {
    if |args| == 0 then ""
    else "$(" + rootName + " completions complete " + args[0].action + completionsPath + ")"
  }

  /** Only the first argument is looked at, by an option's arm and by the
      positional completion alike. */
  lemma OnlyFirstArgument(rootName: string, args1: seq<Arg>, args2: seq<Arg>, completionsPath: string)
    requires |args1| > 0 && |args2| > 0 && args1[0].action == args2[0].action
    ensures CompletionCall(rootName, args1, completionsPath) == CompletionCall(rootName, args2, completionsPath)
    ensures PositionalCompletion(rootName, args1, completionsPath) == PositionalCompletion(rootName, args2, completionsPath)
  {
  }

  /** The `case` arm of one option: its trimmed flags joined with `|`, and
      the completion call of its arguments. */
  function CaseArm(rootName: string, o: CmdOption, completionsPath: string): (r: string)
    ensures |o.args| == 0 ==> r == "\n      " + Join(FlagNames(o), "|") + ") opts=\"\" ;;"
  {
    "\n      " + Join(FlagNames(o), "|") + ") opts=\"" + CompletionCall(rootName, o.args, completionsPath) + "\" ;;"
  }

  /** The arms of a list of options: one per option, in the options' order. */
  function CaseArmList(rootName: string, options: seq<CmdOption>, completionsPath: string): (r: seq<string>)
    ensures |r| == |options|
    ensures forall i :: 0 <= i < |options| ==> r[i] == CaseArm(rootName, options[i], completionsPath)
  {
    seq(|options|, i requires 0 <= i < |options| => CaseArm(rootName, options[i], completionsPath))
  }

  /** The opening and closing lines of the `case` statement. */
  const CaseHead: string := "case \"${prev}\" in"
  const CaseTail: string := "\n    esac"

  /** The `case` statement over the previous word: empty for a command
      without options. */
  function CaseBlock(rootName: string, options: seq<CmdOption>, completionsPath: string): (r: string)
    ensures |options| == 0 <==> r == ""
  {
    if |options| == 0 then ""
    else CaseHead + Concat(CaseArmList(rootName, options, completionsPath)) + CaseTail
  }

  /** The positional completion: the first argument's completion call after a
      space, or nothing without arguments. */
  function PositionalCompletion(rootName: string, arguments: seq<Arg>, completionsPath: string): (r: string)
    ensures r == "" <==> |arguments| == 0
  {
    if |arguments| == 0 then "" else " " + CompletionCall(rootName, arguments, completionsPath)
  }

  /** A command visited by the walk: the command, its path and its depth index. */
  datatype Visit = Visit(command: Command, path: string, index: nat)

  /** The text of a completion function, from its parts: the function name
      suffix, the word list, the positional completion, the depth index and
      the `case` statement. */
  function BlockText(name: string, words: string, positional: string, index: nat, caseBlock: string): (r: string)
    ensures StartsWith(r, "  __" + name + "() {")
  {
    var head := "  __" + name + "() {\n    opts=\"";
    assert StartsWith(head, "  __" + name + "() {");
    head + words + positional +
    "\"\n    if [[ ${cur} == -* || ${COMP_CWORD} -eq " + NatToString(index) + " ]] ; then\n      return 0\n    fi\n    " +
    caseBlock + "\n  }"
  }

  /** The completion function of one visited command. */
  function Block(rootName: string, v: Visit): (r: string)
    ensures StartsWith(r, "  __" + ReplaceSpecialChars(v.path) + "() {")
  {
    var cpath := CompletionsPath(v.path);
    BlockText(ReplaceSpecialChars(v.path), Join(CompletionWords(v.command), " "),
              PositionalCompletion(rootName, v.command.arguments, cpath), v.index,
              CaseBlock(rootName, v.command.options, cpath))
  }

  /** The `case` statement as `generateCommandCompletions` builds it, one
      arm appended per option. */
  method CaseStatement(rootName: string, options: seq<CmdOption>, completionsPath: string) returns (opts: string)
    ensures opts == CaseBlock(rootName, options, completionsPath)
  {
    opts := "";
    if |options| > 0 {
      ghost var arms := CaseArmList(rootName, options, completionsPath);
      opts := CaseHead;
      for i := 0 to |options|
        invariant opts == CaseHead + Concat(arms[..i])
      {
        ConcatStep(arms, i);
        AppendAssoc(CaseHead, Concat(arms[..i]), arms[i]);
        opts := opts + CaseArm(rootName, options[i], completionsPath);
      }
      TakeAll(arms);
      opts := opts + CaseTail;
    }
  }

  /** `generateCommandCompletions`: the completion function of one command. */
  method CommandCompletions(rootName: string, command: Command, path: string, index: nat) returns (block: string)
    ensures block == Block(rootName, Visit(command, path, index))
  {
    var completionsPath := CompletionsPath(path);
    var opts := CaseStatement(rootName, command.options, completionsPath);
    var commandArgs := PositionalCompletion(rootName, command.arguments, completionsPath);
    block := BlockText(ReplaceSpecialChars(path), Join(CompletionWords(command), " "), commandArgs, index, opts);
  }

  // ===========================================================================
  // the walk over the command tree

  /** `generateCompletions(command, path, index)`: the command's block, then
      the output for each child other than the command itself. */
  function GenerateCompletions(rootName: string, c: Command, path: string, index: nat): (r: string)
    ensures StartsWith(r, Section(rootName, Visit(c, ChildPath(path, c.name), index)))
    decreases c, |c.commands| + 1
  {
    var p := ChildPath(path, c.name);
    Section(rootName, Visit(c, p, index)) + ChildCompletions(rootName, c, 0, p, index + 1)
  }

  /** The children's output from the `from`-th child on, joined without separator. */
  function ChildCompletions(rootName: string, c: Command, from: nat, path: string, index: nat): string
    decreases c, |c.commands| - from
  {
    if from >= |c.commands| then ""
    else
      (if c.commands[from].id == c.id then "" else GenerateCompletions(rootName, c.commands[from], path, index)) +
      ChildCompletions(rootName, c, from + 1, path, index)
  }

  /** The commands the walk visits, in order: the command first, then the
      visits below each child other than itself, in the children's order. */
  function Visits(c: Command, path: string, index: nat): (r: seq<Visit>)
    ensures |r| > 0 && r[0] == Visit(c, ChildPath(path, c.name), index)
    decreases c, |c.commands| + 1
  {
    [Visit(c, ChildPath(path, c.name), index)] + ChildVisits(c, 0, ChildPath(path, c.name), index + 1)
  }

  /** The visits below the children from the `from`-th on. */
  function ChildVisits(c: Command, from: nat, path: string, index: nat): seq<Visit>
    decreases c, |c.commands| - from
  {
    if from >= |c.commands| then []
    else
      (if c.commands[from].id == c.id then [] else Visits(c.commands[from], path, index)) +
      ChildVisits(c, from + 1, path, index)
  }

  /** A visit's part of the output: its block and a blank line. */
  function Section(rootName: string, v: Visit): string
  {
    Block(rootName, v) + "\n\n"
  }

  /** The generated output for a list of visits: their sections in order. */
  function Render(rootName: string, vs: seq<Visit>): string
  {
    ConcatMap(v => Section(rootName, v), vs)
  }

  /** The concatenation of `f` over a list. */
  function ConcatMap<T>(f: T -> string, xs: seq<T>): string
  {
    if |xs| == 0 then "" else f(xs[0]) + ConcatMap(f, xs[1..])
  }

  /** `ConcatMap` distributes over appended lists. */
  lemma {:induction false} ConcatMapAppend<T>(f: T -> string, a: seq<T>, b: seq<T>)
    ensures ConcatMap(f, a + b) == ConcatMap(f, a) + ConcatMap(f, b)
    decreases |a|
  {
    if |a| > 0 {
      ConcatMapAppend(f, a[1..], b);
      assert (a + b)[1..] == a[1..] + b;
      AppendAssoc(f(a[0]), ConcatMap(f, a[1..]), ConcatMap(f, b));
    } else {
      assert a + b == b;
    }
  }

  /** `ConcatMap` over one element is that element's text. */
  lemma ConcatMapSingle<T>(f: T -> string, x: T)
    ensures ConcatMap(f, [x]) == f(x)
  {
    assert [x][1..] == [];
  }

  /** `ConcatMap` over a list with a first element. */
  lemma ConcatMapCons<T>(f: T -> string, x: T, xs: seq<T>)
    ensures ConcatMap(f, [x] + xs) == f(x) + ConcatMap(f, xs)
  {
    ConcatMapAppend(f, [x], xs);
    ConcatMapSingle(f, x);
  }

  /** The generated text is the blocks of the pre-order walk, each followed
      by a blank line. */
  lemma {:induction false} GeneratePreOrder(rootName: string, c: Command, path: string, index: nat)
    ensures GenerateCompletions(rootName, c, path, index) == Render(rootName, Visits(c, path, index))
    decreases c, |c.commands| + 1
  {
    var p := ChildPath(path, c.name);
    ChildPreOrder(rootName, c, 0, p, index + 1);
    ConcatMapCons(v => Section(rootName, v), Visit(c, p, index), ChildVisits(c, 0, p, index + 1));
  }

  /** The children's part of `GeneratePreOrder`. */
  lemma {:induction false} ChildPreOrder(rootName: string, c: Command, from: nat, path: string, index: nat)
    ensures ChildCompletions(rootName, c, from, path, index) == Render(rootName, ChildVisits(c, from, path, index))
    decreases c, |c.commands| - from
  {
    if from < |c.commands| {
      var child := c.commands[from];
      var here := if child.id == c.id then [] else Visits(child, path, index);
      if child.id != c.id {
        GeneratePreOrder(rootName, child, path, index);
      }
      ChildPreOrder(rootName, c, from + 1, path, index);
      ConcatMapAppend(v => Section(rootName, v), here, ChildVisits(c, from + 1, path, index));
    }
  }

  /** Command names that are non-empty and free of spaces, throughout the tree. */
  predicate WellNamed(c: Command)
  {
    c.name != "" && ' ' !in c.name && forall k :: 0 <= k < |c.commands| ==> WellNamed(c.commands[k])
  }

  /** How a walk is entered: at the root with an empty path and index 1, or
      below a path with one word fewer than the index. */
  predicate DepthMatches(path: string, index: nat)
  {
    (path == "" && index == 1) || (path != "" && |Words(path)| + 1 == index)
  }

  /** Every visited command's path has as many words as its index: the index
      grows by one per level, and each level adds one name to the path. */
  lemma {:induction false} VisitDepth(c: Command, path: string, index: nat)
    requires WellNamed(c) && DepthMatches(path, index)
    ensures forall v :: v in Visits(c, path, index) ==> v.path != "" && |Words(v.path)| == v.index
    decreases c, |c.commands| + 1
  {
    var p := ChildPath(path, c.name);
    ChildPathWords(path, c.name);
    ChildVisitDepth(c, 0, p, index + 1);
  }

  /** The children's part of `VisitDepth`. */
  lemma {:induction false} ChildVisitDepth(c: Command, from: nat, path: string, index: nat)
    requires WellNamed(c) && path != "" && |Words(path)| + 1 == index
    ensures forall v :: v in ChildVisits(c, from, path, index) ==> v.path != "" && |Words(v.path)| == v.index
    decreases c, |c.commands| - from
  {
    if from < |c.commands| {
      if c.commands[from].id != c.id {
        VisitDepth(c.commands[from], path, index);
      }
      ChildVisitDepth(c, from + 1, path, index);
    }
  }

  /** The generation entry point starts at the root with an empty path and
      index 1, so each block's index is its command's depth in words. */
  lemma RootWalkDepth(c: Command)
    requires WellNamed(c)
    ensures Visits(c, "", 1)[0].path == c.name
    ensures forall v :: v in Visits(c, "", 1) ==> |Words(v.path)| == v.index
  {
    VisitDepth(c, "", 1);
  }
}
