/** `ParsePaimonBenchmarkCliArgsImpl` of benchmark/benchmark_suite.cpp: takes the program's own options
    out of argv, in place. */
module ArgvCompaction {
  import opened Records
  import opened CliParsing

  /** The options in the order in which they are tried. */
  datatype Name = SourceDataFile | SourceTablePath | PkColumns | ExtraOption

  /** The texts of the option names. */
  datatype Names = Names(sourceDataFile: string, sourceTablePath: string, pkColumns: string, extraOption: string)

  function TextOf(ns: Names, n: Name): string {
    match n
    case SourceDataFile => ns.sourceDataFile
    case SourceTablePath => ns.sourceTablePath
    case PkColumns => ns.pkColumns
    case ExtraOption => ns.extraOption
  }

  const ACTUAL :=
    Names("--paimon_source_data_file", "--paimon_source_table_path", "--paimon_pk_columns", "--paimon_option")

  datatype Options =
    Options(sourceDataFile: string, sourceTablePath: string, pkColumns: seq<string>, extra: seq<Setting>)

  const DEFAULTS := Options("", "", [], [])

  /** `ConsumeCliOption`: the value behind `name=`. */
  function Consume(arg: string, name: string): (r: Option<string>) {
    if name + "=" <= arg then Some(arg[|name|+1..]) else None
  }

  /** What an option's value does to the options. */
  function Apply(n: Name, value: string, o: Options): Result<Options> {
    match n
    case SourceDataFile => Ok(o.(sourceDataFile := value))
    case SourceTablePath => Ok(o.(sourceTablePath := value))
    case PkColumns =>
      var columns := ParseColumns(value);
      if columns.Err? then Err(columns.problem) else Ok(o.(pkColumns := columns.value))
    case ExtraOption =>
      var settings := ParseOptions(value);
      if settings.Err? then Err(settings.problem) else Ok(o.(extra := o.extra + settings.value))
  }

  /** How the argument at the head is taken: as `name=value`, as `name` with the next argument, as a
      `name` without a value, or not at all. */
  datatype Match = Inline(value: string) | Separate(value: string) | Missing | NoMatch

  function MatchOne(args: seq<string>, name: string): Match
    requires args != []
  {
    var inline := Consume(args[0], name);
    if inline.Some? then Inline(inline.value)
    else if args[0] != name then NoMatch
    else if |args| == 1 then Missing
    else Separate(args[1])
  }

  /** The first option that takes the head of `args`. */
  function Taken(ns: Names, args: seq<string>): (Name, Match)
    requires args != []
  {
    if MatchOne(args, ns.sourceDataFile) != NoMatch then (SourceDataFile, MatchOne(args, ns.sourceDataFile))
    else if MatchOne(args, ns.sourceTablePath) != NoMatch then (SourceTablePath, MatchOne(args, ns.sourceTablePath))
    else if MatchOne(args, ns.pkColumns) != NoMatch then (PkColumns, MatchOne(args, ns.pkColumns))
    else (ExtraOption, MatchOne(args, ns.extraOption))
  }

  /** What parsing gives: the options and the arguments left over. */
  datatype Outcome = Outcome(options: Options, rest: seq<string>)

  function Prepended(head: seq<string>, r: Result<Outcome>): Result<Outcome> {
    if r.Err? then r else Ok(r.value.(rest := head + r.value.rest))
  }

  function ParseArgs(ns: Names, args: seq<string>, o: Options): Result<Outcome>
    decreases |args|
  {
    if args == [] then Ok(Outcome(o, []))
    else
      var (name, m) := Taken(ns, args);
      match m
      case NoMatch => Prepended([args[0]], ParseArgs(ns, args[1..], o))
      case Missing => Err(MissingValue)
      case Inline(value) =>
        var o' := Apply(name, value, o);
        if o'.Err? then Err(o'.problem) else ParseArgs(ns, args[1..], o'.value)
      case Separate(value) =>
        var o' := Apply(name, value, o);
        if o'.Err? then Err(o'.problem) else ParseArgs(ns, args[2..], o'.value)
  }

  /** The strings of an argv region. */
  function Strings(a: seq<Option<string>>): (r: seq<string>)
    requires forall i :: 0 <= i < |a| ==> a[i].Some?
    ensures |r| == |a| && forall i :: 0 <= i < |a| ==> a[i] == Some(r[i])
  {
    seq(|a|, i requires 0 <= i < |a| => a[i].value)
  }

  /** What an attempt on the argument at `index` gives. */
  ghost predicate Attempted(n: Name, m: Match, index: int, o: Options, r: Result<bool>, index': int, o': Options) {
    match m
    case NoMatch => r == Ok(false) && index' == index && o' == o
    case Missing => r == Err(MissingValue)
    case Inline(value) => Applied(Apply(n, value, o), r, o') && (r.Ok? ==> index' == index)
    case Separate(value) => Applied(Apply(n, value, o), r, o') && (r.Ok? ==> index' == index + 1)
  }

  ghost predicate Applied(a: Result<Options>, r: Result<bool>, o': Options) {
    if a.Err? then r == Err(a.problem) else r == Ok(true) && o' == a.value
  }

  /** `ParseStringOptionArg` and its siblings for one option. */
  method ParseOptionArg(argv: array<Option<string>>, argc: int, name: string, n: Name, index: int, o: Options)
    returns (r: Result<bool>, index': int, o': Options)
    requires 0 < index < argc < argv.Length && forall i :: 0 <= i < argc ==> argv[i].Some?
    ensures Attempted(n, MatchOne(Strings(argv[index..argc]), name), index, o, r, index', o')
  {
    ghost var args := Strings(argv[index..argc]);
    assert |args| == argc - index && args[0] == argv[index].value;
    index', o' := index, o;
    var arg := argv[index].value;
    var value := Consume(arg, name);
    if value.None? {
      if arg != name {
        return Ok(false), index', o';
      }
      if index' + 1 >= argc {
        return Err(MissingValue), index', o';
      }
      index' := index' + 1;
      value := argv[index'];
      assert args[1] == value.value;
    }
    var applied := ApplyOption(n, value.value, o);
    if applied.Err? {
      return Err(applied.problem), index', o';
    }
    return Ok(true), index', applied.value;
  }

  method ApplyOption(n: Name, value: string, o: Options) returns (r: Result<Options>)
    ensures r == Apply(n, value, o)
  {
    match n
    case SourceDataFile => return Ok(o.(sourceDataFile := value));
    case SourceTablePath => return Ok(o.(sourceTablePath := value));
    case PkColumns =>
      var columns := ParseCommaSeparatedColumns(value);
      return if columns.Err? then Err(columns.problem) else Ok(o.(pkColumns := columns.value));
    case ExtraOption =>
      var settings := ParseDelimitedOptions(value);
      return if settings.Err? then Err(settings.problem) else Ok(o.(extra := o.extra + settings.value));
  }

  /** The four attempts on one argument. */
  method ParseArg(argv: array<Option<string>>, argc: int, ns: Names, index: int, o: Options)
    returns (r: Result<bool>, index': int, o': Options)
    requires 0 < index < argc < argv.Length && forall i :: 0 <= i < argc ==> argv[i].Some?
    ensures var (n, m) := Taken(ns, Strings(argv[index..argc])); Attempted(n, m, index, o, r, index', o')
  {
    r, index', o' := ParseOptionArg(argv, argc, ns.sourceDataFile, SourceDataFile, index, o);
    if r != Ok(false) { return; }
    r, index', o' := ParseOptionArg(argv, argc, ns.sourceTablePath, SourceTablePath, index, o);
    if r != Ok(false) { return; }
    r, index', o' := ParseOptionArg(argv, argc, ns.pkColumns, PkColumns, index, o);
    if r != Ok(false) { return; }
    r, index', o' := ParseOptionArg(argv, argc, ns.extraOption, ExtraOption, index, o);
  }

  /** The loop: `all` are the arguments, `kept` those written back, and the rest of argv from `index`
      on has not been written to. */
  ghost predicate Compacting(now: seq<Option<string>>, was: seq<Option<string>>, argc: int, index: int, write: int,
                             kept: seq<string>) {
    && |now| == |was| && 1 <= write <= index <= argc < |was| && |kept| == write - 1
    && (forall i :: 0 <= i < argc ==> was[i].Some?)
    && now[0] == was[0] && now[index..] == was[index..]
    && (forall i :: 1 <= i < write ==> now[i] == Some(kept[i-1]))
    && (forall i :: 0 <= i < argc ==> now[i].Some?)
  }

  lemma SameTail(now: seq<Option<string>>, was: seq<Option<string>>, argc: int, index: int, write: int,
                 kept: seq<string>)
    requires Compacting(now, was, argc, index, write, kept) && index < argc
    ensures now[index..argc] == was[index..argc] && now[index] == was[index]
  {
    assert now[index..argc] == now[index..][..argc - index];
    assert was[index..argc] == was[index..][..argc - index];
    assert now[index..][0] == was[index..][0];
  }

  lemma WriteBack(now: seq<Option<string>>, was: seq<Option<string>>, argc: int, index: int, write: int,
                  kept: seq<string>)
    requires Compacting(now, was, argc, index, write, kept) && index < argc
    ensures Compacting(now[write := now[index]], was, argc, index + 1, write + 1, kept + [now[index].value])
  {
    var next := now[write := now[index]];
    assert next[index+1..] == now[index..][1..];
    assert was[index+1..] == was[index..][1..];
  }

  lemma Skip(now: seq<Option<string>>, was: seq<Option<string>>, argc: int, index: int, write: int, kept: seq<string>,
             index': int)
    requires Compacting(now, was, argc, index, write, kept) && index <= index' <= argc
    ensures Compacting(now, was, argc, index', write, kept)
  {
    assert now[index'..] == now[index..][index' - index..];
    assert was[index'..] == was[index..][index' - index..];
  }

  /** What is still to parse, behind `kept`, makes up the result for the whole. */
  ghost predicate Remains(ns: Names, args: seq<string>, o: Options, kept: seq<string>, whole: Result<Outcome>) {
    Prepended(kept, ParseArgs(ns, args, o)) == whole
  }

  /** The step of `ParseArgs` that an attempt stands for. */
  lemma StepRemains(ns: Names, args: seq<string>, o: Options, kept: seq<string>, whole: Result<Outcome>,
                    index: int, r: Result<bool>, index': int, o': Options)
    requires args != [] && Remains(ns, args, o, kept, whole)
    requires var (n, m) := Taken(ns, args); Attempted(n, m, index, o, r, index', o')
    ensures r.Err? ==> whole == Err(r.problem)
    ensures r == Ok(true) ==>
      index <= index' < index + |args| && Remains(ns, args[index' - index + 1..], o', kept, whole)
    ensures r == Ok(false) ==> index' == index && Remains(ns, args[1..], o', kept + [args[0]], whole)
  {
    var (n, m) := Taken(ns, args);
    if m.NoMatch? { PrependedTwice(kept, [args[0]], ParseArgs(ns, args[1..], o)); }
  }

  /** One turn of the loop. */
  method CompactStep(argv: array<Option<string>>, argc: int, ns: Names, index: int, write: int, o: Options,
                     ghost was: seq<Option<string>>, ghost kept: seq<string>, ghost whole: Result<Outcome>)
    returns (r: Result<bool>, index': int, write': int, o': Options, ghost kept': seq<string>)
    requires Compacting(argv[..], was, argc, index, write, kept) && index < argc
    requires Remains(ns, Strings(was[index..argc]), o, kept, whole)
    modifies argv
    ensures r.Err? ==> whole == Err(r.problem)
    ensures r.Ok? ==> index < index' && Compacting(argv[..], was, argc, index', write', kept')
    ensures r.Ok? ==> Remains(ns, Strings(was[index'..argc]), o', kept', whole)
  {
    SameTail(argv[..], was, argc, index, write, kept);
    ghost var args := Strings(was[index..argc]);
    assert argv[index..argc] == was[index..argc];
    write', kept' := write, kept;
    r, index', o' := ParseArg(argv, argc, ns, index, o);
    StepRemains(ns, args, o, kept, whole, index, r, index', o');
    if r.Err? {
      return;
    }
    TailFrom(was, argc, index, index' + 1);
    if r.value {
      Skip(argv[..], was, argc, index, write, kept, index' + 1);
    } else {
      WriteBack(argv[..], was, argc, index, write, kept);
      assert args[0] == argv[index].value;
      kept' := kept + [args[0]];
      argv[write] := argv[index];
      write' := write + 1;
    }
    index' := index' + 1;
  }

  /** The arguments behind the program's name. */
  function Arguments(argv: seq<Option<string>>, argc: int): (r: seq<string>)
    requires 0 <= argc <= |argv| && forall i :: 0 <= i < argc ==> argv[i].Some?
  {
    if argc == 0 then [] else Strings(argv[1..argc])
  }

  /** Takes the options out of argv. On success argv holds its first entry, the arguments that are no
      options in their order, and null. The null stands within the first `argc + 1` entries exactly if argc is
      not 0; without a program name argc becomes 1 and the null is written behind the terminator. */
  method CompactArgv(argv: array<Option<string>>, argc: int, ns: Names) returns (r: Result<Options>, argc': int)
    requires 0 <= argc < argv.Length && argv.Length >= 2 && forall i :: 0 <= i < argc ==> argv[i].Some?
    modifies argv
    ensures var parsed := ParseArgs(ns, Arguments(old(argv[..]), argc), DEFAULTS);
      && (parsed.Err? ==> r == Err(parsed.problem) && argc' == argc)
      && (parsed.Ok? ==> r == Ok(parsed.value.options) && argc' == |parsed.value.rest| + 1 < argv.Length
                         && argv[0] == old(argv[0]) && argv[argc'] == None
                         && forall i :: 1 <= i < argc' ==> argv[i] == Some(parsed.value.rest[i-1]))
    ensures argc' <= argc <==> argc != 0
  {
    if argc == 0 {
      argv[1] := None;
      return Ok(DEFAULTS), 1;
    }
    ghost var was := argv[..];
    ghost var whole := ParseArgs(ns, Strings(was[1..argc]), DEFAULTS);
    assert argv[1..argc] == was[1..argc];
    ghost var kept: seq<string> := [];
    var o, write, index := DEFAULTS, 1, 1;
    PrependedNone(whole);
    while index < argc
      invariant Compacting(argv[..], was, argc, index, write, kept)
      invariant Remains(ns, Strings(was[index..argc]), o, kept, whole)
      decreases argc - index
    {
      var parsed;
      parsed, index, write, o, kept := CompactStep(argv, argc, ns, index, write, o, was, kept, whole);
      if parsed.Err? {
        return Err(parsed.problem), argc;
      }
    }
    AllParsed(ns, Strings(was[index..argc]), o, kept, whole);
    argv[write] := None;
    argc' := write;
    r := Ok(o);
  }

  lemma AllParsed(ns: Names, args: seq<string>, o: Options, kept: seq<string>, whole: Result<Outcome>)
    requires args == [] && Remains(ns, args, o, kept, whole)
    ensures whole == Ok(Outcome(o, kept))
  {
    assert kept + [] == kept;
  }

  lemma TailFrom(was: seq<Option<string>>, argc: int, index: int, next: int)
    requires 0 <= index <= next <= argc <= |was| && forall i :: 0 <= i < argc ==> was[i].Some?
    ensures Strings(was[index..argc])[next - index..] == Strings(was[next..argc])
  {
  }

  lemma PrependedTwice(a: seq<string>, b: seq<string>, r: Result<Outcome>)
    ensures Prepended(a, Prepended(b, r)) == Prepended(a + b, r)
  {
    if r.Ok? { assert a + (b + r.value.rest) == a + b + r.value.rest; }
  }

  lemma PrependedNone(r: Result<Outcome>)
    ensures Prepended([], r) == r
  {
    if r.Ok? { assert [] + r.value.rest == r.value.rest; }
  }

  /** The names differ and hold no `=`. */
  ghost predicate NamesDiffer(ns: Names) {
    && (forall n :: Free(TextOf(ns, n), '='))
    && (forall n, k :: TextOf(ns, n) == TextOf(ns, k) ==> n == k)
  }

  ghost predicate Named(ns: Names, i: int) { true }

  /** `NamesDiffer`, kept out of the way of proofs that do not mention `Named`. */
  ghost predicate NamesOk(ns: Names) {
    forall i {:trigger Named(ns, i)} :: Named(ns, i) ==> NamesDiffer(ns)
  }

  lemma ActualNamesOk()
    ensures NamesDiffer(ACTUAL) && NamesOk(ACTUAL)
  {
    forall n ensures Free(TextOf(ACTUAL, n), '=') {
      match n case SourceDataFile => case SourceTablePath => case PkColumns => case ExtraOption =>
    }
    assert |ACTUAL.sourceDataFile| == 25 && |ACTUAL.sourceTablePath| == 26;
    assert |ACTUAL.pkColumns| == 19 && |ACTUAL.extraOption| == 15;
  }

  /** The text before the first `=` is the name. */
  lemma SameName(name: string, value: string, other: string, rest: string)
    requires Free(name, '=') && Free(other, '=') && name + ['='] + value == other + ['='] + rest
    ensures name == other
  {
    var arg := name + ['='] + value;
    FindAt(name, '=', value);
    FindAt(other, '=', rest);
    assert name == arg[..|name|] && other == arg[..|other|];
  }

  lemma NameFound(arg: string, name: string)
    ensures Consume(arg, name).Some? ==> arg == name + ['='] + Consume(arg, name).value
    ensures Consume(arg, name).Some? ==> !Free(arg, '=')
  {
    if name + "=" <= arg {
      assert arg[..|name|+1] == name + "=";
      assert arg[|name|] == '=';
    }
  }

  lemma NameAndValue(name: string, value: string)
    ensures Consume(name + "=" + value, name) == Some(value) && !Free(name + "=" + value, '=')
  {
    var arg := name + "=" + value;
    assert arg[|name|] == '=' && arg[..|name|+1] == name + "=" && arg[|name|+1..] == value;
  }

  /** An argument `name=value` belongs to no other name. */
  lemma InlineMatch(name: string, value: string, other: string, post: seq<string>)
    requires Free(name, '=') && Free(other, '=')
    ensures MatchOne([name + "=" + value] + post, other) == if other == name then Inline(value) else NoMatch
  {
    var arg := name + "=" + value;
    NameAndValue(name, value);
    NameFound(arg, other);
    if Consume(arg, other).Some? {
      assert arg == name + ['='] + value;
      SameName(name, value, other, Consume(arg, other).value);
    }
  }

  lemma SeparateMatch(name: string, value: string, other: string, post: seq<string>)
    requires Free(name, '=') && Free(other, '=')
    ensures MatchOne([name, value] + post, other) == if other == name then Separate(value) else NoMatch
  {
    NameFound(name, other);
    assert ([name, value] + post)[0] == name && ([name, value] + post)[1] == value;
  }

  lemma PairTaken(ns: Names, n: Name, value: string, post: seq<string>)
    requires NamesOk(ns)
    ensures Taken(ns, [TextOf(ns, n), value] + post) == (n, Separate(value))
    ensures Taken(ns, [TextOf(ns, n) + "=" + value] + post) == (n, Inline(value))
  {
    var name := TextOf(ns, n);
    assert Named(ns, 0);
    forall k: Name
      ensures MatchOne([name, value] + post, TextOf(ns, k)) == if k == n then Separate(value) else NoMatch
      ensures MatchOne([name + "=" + value] + post, TextOf(ns, k)) == if k == n then Inline(value) else NoMatch
    {
      SeparateMatch(name, value, TextOf(ns, k), post);
      InlineMatch(name, value, TextOf(ns, k), post);
    }
    assert TextOf(ns, SourceDataFile) == ns.sourceDataFile && TextOf(ns, SourceTablePath) == ns.sourceTablePath;
    assert TextOf(ns, PkColumns) == ns.pkColumns && TextOf(ns, ExtraOption) == ns.extraOption;
  }

  /** At the head, `name value` and `name=value` mean the same. */
  lemma PairIsInline(ns: Names, n: Name, value: string, post: seq<string>, o: Options)
    requires NamesOk(ns)
    ensures ParseArgs(ns, [TextOf(ns, n), value] + post, o) == ParseArgs(ns, [TextOf(ns, n) + "=" + value] + post, o)
  {
    PairTaken(ns, n, value, post);
    var a, b := [TextOf(ns, n), value] + post, [TextOf(ns, n) + "=" + value] + post;
    assert a[2..] == post && b[1..] == post;
  }

  /** What an option at the head does, name by name: it sets its own field, and the extra options add up. */
  lemma HeadOption(value: string, post: seq<string>, o: Options)
    ensures ParseArgs(ACTUAL, ["--paimon_source_data_file=" + value] + post, o) ==
      ParseArgs(ACTUAL, post, Options(value, o.sourceTablePath, o.pkColumns, o.extra))
    ensures ParseArgs(ACTUAL, ["--paimon_source_table_path=" + value] + post, o) ==
      ParseArgs(ACTUAL, post, Options(o.sourceDataFile, value, o.pkColumns, o.extra))
    ensures var columns := ParseColumns(value);
      ParseArgs(ACTUAL, ["--paimon_pk_columns=" + value] + post, o) ==
        if columns.Err? then Err(columns.problem)
        else ParseArgs(ACTUAL, post, Options(o.sourceDataFile, o.sourceTablePath, columns.value, o.extra))
    ensures var settings := ParseOptions(value);
      ParseArgs(ACTUAL, ["--paimon_option=" + value] + post, o) ==
        if settings.Err? then Err(settings.problem)
        else
          ParseArgs(ACTUAL, post,
                    Options(o.sourceDataFile, o.sourceTablePath, o.pkColumns, o.extra + settings.value))
  {
    HeadIs(SourceDataFile, "--paimon_source_data_file=", value, post, o);
    HeadIs(SourceTablePath, "--paimon_source_table_path=", value, post, o);
    HeadIs(PkColumns, "--paimon_pk_columns=", value, post, o);
    HeadIs(ExtraOption, "--paimon_option=", value, post, o);
  }

  lemma HeadIs(n: Name, text: string, value: string, post: seq<string>, o: Options)
    requires TextOf(ACTUAL, n) + "=" == text
    ensures ParseArgs(ACTUAL, [text + value] + post, o) ==
      var o' := Apply(n, value, o);
      if o'.Err? then Err(o'.problem) else ParseArgs(ACTUAL, post, o'.value)
  {
    ActualNamesOk();
    PairTaken(ACTUAL, n, value, post);
    assert ([text + value] + post)[1..] == post;
  }

  /** One option alone sets its own field and leaves the others at their defaults. */
  lemma OneOption(value: string)
    ensures ParseArgs(ACTUAL, ["--paimon_source_data_file=" + value], DEFAULTS) ==
      Ok(Outcome(Options(value, "", [], []), []))
    ensures ParseArgs(ACTUAL, ["--paimon_source_table_path=" + value], DEFAULTS) ==
      Ok(Outcome(Options("", value, [], []), []))
    ensures ParseColumns(value).Ok? ==>
      ParseArgs(ACTUAL, ["--paimon_pk_columns=" + value], DEFAULTS) ==
        Ok(Outcome(Options("", "", ParseColumns(value).value, []), []))
    ensures ParseOptions(value).Ok? ==>
      ParseArgs(ACTUAL, ["--paimon_option=" + value], DEFAULTS) ==
        Ok(Outcome(Options("", "", [], ParseOptions(value).value), []))
  {
    HeadOption(value, [], DEFAULTS);
    assert ["--paimon_source_data_file=" + value] + [] == ["--paimon_source_data_file=" + value];
    assert ["--paimon_source_table_path=" + value] + [] == ["--paimon_source_table_path=" + value];
    assert ["--paimon_pk_columns=" + value] + [] == ["--paimon_pk_columns=" + value];
    assert ["--paimon_option=" + value] + [] == ["--paimon_option=" + value];
    if ParseOptions(value).Ok? { assert [] + ParseOptions(value).value == ParseOptions(value).value; }
  }

  /** An argument that is none of the options. */
  predicate Foreign(arg: string) {
    && arg != "--paimon_source_data_file" && !("--paimon_source_data_file=" <= arg)
    && arg != "--paimon_source_table_path" && !("--paimon_source_table_path=" <= arg)
    && arg != "--paimon_pk_columns" && !("--paimon_pk_columns=" <= arg)
    && arg != "--paimon_option" && !("--paimon_option=" <= arg)
  }

  lemma ForeignMatch(args: seq<string>)
    requires args != [] && Foreign(args[0])
    ensures Taken(ACTUAL, args).1 == NoMatch
  {
    assert ACTUAL.sourceDataFile + "=" == "--paimon_source_data_file=";
    assert ACTUAL.sourceTablePath + "=" == "--paimon_source_table_path=";
    assert ACTUAL.pkColumns + "=" == "--paimon_pk_columns=";
    assert ACTUAL.extraOption + "=" == "--paimon_option=";
  }

  /** Arguments that are no options are all left over, in order. */
  lemma {:induction false} ForeignStay(args: seq<string>, o: Options)
    requires forall i :: 0 <= i < |args| ==> Foreign(args[i])
    ensures ParseArgs(ACTUAL, args, o) == Ok(Outcome(o, args))
    decreases |args|
  {
    if args != [] {
      ForeignMatch(args);
      ForeignStay(args[1..], o);
      assert [args[0]] + args[1..] == args;
    }
  }

  /** An option at the end without its value is an error. */
  lemma NoValue(n: Name, o: Options)
    ensures ParseArgs(ACTUAL, [TextOf(ACTUAL, n)], o) == Err(MissingValue)
  {
    ActualNamesOk();
    assert Named(ACTUAL, 0);
    forall k: Name ensures MatchOne([TextOf(ACTUAL, n)], TextOf(ACTUAL, k)) == if k == n then Missing else NoMatch {
      NameFound(TextOf(ACTUAL, n), TextOf(ACTUAL, k));
    }
    assert TextOf(ACTUAL, SourceDataFile) == ACTUAL.sourceDataFile;
    assert TextOf(ACTUAL, SourceTablePath) == ACTUAL.sourceTablePath;
    assert TextOf(ACTUAL, PkColumns) == ACTUAL.pkColumns && TextOf(ACTUAL, ExtraOption) == ACTUAL.extraOption;
  }

  /** Any number of extra options, one behind the other. */
  function ExtraArgs(values: seq<string>): seq<string> {
    if values == [] then [] else ["--paimon_option=" + values[0]] + ExtraArgs(values[1..])
  }

  /** Their settings in order. */
  function ExtraSettings(values: seq<string>): seq<Setting>
    requires forall v :: v in values ==> ParseOptions(v).Ok?
  {
    if values == [] then [] else ParseOptions(values[0]).value + ExtraSettings(values[1..])
  }

  /** Repeated extra options add up. */
  lemma {:induction false} ExtrasAdd(values: seq<string>, o: Options)
    requires forall v :: v in values ==> ParseOptions(v).Ok?
    ensures ParseArgs(ACTUAL, ExtraArgs(values), o) ==
      Ok(Outcome(Options(o.sourceDataFile, o.sourceTablePath, o.pkColumns, o.extra + ExtraSettings(values)), []))
    decreases |values|
  {
    if values == [] {
      assert o.extra + [] == o.extra;
    } else {
      var more := ParseOptions(values[0]).value;
      HeadOption(values[0], ExtraArgs(values[1..]), o);
      ExtrasAdd(values[1..], Options(o.sourceDataFile, o.sourceTablePath, o.pkColumns, o.extra + more));
      assert o.extra + more + ExtraSettings(values[1..]) == o.extra + (more + ExtraSettings(values[1..]));
    }
  }

  /** The parser looks at position `k` of `args` as an argument of its own, not as an option's value. */
  ghost predicate Reached(ns: Names, args: seq<string>, k: nat)
    decreases |args|
  {
    k == 0 || (args != [] && var m := Taken(ns, args).1;
      if m.Separate? then k >= 2 && |args| >= 2 && Reached(ns, args[2..], k - 2) else Reached(ns, args[1..], k - 1))
  }

  /** `args` with the pair at position `k` written as one argument. */
  function Rewritten(args: seq<string>, k: nat): seq<string>
    requires k + 1 < |args|
  {
    args[..k] + [args[k] + "=" + args[k+1]] + args[k+2..]
  }

  lemma SameMatch(a: seq<string>, b: seq<string>, name: string)
    requires |a| > 1 && |b| > 1 && a[0] == b[0]
    ensures MatchOne(a, name) == MatchOne(b, name) || (MatchOne(a, name).Separate? && MatchOne(b, name).Separate?)
    ensures a[1] == b[1] ==> MatchOne(a, name) == MatchOne(b, name)
  {
  }

  lemma SameTaken(ns: Names, a: seq<string>, b: seq<string>)
    requires |a| > 1 && |b| > 1 && a[0] == b[0] && (a[1] == b[1] || !Taken(ns, a).1.Separate?)
    ensures Taken(ns, b) == Taken(ns, a)
  {
    SameMatch(a, b, ns.sourceDataFile);
    SameMatch(a, b, ns.sourceTablePath);
    SameMatch(a, b, ns.pkColumns);
    SameMatch(a, b, ns.extraOption);
  }

  lemma RewrittenTails(args: seq<string>, k: nat)
    requires k + 1 < |args| && k > 0
    ensures var r := Rewritten(args, k);
      && |r| > 1 && r[0] == args[0] && r[1..] == Rewritten(args[1..], k - 1)
      && (k >= 2 ==> r[1] == args[1] && r[2..] == Rewritten(args[2..], k - 2))
  {
  }

  /** One step of the parser, given how the head is taken. */
  function Stepped(ns: Names, args: seq<string>, name: Name, m: Match, o: Options): Result<Outcome>
    requires args != [] && (m.Separate? ==> |args| > 1)
  {
    match m
    case NoMatch => Prepended([args[0]], ParseArgs(ns, args[1..], o))
    case Missing => Err(MissingValue)
    case Inline(value) =>
      var o' := Apply(name, value, o);
      if o'.Err? then Err(o'.problem) else ParseArgs(ns, args[1..], o'.value)
    case Separate(value) =>
      var o' := Apply(name, value, o);
      if o'.Err? then Err(o'.problem) else ParseArgs(ns, args[2..], o'.value)
  }

  lemma StepIs(ns: Names, args: seq<string>, o: Options)
    requires args != []
    ensures Taken(ns, args).1.Separate? ==> |args| > 1
    ensures ParseArgs(ns, args, o) == Stepped(ns, args, Taken(ns, args).0, Taken(ns, args).1, o)
  {
  }

  lemma ReachedStep(ns: Names, args: seq<string>, k: nat)
    requires k > 0 && Reached(ns, args, k) && args != []
    ensures if Taken(ns, args).1.Separate? then k >= 2 && |args| >= 2 && Reached(ns, args[2..], k - 2)
            else Reached(ns, args[1..], k - 1)
  {
  }

  /** The options behind one step of the parser, where it goes on. */
  function Stepping(name: Name, m: Match, o: Options): Result<Options> {
    if m.Inline? || m.Separate? then Apply(name, m.value, o) else if m.Missing? then Err(MissingValue) else Ok(o)
  }

  lemma SameStep(ns: Names, a: seq<string>, b: seq<string>, o: Options)
    requires |a| > 1 && |b| > 1 && a[0] == b[0] && Taken(ns, a) == Taken(ns, b)
    requires var next := Stepping(Taken(ns, a).0, Taken(ns, a).1, o);
      var skip := if Taken(ns, a).1.Separate? then 2 else 1;
      next.Ok? ==> ParseArgs(ns, a[skip..], next.value) == ParseArgs(ns, b[skip..], next.value)
    ensures ParseArgs(ns, a, o) == ParseArgs(ns, b, o)
  {
    StepIs(ns, a, o);
    StepIs(ns, b, o);
  }

  lemma PairFirst(ns: Names, args: seq<string>, n: Name, o: Options)
    requires NamesOk(ns) && |args| > 1 && args[0] == TextOf(ns, n)
    ensures ParseArgs(ns, Rewritten(args, 0), o) == ParseArgs(ns, args, o)
  {
    PairIsInline(ns, n, args[1], args[2..], o);
    assert args == [args[0], args[1]] + args[2..];
    assert Rewritten(args, 0) == [args[0] + "=" + args[1]] + args[2..];
  }

  /** Anywhere on the command line, an option and its value may be written as one argument: the options
      and the remaining arguments stay the same. */
  lemma {:induction false} PairAnywhere(ns: Names, args: seq<string>, k: nat, n: Name, o: Options)
    requires NamesOk(ns) && k + 1 < |args| && Reached(ns, args, k) && args[k] == TextOf(ns, n)
    ensures ParseArgs(ns, Rewritten(args, k), o) == ParseArgs(ns, args, o)
    decreases |args|
  {
    if k == 0 {
      PairFirst(ns, args, n, o);
    } else {
      ReachedStep(ns, args, k);
      RewrittenTails(args, k);
      SameTaken(ns, args, Rewritten(args, k));
      var m := Taken(ns, args).1;
      var next, skip := Stepping(Taken(ns, args).0, m, o), if m.Separate? then 2 else 1;
      if next.Ok? { PairAnywhere(ns, args[skip..], k - skip, n, next.value); }
      SameStep(ns, Rewritten(args, k), args, o);
    }
  }
}
