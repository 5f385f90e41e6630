/** What a `git log` query asks for: the checks of its options, the argument list built from them, and a
    reader of git's own argument syntax that says what the list means. */
module LogArgs {
  import opened Wrappers
  import opened Text

  const LIST_FORMAT := "%H%x1f%an%x1f%at%x1f%P%x1f%D%x1f%s%x1e"
  const MAX_POSITIONAL: nat := 4 * 1024
  const MAX_PATH: nat := 64 * 1024
  const MAX_PATH_DEPTH: nat := 256
  const MAX_ITEMS: nat := 250_000

  // ---------------------------------------------------------------- options

  datatype LogOptions = LogOptions(
    start: Option<string>, pathFilter: Option<string>, skip: nat, limit: Option<nat>,
    currentBranchOnly: bool, grep: Option<string>, author: Option<string>, since: Option<string>)

  datatype LogQueryKey = LogQueryKey(
    start: Option<string>, pathFilter: Option<string>, currentBranchOnly: bool,
    grep: Option<string>, author: Option<string>, since: Option<string>)

  function KeyOf(options: LogOptions): LogQueryKey {
    LogQueryKey(options.start, options.pathFilter, options.currentBranchOnly,
                options.grep, options.author, options.since)
  }

  function OptionsOf(key: LogQueryKey): LogOptions {
    LogOptions(key.start, key.pathFilter, 0, None, key.currentBranchOnly, key.grep, key.author, key.since)
  }

  datatype OptionsError = BadStart | BadPath | BadKeyword | BadAuthor | BadSince | LimitTooLarge

  function Slashes(path: string): nat {
    if path == [] then 0 else (if path[0] == '/' then 1 else 0) + Slashes(path[1..])
  }

  predicate HasControl(value: string) {
    exists c | c in value :: IsControl(c)
  }

  predicate PositionalOk(value: string) {
    value != [] && ByteLength(value) <= MAX_POSITIONAL && value[0] != '-' && !HasControl(value)
  }

  predicate PathOk(value: string) {
    value != [] && ByteLength(value) <= MAX_PATH && '\0' !in value && Slashes(value) + 1 <= MAX_PATH_DEPTH
  }

  predicate FilterOk(value: string) {
    ByteLength(value) <= MAX_POSITIONAL && !HasControl(value)
  }

  /** `validate_log_options`. */
  function OptionsCheck(options: LogOptions): Option<OptionsError> {
    if options.start.Some? && !PositionalOk(options.start.value) then Some(BadStart)
    else if options.pathFilter.Some? && !PathOk(options.pathFilter.value) then Some(BadPath)
    else if options.grep.Some? && !FilterOk(options.grep.value) then Some(BadKeyword)
    else if options.author.Some? && !FilterOk(options.author.value) then Some(BadAuthor)
    else if options.since.Some? && !FilterOk(options.since.value) then Some(BadSince)
    else if options.limit.Some? && options.limit.value > MAX_ITEMS then Some(LimitTooLarge)
    else None
  }

  // ---------------------------------------------------------------- building the arguments

  function OptionalArgs(value: Option<string>, prefix: string, suffix: seq<string>): seq<string> {
    if value.Some? then [prefix + value.value] + suffix else []
  }

  function PageArgs(options: LogOptions): seq<string> {
    (if options.skip > 0 then ["--skip=" + PrintNat(options.skip)] else [])
    + (if options.limit.Some? then ["--max-count=" + PrintNat(options.limit.value)] else [])
  }

  function BuildLogArgs(options: LogOptions, includePage: bool): seq<string> {
    ["log", "--pretty=format:" + LIST_FORMAT]
    + (if includePage then PageArgs(options) else [])
    + OptionalArgs(options.grep, "--grep=", ["--regexp-ignore-case"])
    + OptionalArgs(options.author, "--author=", [])
    + OptionalArgs(options.since, "--since=", [])
    + OptionalArgs(options.start, "", [])
    + (if options.pathFilter.Some? then ["--", options.pathFilter.value] else [])
  }

  // ---------------------------------------------------------------- git's reading of arguments

  /** What git lists, apart from paging: several keywords, authors and revisions add up, of several times
      and formats the last one counts, and whether case is ignored holds for every pattern. */
  datatype Filters = Filters(
    format: Option<string>, keywords: seq<string>, authors: seq<string>, ignoreCase: bool, since: Option<string>,
    revisions: seq<string>, paths: seq<string>)

  datatype LogCommand = LogCommand(filters: Filters, skip: nat, maxCount: Option<nat>)

  const Everything := LogCommand(Filters(None, [], [], false, None, [], []), 0, None)

  datatype Argument =
    | Format(format: string)
    | Skip(count: string)
    | MaxCount(count: string)
    | Keyword(pattern: string)
    | IgnoreCase
    | Author(pattern: string)
    | Since(time: string)
    | Revision(name: string)
    | PathsFollow
    | Unknown

  /** One argument in front of the paths. */
  function ReadArgument(arg: string): Argument {
    if arg == "--" then PathsFollow
    else if "--pretty=format:" <= arg then Format(arg[|"--pretty=format:"|..])
    else if "--skip=" <= arg then Skip(arg[|"--skip="|..])
    else if "--max-count=" <= arg then MaxCount(arg[|"--max-count="|..])
    else if "--grep=" <= arg then Keyword(arg[|"--grep="|..])
    else if arg == "--regexp-ignore-case" then IgnoreCase
    else if "--author=" <= arg then Author(arg[|"--author="|..])
    else if "--since=" <= arg then Since(arg[|"--since="|..])
    else if arg == [] || "-" <= arg then Unknown
    else Revision(arg)
  }

  function ReadCount(digits: string): Option<nat> {
    if AllDigits(digits) then Some(DigitsValue(digits)) else None
  }

  /** What an argument that is not the start of the paths adds to a command. */
  function Apply(c: LogCommand, arg: Argument): Option<LogCommand> {
    match arg
    case Format(format) => Some(c.(filters := c.filters.(format := Some(format))))
    case Skip(count) =>
      var n := ReadCount(count);
      if n.Some? then Some(c.(skip := n.value)) else None
    case MaxCount(count) =>
      var n := ReadCount(count);
      if n.Some? then Some(c.(maxCount := n)) else None
    case Keyword(pattern) => Some(c.(filters := c.filters.(keywords := c.filters.keywords + [pattern])))
    case IgnoreCase => Some(c.(filters := c.filters.(ignoreCase := true)))
    case Author(pattern) => Some(c.(filters := c.filters.(authors := c.filters.authors + [pattern])))
    case Since(time) => Some(c.(filters := c.filters.(since := Some(time))))
    case Revision(name) => Some(c.(filters := c.filters.(revisions := c.filters.revisions + [name])))
    case PathsFollow => None
    case Unknown => None
  }

  function ReadArgs(args: seq<string>, c: LogCommand): Option<LogCommand> {
    if args == [] then Some(c)
    else
      var arg := ReadArgument(args[0]);
      if arg.PathsFollow? then Some(c.(filters := c.filters.(paths := args[1..])))
      else match Apply(c, arg)
        case None => None
        case Some(next) => ReadArgs(args[1..], next)
  }

  /** What git does with a whole argument list; none when it refuses it. */
  function ReadLog(args: seq<string>): Option<LogCommand> {
    if args == [] || args[0] != "log" then None else ReadArgs(args[1..], Everything)
  }

  // ---------------------------------------------------------------- what the options ask for

  function Listed(value: Option<string>): seq<string> {
    if value.Some? then [value.value] else []
  }

  /** The query a caller means: its keyword among messages, its author among authors, and so on. */
  function FiltersOf(options: LogOptions): Filters {
    Filters(Some(LIST_FORMAT), Listed(options.grep), Listed(options.author), options.grep.Some?, options.since,
            Listed(options.start), Listed(options.pathFilter))
  }

  lemma Prefixed(prefix: string, value: string)
    ensures prefix <= prefix + value && (prefix + value)[|prefix|..] == value
  {
  }

  lemma CountIsRead(n: nat)
    ensures ReadCount(PrintNat(n)) == Some(n)
  {
    PrintedValue(n);
  }

  lemma FormatIsTold(value: string)
    ensures ReadArgument("--pretty=format:" + value) == Format(value)
  {
    Prefixed("--pretty=format:", value);
  }

  lemma SkipIsTold(value: string)
    ensures ReadArgument("--skip=" + value) == Skip(value)
  {
    Prefixed("--skip=", value);
    assert ("--skip=" + value)[2] == 's';
  }

  lemma MaxCountIsTold(value: string)
    ensures ReadArgument("--max-count=" + value) == MaxCount(value)
  {
    Prefixed("--max-count=", value);
    assert ("--max-count=" + value)[2] == 'm';
  }

  lemma KeywordIsTold(value: string)
    ensures ReadArgument("--grep=" + value) == Keyword(value)
  {
    Prefixed("--grep=", value);
    assert ("--grep=" + value)[2] == 'g';
  }

  lemma AuthorIsTold(value: string)
    ensures ReadArgument("--author=" + value) == Author(value)
  {
    Prefixed("--author=", value);
    assert ("--author=" + value)[2] == 'a';
  }

  lemma SinceIsTold(value: string)
    ensures ReadArgument("--since=" + value) == Since(value)
  {
    Prefixed("--since=", value);
    assert ("--since=" + value)[2] == 's' && ("--since=" + value)[3] == 'i';
  }

  lemma StartIsTold(value: string)
    requires PositionalOk(value)
    ensures ReadArgument("" + value) == Revision(value)
  {
    assert "" + value == value;
  }

  lemma CaseIsTold()
    ensures ReadArgument("--regexp-ignore-case") == IgnoreCase
  {
    assert "--regexp-ignore-case"[2] == 'r';
  }

  /** Reading goes on behind arguments that are read one by one. */
  lemma OneMore(arg: string, rest: seq<string>, c: LogCommand)
    requires !ReadArgument(arg).PathsFollow? && Apply(c, ReadArgument(arg)).Some?
    ensures ReadArgs([arg] + rest, c) == ReadArgs(rest, Apply(c, ReadArgument(arg)).value)
  {
    hide ReadArgument, Apply;
    assert ([arg] + rest)[1..] == rest;
  }

  lemma NoMore(rest: seq<string>)
    ensures [] + rest == rest
  {
  }

  function AddKeyword(c: LogCommand, value: Option<string>): LogCommand {
    c.(filters := c.filters.(keywords := c.filters.keywords + Listed(value),
                             ignoreCase := c.filters.ignoreCase || value.Some?))
  }

  lemma KeywordIsRead(value: Option<string>, rest: seq<string>, c: LogCommand)
    ensures ReadArgs(OptionalArgs(value, "--grep=", ["--regexp-ignore-case"]) + rest, c)
      == ReadArgs(rest, AddKeyword(c, value))
  {
    hide ReadArgument, ReadArgs;
    if value.Some? {
      KeywordIsTold(value.value);
      CaseIsTold();
      assert OptionalArgs(value, "--grep=", ["--regexp-ignore-case"]) + rest
        == ["--grep=" + value.value] + (["--regexp-ignore-case"] + rest);
      OneMore("--grep=" + value.value, ["--regexp-ignore-case"] + rest, c);
      OneMore("--regexp-ignore-case", rest, Apply(c, Keyword(value.value)).value);
    } else {
      NoMore(rest);
      assert c.filters.keywords + [] == c.filters.keywords;
    }
  }

  function AddAuthor(c: LogCommand, value: Option<string>): LogCommand {
    c.(filters := c.filters.(authors := c.filters.authors + Listed(value)))
  }

  lemma AuthorIsRead(value: Option<string>, rest: seq<string>, c: LogCommand)
    ensures ReadArgs(OptionalArgs(value, "--author=", []) + rest, c) == ReadArgs(rest, AddAuthor(c, value))
  {
    hide ReadArgument, ReadArgs;
    if value.Some? {
      AuthorIsTold(value.value);
      assert OptionalArgs(value, "--author=", []) + rest == ["--author=" + value.value] + rest;
      OneMore("--author=" + value.value, rest, c);
    } else {
      NoMore(rest);
      assert c.filters.authors + [] == c.filters.authors;
    }
  }

  function SetSince(c: LogCommand, value: Option<string>): LogCommand {
    if value.Some? then c.(filters := c.filters.(since := value)) else c
  }

  lemma SinceIsRead(value: Option<string>, rest: seq<string>, c: LogCommand)
    ensures ReadArgs(OptionalArgs(value, "--since=", []) + rest, c) == ReadArgs(rest, SetSince(c, value))
  {
    hide ReadArgument, ReadArgs;
    if value.Some? {
      SinceIsTold(value.value);
      assert OptionalArgs(value, "--since=", []) + rest == ["--since=" + value.value] + rest;
      OneMore("--since=" + value.value, rest, c);
    } else {
      NoMore(rest);
    }
  }

  function AddRevision(c: LogCommand, value: Option<string>): LogCommand {
    c.(filters := c.filters.(revisions := c.filters.revisions + Listed(value)))
  }

  lemma StartIsRead(value: Option<string>, rest: seq<string>, c: LogCommand)
    requires value.Some? ==> PositionalOk(value.value)
    ensures ReadArgs(OptionalArgs(value, "", []) + rest, c) == ReadArgs(rest, AddRevision(c, value))
  {
    hide ReadArgument, ReadArgs;
    if value.Some? {
      StartIsTold(value.value);
      assert OptionalArgs(value, "", []) + rest == ["" + value.value] + rest;
      OneMore("" + value.value, rest, c);
    } else {
      NoMore(rest);
      assert c.filters.revisions + [] == c.filters.revisions;
    }
  }

  lemma PathIsRead(value: Option<string>, c: LogCommand)
    requires c.filters.paths == []
    ensures ReadArgs(if value.Some? then ["--", value.value] else [], c)
      == Some(c.(filters := c.filters.(paths := Listed(value))))
  {
    if value.Some? {
      assert ["--", value.value][1..] == [value.value];
    }
  }

  function SetPage(c: LogCommand, options: LogOptions): LogCommand {
    c.(skip := if options.skip > 0 then options.skip else c.skip,
       maxCount := if options.limit.Some? then options.limit else c.maxCount)
  }

  lemma PageIsRead(options: LogOptions, rest: seq<string>, c: LogCommand)
    ensures ReadArgs(PageArgs(options) + rest, c) == ReadArgs(rest, SetPage(c, options))
  {
    hide ReadArgument, ReadArgs, PrintNat, ReadCount;
    var skip := if options.skip > 0 then ["--skip=" + PrintNat(options.skip)] else [];
    var limit := if options.limit.Some? then ["--max-count=" + PrintNat(options.limit.value)] else [];
    assert PageArgs(options) + rest == skip + (limit + rest);
    var skipped := if options.skip > 0 then c.(skip := options.skip) else c;
    if options.skip > 0 {
      SkipIsTold(PrintNat(options.skip));
      CountIsRead(options.skip);
      OneMore("--skip=" + PrintNat(options.skip), limit + rest, c);
    } else {
      NoMore(limit + rest);
    }
    if options.limit.Some? {
      MaxCountIsTold(PrintNat(options.limit.value));
      CountIsRead(options.limit.value);
      OneMore("--max-count=" + PrintNat(options.limit.value), rest, skipped);
    } else {
      NoMore(rest);
    }
  }

  /** Git reads exactly what was asked for out of the arguments built from options that passed the checks:
      every filter under its own name, the format of the record parser, and the page if it was included. */
  lemma ArgsSayTheOptions(options: LogOptions, includePage: bool)
    requires OptionsCheck(options).None?
    ensures ReadLog(BuildLogArgs(options, includePage))
      == Some(LogCommand(FiltersOf(options), if includePage then options.skip else 0,
                         if includePage then options.limit else None))
  {
    hide ReadArgument, ReadArgs, PageArgs, OptionalArgs, PositionalOk;
    var page := if includePage then PageArgs(options) else [];
    var keyword := OptionalArgs(options.grep, "--grep=", ["--regexp-ignore-case"]);
    var author := OptionalArgs(options.author, "--author=", []);
    var since := OptionalArgs(options.since, "--since=", []);
    var start := OptionalArgs(options.start, "", []);
    var path := if options.pathFilter.Some? then ["--", options.pathFilter.value] else [];
    var format := "--pretty=format:" + LIST_FORMAT;
    ArgsInOrder(options, includePage);
    FormatIsTold(LIST_FORMAT);
    var c0 := Apply(Everything, Format(LIST_FORMAT)).value;
    OneMore(format, page + (keyword + (author + (since + (start + path)))), Everything);
    var c1 := if includePage then SetPage(c0, options) else c0;
    if includePage {
      PageIsRead(options, keyword + (author + (since + (start + path))), c0);
    } else {
      NoMore(keyword + (author + (since + (start + path))));
    }
    var c2 := AddKeyword(c1, options.grep);
    KeywordIsRead(options.grep, author + (since + (start + path)), c1);
    var c3 := AddAuthor(c2, options.author);
    AuthorIsRead(options.author, since + (start + path), c2);
    var c4 := SetSince(c3, options.since);
    SinceIsRead(options.since, start + path, c3);
    StartIsRead(options.start, path, c4);
    PathIsRead(options.pathFilter, AddRevision(c4, options.start));
    assert [] + Listed(options.grep) == Listed(options.grep) && [] + Listed(options.author) == Listed(options.author);
    assert [] + Listed(options.start) == Listed(options.start);
  }

  lemma ArgsInOrder(options: LogOptions, includePage: bool)
    ensures var page := if includePage then PageArgs(options) else [];
      var keyword := OptionalArgs(options.grep, "--grep=", ["--regexp-ignore-case"]);
      var author := OptionalArgs(options.author, "--author=", []);
      var since := OptionalArgs(options.since, "--since=", []);
      var start := OptionalArgs(options.start, "", []);
      var path := if options.pathFilter.Some? then ["--", options.pathFilter.value] else [];
      var args := BuildLogArgs(options, includePage);
      args[0] == "log" && args[1..]
        == ["--pretty=format:" + LIST_FORMAT] + (page + (keyword + (author + (since + (start + path)))))
  {
    hide PageArgs, OptionalArgs;
  }

  /** A start that looks like an option would be taken for one: this is what its check is for. */
  lemma UncheckedStartIsAnOption(options: LogOptions, pattern: string)
    requires options == LogOptions(Some("--author=" + pattern), None, 0, None, false, None, None, None)
    ensures OptionsCheck(options) == Some(BadStart)
    ensures ReadLog(BuildLogArgs(options, false)).Some?
    ensures ReadLog(BuildLogArgs(options, false)).value.filters.authors == [pattern]
  {
    hide ReadArgument, ReadArgs;
    var start := "--author=" + pattern;
    assert start[0] == '-';
    AuthorIsTold(pattern);
    FormatIsTold(LIST_FORMAT);
    assert BuildLogArgs(options, false) == ["log"] + (["--pretty=format:" + LIST_FORMAT] + ([start] + [])) by {
      assert "" + start == start;
    }
    assert BuildLogArgs(options, false)[1..] == ["--pretty=format:" + LIST_FORMAT] + ([start] + []);
    OneMore("--pretty=format:" + LIST_FORMAT, [start] + [], Everything);
    var c := Apply(Everything, Format(LIST_FORMAT)).value;
    OneMore(start, [], c);
    NothingLeft(Apply(c, Author(pattern)).value);
  }

  lemma NothingLeft(c: LogCommand)
    ensures ReadArgs([], c) == Some(c)
  {
  }

  /** Queries share a kept process when their keys are equal: then they ask for the same listing, and they
      do so exactly when nothing but the unused branch flag differs. */
  lemma SameListingExactlyForSameKey(a: LogOptions, b: LogOptions)
    ensures FiltersOf(a) == FiltersOf(b)
      <==> KeyOf(a).(currentBranchOnly := KeyOf(b).currentBranchOnly) == KeyOf(b)
    ensures FiltersOf(OptionsOf(KeyOf(a))) == FiltersOf(a)
  {
    if FiltersOf(a) == FiltersOf(b) {
      SameListed(a.grep, b.grep);
      SameListed(a.author, b.author);
      SameListed(a.start, b.start);
      SameListed(a.pathFilter, b.pathFilter);
    }
  }

  lemma SameListed(a: Option<string>, b: Option<string>)
    requires Listed(a) == Listed(b)
    ensures a == b
  {
    if a.Some? && b.Some? {
      assert Listed(a)[0] == Listed(b)[0];
    }
  }

  // ---------------------------------------------------------------- what reaches the process

  predicate NoNul(arg: string) {
    '\0' !in arg
  }

  lemma CheckedHoldsNoNul(value: string)
    requires !HasControl(value)
    ensures NoNul(value)
  {
    assert IsControl('\0');
  }

  lemma OptionalHoldsNoNul(value: Option<string>, prefix: string, suffix: seq<string>)
    requires NoNul(prefix) && (forall arg | arg in suffix :: NoNul(arg)) && (value.Some? ==> NoNul(value.value))
    ensures forall arg | arg in OptionalArgs(value, prefix, suffix) :: NoNul(arg)
  {
  }

  lemma PageHoldsNoNul(options: LogOptions)
    ensures forall arg | arg in PageArgs(options) :: NoNul(arg)
  {
    hide PrintNat;
    assert forall n: nat :: AllDigits(PrintNat(n));
  }

  lemma WordsHoldNoNul()
    ensures NoNul("log") && NoNul("--pretty=format:" + LIST_FORMAT) && NoNul("--") && NoNul("")
    ensures NoNul("--grep=") && NoNul("--regexp-ignore-case") && NoNul("--author=") && NoNul("--since=")
  {
    FormatHoldsNoNul();
  }

  lemma FormatHoldsNoNul()
    ensures NoNul("--pretty=format:" + LIST_FORMAT)
  {
  }

  lemma PathHoldsNoNul(value: string)
    requires PathOk(value)
    ensures NoNul(value)
  {
  }

  /** No argument of accepted options holds a NUL character, which an argument list cannot carry. */
  lemma NoArgumentHoldsNul(options: LogOptions, includePage: bool)
    requires OptionsCheck(options).None?
    ensures forall arg | arg in BuildLogArgs(options, includePage) :: NoNul(arg)
  {
    hide OptionalArgs, PageArgs, HasControl, NoNul;
    WordsHoldNoNul();
    if options.grep.Some? { CheckedHoldsNoNul(options.grep.value); }
    if options.author.Some? { CheckedHoldsNoNul(options.author.value); }
    if options.since.Some? { CheckedHoldsNoNul(options.since.value); }
    if options.start.Some? { CheckedHoldsNoNul(options.start.value); }
    if options.pathFilter.Some? { PathHoldsNoNul(options.pathFilter.value); }
    PageHoldsNoNul(options);
    OptionalHoldsNoNul(options.grep, "--grep=", ["--regexp-ignore-case"]);
    OptionalHoldsNoNul(options.author, "--author=", []);
    OptionalHoldsNoNul(options.since, "--since=", []);
    OptionalHoldsNoNul(options.start, "", []);
  }
}
