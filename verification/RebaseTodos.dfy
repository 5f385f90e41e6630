/** The todo list of an interactive rebase, and the shell word that names the editor script. */
module RebaseTodos {
  import opened Wrappers
  import opened Text

  const MAX_TODOS: nat := 10_000
  const MAX_TODO_BYTES: nat := 4 * 1024 * 1024
  const MAX_SUBJECT: nat := 64 * 1024
  const SHORT_HASH: nat := 7

  datatype Action = Pick | Squash | Fixup | Reword | Edit | Drop

  datatype Todo = Todo(action: Action, hash: string, subject: string)

  datatype TodoError = NoTodos | TooManyTodos | BadObjectId | SubjectTooLong | TooManyBytes

  function ActionName(action: Action): string {
    match action
    case Pick => "pick"
    case Squash => "squash"
    case Fixup => "fixup"
    case Reword => "reword"
    case Edit => "edit"
    case Drop => "drop"
  }

  predicate IsHexDigit(c: char) {
    '0' <= c <= '9' || 'a' <= c <= 'f' || 'A' <= c <= 'F'
  }

  predicate IsObjectId(s: string) {
    4 <= |s| <= 64 && forall c | c in s :: IsHexDigit(c)
  }

  function ShortHash(hash: string): (short: string)
    ensures short <= hash && |short| == Min(|hash|, SHORT_HASH)
  {
    if |hash| > SHORT_HASH then hash[..SHORT_HASH] else hash
  }

  function Sanitized(subject: string): string {
    if subject == [] then [] else [if IsControl(subject[0]) then ' ' else subject[0]] + Sanitized(subject[1..])
  }

  function TodoLine(todo: Todo): string {
    ActionName(todo.action) + " " + ShortHash(todo.hash) + " " + Sanitized(todo.subject)
  }

  function TodoBytes(todo: Todo): nat {
    |ActionName(todo.action)| + |ShortHash(todo.hash)| + ByteLength(todo.subject) + 3
  }

  // ---------------------------------------------------------------- checking and printing

  function CheckFrom(todos: seq<Todo>, capacity: nat): Result<nat, TodoError>
    decreases |todos|
  {
    if todos == [] then Ok(capacity)
    else if !IsObjectId(todos[0].hash) then Err(BadObjectId)
    else if ByteLength(todos[0].subject) > MAX_SUBJECT then Err(SubjectTooLong)
    else if capacity + TodoBytes(todos[0]) > MAX_TODO_BYTES then Err(TooManyBytes)
    else CheckFrom(todos[1..], capacity + TodoBytes(todos[0]))
  }

  function Check(todos: seq<Todo>): Result<nat, TodoError> {
    if todos == [] then Err(NoTodos)
    else if |todos| > MAX_TODOS then Err(TooManyTodos)
    else CheckFrom(todos, 0)
  }

  function TodoLines(todos: seq<Todo>): seq<string> {
    if todos == [] then [] else [TodoLine(todos[0])] + TodoLines(todos[1..])
  }

  function Content(todos: seq<Todo>): Result<string, TodoError> {
    var checked := Check(todos);
    if checked.Err? then Err(checked.error) else Ok(JoinLines(TodoLines(todos)))
  }

  method ValidateTodos(todos: seq<Todo>) returns (r: Result<nat, TodoError>)
    ensures r == Check(todos)
  {
    if todos == [] {
      return Err(NoTodos);
    }
    if |todos| > MAX_TODOS {
      return Err(TooManyTodos);
    }
    var capacity: nat := 0;
    for i := 0 to |todos|
      invariant CheckFrom(todos, 0) == CheckFrom(todos[i..], capacity)
    {
      assert todos[i..][1..] == todos[i + 1..];
      if !IsObjectId(todos[i].hash) {
        return Err(BadObjectId);
      }
      if ByteLength(todos[i].subject) > MAX_SUBJECT {
        return Err(SubjectTooLong);
      }
      capacity := capacity + TodoBytes(todos[i]);
      if capacity > MAX_TODO_BYTES {
        return Err(TooManyBytes);
      }
    }
    return Ok(capacity);
  }

  method BuildTodoContent(todos: seq<Todo>) returns (r: Result<string, TodoError>)
    ensures r == Content(todos)
  {
    var checked := ValidateTodos(todos);
    if checked.Err? {
      return Err(checked.error);
    }
    var content := "";
    for i := 0 to |todos|
      invariant content + JoinLines(TodoLines(todos[i..])) == JoinLines(TodoLines(todos))
    {
      var rest := TodoLines(todos[i + 1..]);
      assert todos[i..][1..] == todos[i + 1..];
      assert TodoLines(todos[i..]) == [TodoLine(todos[i])] + rest;
      JoinedFirst(content, TodoLine(todos[i]), rest);
      content := content + TodoLine(todos[i]) + "\n";
    }
    assert todos[|todos|..] == [] && content + [] == content;
    return Ok(content);
  }

  lemma JoinedFirst(content: string, line: string, rest: seq<string>)
    ensures content + JoinLines([line] + rest) == content + line + "\n" + JoinLines(rest)
  {
    assert ([line] + rest)[1..] == rest;
    assert content + (line + ['\n'] + JoinLines(rest)) == content + line + "\n" + JoinLines(rest);
  }

  // ---------------------------------------------------------------- what git reads back

  /** Git's own names of the commands, and their abbreviations. */
  function ReadAction(name: string): Option<Action> {
    if name in {"pick", "p"} then Some(Pick)
    else if name in {"reword", "r"} then Some(Reword)
    else if name in {"edit", "e"} then Some(Edit)
    else if name in {"squash", "s"} then Some(Squash)
    else if name in {"fixup", "f"} then Some(Fixup)
    else if name in {"drop", "d"} then Some(Drop)
    else None
  }

  /** The command, the commit and the rest of one line of the list. */
  datatype Command = Command(action: Action, commit: string, rest: string)

  function ReadCommand(line: string): Option<Command> {
    match IndexOf(line, ' ')
    case None => None
    case Some(i) =>
      var tail := line[i + 1..];
      match IndexOf(tail, ' ')
      case None => None
      case Some(j) =>
        match ReadAction(line[..i])
        case None => None
        case Some(action) => Some(Command(action, tail[..j], tail[j + 1..]))
  }

  function ReadCommands(lines: seq<string>): Option<seq<Command>> {
    if lines == [] then Some([])
    else
      var first, rest := ReadCommand(lines[0]), ReadCommands(lines[1..]);
      if first.Some? && rest.Some? then Some([first.value] + rest.value) else None
  }

  function CommandOf(todo: Todo): Command {
    Command(todo.action, ShortHash(todo.hash), Sanitized(todo.subject))
  }

  function CommandsOf(todos: seq<Todo>): seq<Command> {
    if todos == [] then [] else [CommandOf(todos[0])] + CommandsOf(todos[1..])
  }

  /** A sanitized subject keeps its length and every character but the control characters, none of
      which is left. */
  lemma {:induction false} SanitizedMeaning(subject: string)
    ensures |Sanitized(subject)| == |subject|
    ensures forall i | 0 <= i < |subject| :: Sanitized(subject)[i] == if IsControl(subject[i]) then ' ' else subject[i]
    ensures ByteLength(Sanitized(subject)) <= ByteLength(subject)
  {
    if subject != [] {
      SanitizedMeaning(subject[1..]);
      assert Sanitized(subject)[1..] == Sanitized(subject[1..]);
    }
  }

  lemma {:induction false} CheckedAreObjectIds(todos: seq<Todo>, capacity: nat)
    requires CheckFrom(todos, capacity).Ok?
    ensures forall todo | todo in todos :: IsObjectId(todo.hash)
    decreases |todos|
  {
    if todos != [] {
      CheckedAreObjectIds(todos[1..], capacity + TodoBytes(todos[0]));
      assert todos == [todos[0]] + todos[1..];
    }
  }

  lemma ActionIsRead(action: Action)
    ensures ReadAction(ActionName(action)) == Some(action)
  {
    assert |"pick"| == |"edit"| == |"drop"| == 4 && |"fixup"| == 5 && |"squash"| == |"reword"| == 6;
    assert "pick"[0] == 'p' && "edit"[0] == 'e' && "drop"[0] == 'd' && "squash"[0] == 's' && "reword"[0] == 'r';
  }

  lemma CommandIsRead(action: string, commit: string, rest: string)
    requires ' ' !in action && ' ' !in commit && ReadAction(action).Some?
    ensures ReadCommand(action + " " + commit + " " + rest) == Some(Command(ReadAction(action).value, commit, rest))
  {
    hide IndexOf, ReadAction;
    var tail := commit + " " + rest;
    var line := action + " " + tail;
    assert action + " " + commit + " " + rest == line;
    FirstCharAt(action, ' ', tail);
    FirstCharAt(commit, ' ', rest);
    assert line[..|action|] == action && line[|action| + 1..] == tail;
    assert tail[..|commit|] == commit && tail[|commit| + 1..] == rest;
  }

  predicate NoControls(s: string) {
    forall c | c in s :: !IsControl(c)
  }

  lemma NoControlsConcat(a: string, b: string)
    requires NoControls(a) && NoControls(b)
    ensures NoControls(a + b)
  {
    hide IsControl;
  }

  lemma ObjectIdIsPlain(hash: string)
    requires IsObjectId(hash)
    ensures var short := ShortHash(hash); NoControls(short) && ' ' !in short && forall c | c in short :: c < '\U{0080}'
  {
    assert forall c | c in ShortHash(hash) :: c in hash;
  }

  lemma ActionIsPlain(action: Action)
    ensures var name := ActionName(action); NoControls(name) && ' ' !in name && forall c | c in name :: c < '\U{0080}'
  {
  }

  lemma SanitizedIsPlain(subject: string)
    ensures NoControls(Sanitized(subject))
  {
    SanitizedMeaning(subject);
  }

  lemma LineIsOneCommand(todo: Todo)
    requires IsObjectId(todo.hash)
    ensures ReadCommand(TodoLine(todo)) == Some(CommandOf(todo)) && NoControls(TodoLine(todo))
  {
    hide Sanitized, NoControls, IsObjectId, ShortHash, ActionName, ReadCommand, ReadAction;
    var action, short, rest := ActionName(todo.action), ShortHash(todo.hash), Sanitized(todo.subject);
    ObjectIdIsPlain(todo.hash);
    ActionIsPlain(todo.action);
    ActionIsRead(todo.action);
    SanitizedIsPlain(todo.subject);
    CommandIsRead(action, short, rest);
    SpaceIsPlain();
    NoControlsConcat(action, " ");
    NoControlsConcat(action + " ", short);
    NoControlsConcat(action + " " + short, " ");
    NoControlsConcat(action + " " + short + " ", rest);
  }

  lemma SpaceIsPlain()
    ensures NoControls(" ")
  {
  }

  lemma {:induction false} LinesAreCommands(todos: seq<Todo>)
    requires forall todo | todo in todos :: IsObjectId(todo.hash)
    ensures ReadCommands(TodoLines(todos)) == Some(CommandsOf(todos))
    ensures StrippedLines(TodoLines(todos)) == TodoLines(todos)
    ensures forall line | line in TodoLines(todos) :: '\n' !in line
  {
    hide ReadCommand, TodoLine, IsObjectId, NoControls;
    if todos != [] {
      LineIsOneCommand(todos[0]);
      LinesAreCommands(todos[1..]);
      PlainLine(TodoLine(todos[0]));
      assert TodoLines(todos)[1..] == TodoLines(todos[1..]);
    }
  }

  lemma PlainLine(line: string)
    requires NoControls(line)
    ensures '\n' !in line && StripReturn(line) == line
  {
    if line != [] { assert line[|line| - 1] in line; }
  }

  /** Whatever the subjects hold, the text read back line by line is one command per todo, in order:
      a subject cannot add, drop or change a command. */
  lemma ContentIsExactlyTheTodos(todos: seq<Todo>)
    requires Content(todos).Ok?
    ensures ReadCommands(Lines(Content(todos).value)) == Some(CommandsOf(todos))
  {
    hide ReadCommands, TodoLines, IsObjectId, JoinLines, Lines;
    CheckedAreObjectIds(todos, 0);
    LinesAreCommands(todos);
    LinesOfJoined(TodoLines(todos));
  }

  lemma LineBytes(todo: Todo)
    requires IsObjectId(todo.hash)
    ensures ByteLength(TodoLine(todo) + ['\n']) <= TodoBytes(todo)
  {
    hide ByteLength, Sanitized, ShortHash, ActionName, IsObjectId;
    var action, short, rest := ActionName(todo.action), ShortHash(todo.hash), Sanitized(todo.subject);
    ObjectIdIsPlain(todo.hash);
    ActionIsPlain(todo.action);
    forall c | c in action + " " + short + " "
      ensures c < '\U{0080}'
    {
      assert c in action || c in short || c == ' ';
    }
    AsciiBytes(action + " " + short + " ");
    assert forall c | c in ['\n'] :: c == '\n';
    AsciiBytes(['\n']);
    SanitizedMeaning(todo.subject);
    BytesConcat(action + " " + short + " ", rest);
    BytesConcat(TodoLine(todo), ['\n']);
  }

  /** The text is never longer than the size that was checked, and so within the limit. */
  lemma {:induction false} ContentFits(todos: seq<Todo>, capacity: nat)
    requires CheckFrom(todos, capacity).Ok? && capacity <= MAX_TODO_BYTES
    ensures capacity + ByteLength(JoinLines(TodoLines(todos))) <= CheckFrom(todos, capacity).value <= MAX_TODO_BYTES
    decreases |todos|
  {
    hide ByteLength, TodoLine, TodoBytes;
    if todos == [] {
      AsciiBytes([]);
    } else {
      ContentFits(todos[1..], capacity + TodoBytes(todos[0]));
      LineBytes(todos[0]);
      assert TodoLines(todos)[1..] == TodoLines(todos[1..]);
      BytesConcat(TodoLine(todos[0]) + ['\n'], JoinLines(TodoLines(todos[1..])));
    }
  }

  function TotalBytes(todos: seq<Todo>): nat {
    if todos == [] then 0 else TodoBytes(todos[0]) + TotalBytes(todos[1..])
  }

  lemma {:induction false} CheckMeaning(todos: seq<Todo>, capacity: nat)
    requires capacity <= MAX_TODO_BYTES
    ensures CheckFrom(todos, capacity).Ok? <==>
      && (forall todo | todo in todos :: IsObjectId(todo.hash) && ByteLength(todo.subject) <= MAX_SUBJECT)
      && capacity + TotalBytes(todos) <= MAX_TODO_BYTES
    decreases |todos|
  {
    hide ByteLength, IsObjectId, TodoBytes;
    if todos != [] {
      assert forall todo | todo in todos :: todo == todos[0] || todo in todos[1..];
      assert forall todo | todo in todos[1..] :: todo in todos;
      if capacity + TodoBytes(todos[0]) <= MAX_TODO_BYTES {
        CheckMeaning(todos[1..], capacity + TodoBytes(todos[0]));
      }
    }
  }

  /** A list is accepted exactly when it is not empty, no limit is exceeded, and every item names an
      object. */
  lemma AcceptedExactlyWhenRight(todos: seq<Todo>)
    ensures Content(todos).Ok? <==>
      && 0 < |todos| <= MAX_TODOS && TotalBytes(todos) <= MAX_TODO_BYTES
      && forall todo | todo in todos :: IsObjectId(todo.hash) && ByteLength(todo.subject) <= MAX_SUBJECT
  {
    hide ByteLength, IsObjectId, TodoBytes, CheckFrom;
    CheckMeaning(todos, 0);
  }

  // ---------------------------------------------------------------- the shell word

  /** The value in single quotes, with every apostrophe put into double quotes of its own. */
  function EscapedQuotes(value: string): string {
    if value == [] then [] else (if value[0] == '\'' then "'\"'\"'" else [value[0]]) + EscapedQuotes(value[1..])
  }

  function ShellQuote(value: string): string {
    "'" + EscapedQuotes(value) + "'"
  }

  datatype Quoting = Bare | Single | Double

  /** The value of a text that is one shell word (sections 2.2.2 and 2.2.3 of the POSIX Shell Command
      Language). Unquoted characters and expansions inside double quotes are left out: a text that
      holds any has no value here. */
  function WordValue(s: string, quoting: Quoting): Option<string>
    decreases |s|
  {
    if s == [] then if quoting == Bare then Some([]) else None
    else
      match quoting
      case Bare =>
        if s[0] == '\'' then WordValue(s[1..], Single) else if s[0] == '"' then WordValue(s[1..], Double) else None
      case Single =>
        if s[0] == '\'' then WordValue(s[1..], Bare) else Prepended(s[0], WordValue(s[1..], Single))
      case Double =>
        if s[0] == '"' then WordValue(s[1..], Bare)
        else if s[0] in "$`\\" then None
        else Prepended(s[0], WordValue(s[1..], Double))
  }

  function Prepended(c: char, value: Option<string>): Option<string> {
    if value.Some? then Some([c] + value.value) else None
  }

  /** A quoted text is one word whose value is the text, whatever it holds. */
  lemma QuotingIsUndone(value: string)
    ensures WordValue(ShellQuote(value), Bare) == Some(value)
  {
    assert ShellQuote(value)[1..] == EscapedQuotes(value) + "'";
    InsideQuotes(value);
  }

  lemma {:induction false} InsideQuotes(value: string)
    ensures WordValue(EscapedQuotes(value) + "'", Single) == Some(value)
  {
    hide WordValue;
    if value == [] {
      assert WordValue(EscapedQuotes([]) + "'", Single) == Some([]) by { LastQuote(); }
    } else {
      var rest := EscapedQuotes(value[1..]) + "'";
      InsideQuotes(value[1..]);
      if value[0] == '\'' {
        assert EscapedQuotes(value) + "'" == "'\"'\"'" + rest;
        QuotedApostrophe(rest);
      } else {
        assert EscapedQuotes(value) + "'" == [value[0]] + rest;
        PlainCharacter(value[0], rest);
      }
      assert [value[0]] + value[1..] == value;
    }
  }

  lemma LastQuote()
    ensures WordValue(EscapedQuotes([]) + "'", Single) == Some([])
  {
    var s := EscapedQuotes([]) + "'";
    assert s == "'" && s[1..] == [];
  }

  lemma PlainCharacter(c: char, rest: string)
    requires c != '\''
    ensures WordValue([c] + rest, Single) == Prepended(c, WordValue(rest, Single))
  {
    assert ([c] + rest)[1..] == rest;
  }

  /** Out of the single quotes, an apostrophe in double quotes, and back into single quotes. */
  lemma QuotedApostrophe(rest: string)
    ensures WordValue("'\"'\"'" + rest, Single) == Prepended('\'', WordValue(rest, Single))
  {
    var s0 := "'\"'\"'" + rest;
    var s1, s2, s3, s4 := s0[1..], s0[2..], s0[3..], s0[4..];
    assert s1[1..] == s2 && s2[1..] == s3 && s3[1..] == s4 && s4[1..] == rest;
    assert WordValue(s4, Bare) == WordValue(rest, Single);
    assert WordValue(s3, Double) == WordValue(s4, Bare);
    assert WordValue(s2, Double) == Prepended('\'', WordValue(s3, Double));
    assert WordValue(s1, Bare) == WordValue(s2, Double);
  }
}
