/** Expansion of `{{name}}` placeholders in a request template. */
module Template {
  import opened Wrappers
  import opened Text

  datatype TemplateError = Unclosed | EmptyName | Missing(name: string) | TooLong

  /** The length is checked once, on the whole result. */
  function Limited(text: Result<string, TemplateError>, maxBytes: nat): Result<string, TemplateError> {
    if text.Ok? && ByteLength(text.value) > maxBytes then Err(TooLong) else text
  }

  function Value(inner: string, variables: map<string, string>): Result<string, TemplateError> {
    var name := Trim(inner);
    if name == [] then Err(EmptyName)
    else if name !in variables then Err(Missing(name))
    else Ok(variables[name])
  }

  /** The text from a place on, expanded. */
  function ExpandFrom(text: string, variables: map<string, string>): Result<string, TemplateError>
    decreases |text|
  {
    match FindText(text, "{{")
    case None => Ok(text)
    case Some(i) =>
      match FindText(text[i + 2..], "}}")
      case None => Err(Unclosed)
      case Some(j) =>
        var value :- Value(text[i + 2..][..j], variables);
        var rest :- ExpandFrom(text[i + 2..][j + 2..], variables);
        Ok(text[..i] + value + rest)
  }

  function Expand(template: string, variables: map<string, string>, maxBytes: nat): (r: Result<string, TemplateError>)
    ensures r.Ok? ==> ByteLength(r.value) <= maxBytes
  {
    Limited(ExpandFrom(template, variables), maxBytes)
  }

  method ExpandTemplate(template: string, variables: map<string, string>, maxBytes: nat)
    returns (r: Result<string, TemplateError>)
    ensures r == Expand(template, variables, maxBytes)
  {
    hide FindText, ExpandFrom;
    var output, cursor: nat := [], 0;
    assert template[0..] == template;
    PrefixedNothing(ExpandFrom(template, variables));
    while true
      invariant cursor <= |template|
      invariant ExpandFrom(template, variables) == Prefixed(output, ExpandFrom(template[cursor..], variables))
      decreases |template| - cursor
    {
      var found := FindText(template[cursor..], "{{");
      if found.None? {
        PlainText(template[cursor..], variables);
        break;
      }
      var start := cursor + found.value;
      var close := FindText(template[start + 2..], "}}");
      if close.None? {
        UnclosedAt(template, cursor, start, variables);
        return Err(Unclosed);
      }
      var end := start + 2 + close.value;
      PieceAt(template, cursor, start, end, variables);
      var name := Trim(template[start + 2..end]);
      if name == [] {
        return Err(EmptyName);
      }
      if name !in variables {
        return Err(Missing(name));
      }
      PrefixedTwice(output, template[cursor..start], variables[name], ExpandFrom(template[end + 2..], variables));
      output := output + template[cursor..start];
      output := output + variables[name];
      cursor := end + 2;
    }
    output := output + template[cursor..];
    if ByteLength(output) > maxBytes {
      return Err(TooLong);
    }
    return Ok(output);
  }

  lemma SliceOfSlice(s: string, a: nat, b: nat)
    requires a <= b <= |s|
    ensures s[a..][b - a..] == s[b..] && s[a..][..b - a] == s[a..b]
  {
  }

  lemma PlainText(text: string, variables: map<string, string>)
    requires FindText(text, "{{").None?
    ensures ExpandFrom(text, variables) == Ok(text)
  {
  }

  lemma UnclosedAt(template: string, cursor: nat, start: nat, variables: map<string, string>)
    requires cursor <= start <= |template| && FindText(template[cursor..], "{{") == Some(start - cursor)
    requires FindText(template[start + 2..], "}}").None?
    ensures ExpandFrom(template[cursor..], variables) == Err(Unclosed)
  {
    hide FindText;
    SliceOfSlice(template, cursor, start + 2);
  }

  /** What expanding from a place on comes to when the next placeholder is closed. */
  lemma PieceAt(template: string, cursor: nat, start: nat, end: nat, variables: map<string, string>)
    requires cursor <= start <= |template| && FindText(template[cursor..], "{{") == Some(start - cursor)
    requires start + 2 <= end && FindText(template[start + 2..], "}}") == Some(end - start - 2)
    ensures var value := Value(template[start + 2..end], variables);
      ExpandFrom(template[cursor..], variables)
        == if value.Err? then value
           else Prefixed(template[cursor..start] + value.value, ExpandFrom(template[end + 2..], variables))
  {
    hide FindText, ExpandFrom, Value;
    var text := template[cursor..];
    SliceOfSlice(template, cursor, start);
    SliceOfSlice(template, cursor, start + 2);
    SliceOfSlice(template, start + 2, end);
    SliceOfSlice(template, start + 2, end + 2);
    FirstPiece(text, start - cursor, end - start - 2, variables);
  }

  lemma FirstPiece(text: string, i: nat, j: nat, variables: map<string, string>)
    requires FindText(text, "{{") == Some(i) && FindText(text[i + 2..], "}}") == Some(j)
    ensures var value := Value(text[i + 2..][..j], variables);
      ExpandFrom(text, variables)
        == if value.Err? then value
           else Prefixed(text[..i] + value.value, ExpandFrom(text[i + 2..][j + 2..], variables))
  {
    hide FindText, Value;
    var value, rest := Value(text[i + 2..][..j], variables), ExpandFrom(text[i + 2..][j + 2..], variables);
    assert value.Err? ==> ExpandFrom(text, variables) == value;
    assert value.Ok? && rest.Ok? ==> ExpandFrom(text, variables) == Ok(text[..i] + value.value + rest.value);
  }

  function Prefixed(prefix: string, text: Result<string, TemplateError>): Result<string, TemplateError> {
    if text.Ok? then Ok(prefix + text.value) else text
  }

  lemma PrefixedNothing(text: Result<string, TemplateError>)
    ensures Prefixed([], text) == text
  {
    if text.Ok? { assert [] + text.value == text.value; }
  }

  lemma PrefixedTwice(a: string, b: string, c: string, text: Result<string, TemplateError>)
    ensures Prefixed(a, Prefixed(b + c, text)) == Prefixed(a + b + c, text)
  {
    if text.Ok? { assert a + (b + c + text.value) == a + b + c + text.value; }
  }

  // ---------------------------------------------------------------- templates as lists

  /** A literal and the placeholder after it. */
  datatype Piece = Piece(literal: string, inner: string)

  /** What follows the last placeholder: a literal, or one with a placeholder that is never closed. */
  datatype Ending = Closed(literal: string) | Open(literal: string, tail: string)

  datatype Pieces = Pieces(pieces: seq<Piece>, ending: Ending)

  predicate HasDouble(s: string, c: char) {
    exists j | 0 <= j < |s| - 1 :: s[j] == c && s[j + 1] == c
  }

  /** Followed by two `c`, the text meets its first two `c` in a row there. */
  predicate EndsBefore(s: string, c: char) {
    !HasDouble(s, c) && (s != [] ==> s[|s| - 1] != c)
  }

  predicate WellFormed(t: Pieces) {
    && (forall p | p in t.pieces :: EndsBefore(p.literal, '{') && EndsBefore(p.inner, '}'))
    && match t.ending
       case Closed(literal) => !HasDouble(literal, '{')
       case Open(literal, tail) => EndsBefore(literal, '{') && !HasDouble(tail, '}')
  }

  function RenderPiece(p: Piece): string {
    p.literal + "{{" + p.inner + "}}"
  }

  function Render(t: Pieces): string
    decreases |t.pieces|
  {
    if t.pieces == [] then
      match t.ending
      case Closed(literal) => literal
      case Open(literal, tail) => literal + "{{" + tail
    else RenderPiece(t.pieces[0]) + Render(t.(pieces := t.pieces[1..]))
  }

  /** The literals as they are, the variables' values in between; nothing inserted is looked at again. */
  function Evaluate(t: Pieces, variables: map<string, string>): Result<string, TemplateError>
    decreases |t.pieces|
  {
    if t.pieces == [] then
      if t.ending.Closed? then Ok(t.ending.literal) else Err(Unclosed)
    else
      var value :- Value(t.pieces[0].inner, variables);
      var rest :- Evaluate(t.(pieces := t.pieces[1..]), variables);
      Ok(t.pieces[0].literal + value + rest)
  }

  lemma DoubleAt(s: string, c: char, j: nat)
    requires j <= |s|
    ensures [c, c] <= s[j..] <==> j + 1 < |s| && s[j] == c && s[j + 1] == c
  {
    if j + 1 < |s| {
      assert s[j..][0] == s[j] && s[j..][1] == s[j + 1];
    }
  }

  lemma FirstDouble(a: string, c: char, b: string)
    requires EndsBefore(a, c)
    ensures FindText(a + [c, c] + b, [c, c]) == Some(|a|)
  {
    var s := a + [c, c] + b;
    assert s[|a|] == c && s[|a| + 1] == c;
    assert forall j | 0 <= j < |a| :: s[j] == a[j];
    forall j: nat | j <= |a|
      ensures [c, c] <= s[j..] <==> j == |a|
    {
      DoubleAt(s, c, j);
    }
    FirstTextAt(s, [c, c], |a|);
  }

  lemma NoDouble(s: string, c: char)
    ensures FindText(s, [c, c]).None? <==> !HasDouble(s, c)
  {
    hide FindText;
    var found := FindText(s, [c, c]);
    if found.Some? {
      DoubleAt(s, c, found.value);
    } else {
      forall j | 0 <= j < |s| - 1
        ensures !(s[j] == c && s[j + 1] == c)
      {
        DoubleAt(s, c, j);
      }
    }
  }

  lemma CutAtDouble(s: string, c: char, i: nat)
    requires i + 1 < |s| && s[i] == c && s[i + 1] == c
    ensures s == s[..i] + [c, c] + s[i + 2..]
  {
  }

  lemma BeforeFirstDouble(s: string, c: char)
    requires FindText(s, [c, c]).Some?
    ensures var i := FindText(s, [c, c]).value;
      i + 2 <= |s| && EndsBefore(s[..i], c) && s == s[..i] + [c, c] + s[i + 2..]
  {
    hide FindText;
    var i := FindText(s, [c, c]).value;
    DoubleAt(s, c, i);
    CutAtDouble(s, c, i);
    forall j: nat | j < i
      ensures !(s[j] == c && s[j + 1] == c)
    {
      DoubleAt(s, c, j);
    }
  }

  lemma RenderFirst(p: Piece, rest: string)
    ensures RenderPiece(p) + rest == p.literal + "{{" + (p.inner + "}}" + rest)
  {
  }

  /** How `ExpandFrom` looks at a text that starts with a piece. */
  lemma PieceIsFound(p: Piece, rest: string)
    requires EndsBefore(p.literal, '{') && EndsBefore(p.inner, '}')
    ensures var s := RenderPiece(p) + rest;
      && FindText(s, "{{") == Some(|p.literal|) && s[..|p.literal|] == p.literal
      && s[|p.literal| + 2..] == p.inner + "}}" + rest
      && FindText(s[|p.literal| + 2..], "}}") == Some(|p.inner|)
      && s[|p.literal| + 2..][..|p.inner|] == p.inner && s[|p.literal| + 2..][|p.inner| + 2..] == rest
  {
    RenderFirst(p, rest);
    FirstDouble(p.literal, '{', p.inner + "}}" + rest);
    FirstDouble(p.inner, '}', rest);
  }

  lemma EndingIsFound(e: Ending, variables: map<string, string>)
    requires WellFormed(Pieces([], e))
    ensures ExpandFrom(Render(Pieces([], e)), variables) == Evaluate(Pieces([], e), variables)
  {
    match e
    case Closed(literal) => NoDouble(literal, '{');
    case Open(literal, tail) =>
      FirstDouble(literal, '{', tail);
      var s := literal + "{{" + tail;
      assert s[|literal| + 2..] == tail;
      NoDouble(tail, '}');
  }

  /** Expanding a rendered template gives the literals and the values in their order, or the error of
      the first placeholder that has one. */
  lemma {:induction false} ExpandOfRenderIsEvaluate(t: Pieces, variables: map<string, string>)
    requires WellFormed(t)
    ensures ExpandFrom(Render(t), variables) == Evaluate(t, variables)
    decreases |t.pieces|
  {
    hide FindText, EndsBefore, HasDouble, Value, RenderPiece, ExpandFrom;
    if t.pieces == [] {
      EndingIsFound(t.ending, variables);
    } else {
      var rest := t.(pieces := t.pieces[1..]);
      ExpandOfRenderIsEvaluate(rest, variables);
      PieceIsFound(t.pieces[0], Render(rest));
      FirstPiece(Render(t), |t.pieces[0].literal|, |t.pieces[0].inner|, variables);
    }
  }

  /** The pieces of a template. */
  function Split(text: string): Pieces
    decreases |text|
  {
    match FindText(text, "{{")
    case None => Pieces([], Closed(text))
    case Some(i) =>
      match FindText(text[i + 2..], "}}")
      case None => Pieces([], Open(text[..i], text[i + 2..]))
      case Some(j) =>
        var rest := Split(text[i + 2..][j + 2..]);
        rest.(pieces := [Piece(text[..i], text[i + 2..][..j])] + rest.pieces)
  }

  lemma SplitFirst(text: string, i: nat, j: nat)
    requires FindText(text, "{{") == Some(i) && FindText(text[i + 2..], "}}") == Some(j)
    requires var rest := text[i + 2..][j + 2..]; WellFormed(Split(rest)) && Render(Split(rest)) == rest
    ensures WellFormed(Split(text)) && Render(Split(text)) == text
  {
    hide FindText, EndsBefore, HasDouble, RenderPiece, Render, Split;
    var after := text[i + 2..];
    var first, rest := Piece(text[..i], after[..j]), Split(after[j + 2..]);
    BeforeFirstDouble(text, '{');
    BeforeFirstDouble(after, '}');
    SplitIs(text, i, j);
    assert text == RenderPiece(first) + after[j + 2..] by {
      RenderFirst(first, after[j + 2..]);
    }
    RenderWithFirst(first, rest);
  }

  lemma SplitIs(text: string, i: nat, j: nat)
    requires FindText(text, "{{") == Some(i) && FindText(text[i + 2..], "}}") == Some(j)
    ensures var rest := Split(text[i + 2..][j + 2..]);
      Split(text) == rest.(pieces := [Piece(text[..i], text[i + 2..][..j])] + rest.pieces)
  {
    hide FindText;
  }

  lemma RenderWithFirst(first: Piece, rest: Pieces)
    ensures Render(rest.(pieces := [first] + rest.pieces)) == RenderPiece(first) + Render(rest)
  {
    assert ([first] + rest.pieces)[1..] == rest.pieces;
  }

  lemma SplitOfRendered(first: Piece, rest: string)
    requires EndsBefore(first.literal, '{') && EndsBefore(first.inner, '}')
    ensures Split(RenderPiece(first) + rest) == Split(rest).(pieces := [first] + Split(rest).pieces)
  {
    hide FindText, EndsBefore, RenderPiece;
    PieceIsFound(first, rest);
  }

  lemma SplitUnclosed(text: string, i: nat)
    requires FindText(text, "{{") == Some(i) && FindText(text[i + 2..], "}}") == None
    ensures WellFormed(Split(text)) && Render(Split(text)) == text
  {
    hide FindText, EndsBefore, HasDouble;
    BeforeFirstDouble(text, '{');
    NoDouble(text[i + 2..], '}');
  }

  /** Every template is a list of pieces. */
  lemma {:induction false} EveryTemplateIsPieces(text: string)
    ensures WellFormed(Split(text)) && Render(Split(text)) == text
    decreases |text|
  {
    hide FindText, EndsBefore, HasDouble, WellFormed, Render, Split;
    var open := FindText(text, "{{");
    if open.Some? {
      var after := text[open.value + 2..];
      var close := FindText(after, "}}");
      if close.Some? {
        EveryTemplateIsPieces(after[close.value + 2..]);
        SplitFirst(text, open.value, close.value);
      } else {
        SplitUnclosed(text, open.value);
      }
    } else {
      SplitPlain(text);
    }
  }

  lemma SplitPlain(text: string)
    requires FindText(text, "{{") == None
    ensures WellFormed(Split(text)) && Render(Split(text)) == text
  {
    NoDouble(text, '{');
  }

  /** For every template: the result is its pieces evaluated, if that is not too long. */
  lemma ExpandIsEvaluate(template: string, variables: map<string, string>, maxBytes: nat)
    ensures Expand(template, variables, maxBytes) == Limited(Evaluate(Split(template), variables), maxBytes)
  {
    EveryTemplateIsPieces(template);
    ExpandOfRenderIsEvaluate(Split(template), variables);
  }

  /** A template has only one reading. */
  lemma {:induction false} PiecesAreUnique(t: Pieces)
    requires WellFormed(t)
    ensures Split(Render(t)) == t
    decreases |t.pieces|
  {
    hide FindText, EndsBefore, HasDouble, RenderPiece, Split;
    if t.pieces == [] {
      EndingIsSplit(t.ending);
    } else {
      var rest := t.(pieces := t.pieces[1..]);
      PiecesAreUnique(rest);
      SplitOfRendered(t.pieces[0], Render(rest));
      assert [t.pieces[0]] + rest.pieces == t.pieces;
    }
  }

  lemma EndingIsSplit(e: Ending)
    requires WellFormed(Pieces([], e))
    ensures Split(Render(Pieces([], e))) == Pieces([], e)
  {
    match e
    case Closed(literal) => NoDouble(literal, '{');
    case Open(literal, tail) =>
      FirstDouble(literal, '{', tail);
      var s := literal + "{{" + tail;
      assert s[..|literal|] == literal && s[|literal| + 2..] == tail;
      NoDouble(tail, '}');
  }

  /** Whether a template expands: every placeholder is closed and names a known variable, and the
      result fits. */
  lemma {:induction false} EvaluatesExactlyWhenKnown(t: Pieces, variables: map<string, string>)
    ensures Evaluate(t, variables).Ok? <==>
      t.ending.Closed? && forall p | p in t.pieces :: Trim(p.inner) != [] && Trim(p.inner) in variables
    decreases |t.pieces|
  {
    if t.pieces != [] {
      var rest := t.(pieces := t.pieces[1..]);
      EvaluatesExactlyWhenKnown(rest, variables);
      assert forall p | p in t.pieces :: p == t.pieces[0] || p in rest.pieces;
    }
  }
}
