/**
 * The subset of Python's `str.format` that the translation strings use:
 * automatically numbered `{}` fields and the `{{`/`}}` escapes.
 */
module StrFormat {
  import opened Results

  /** The ways `str.format` fails on the strings the model covers. */
  datatype FormatError =
    | SingleBrace       // a lone `{` at the end or a lone `}` (ValueError)
    | UnsupportedField  // a field other than `{}`: numbered, named or with a format spec
    | IndexOutOfRange   // more `{}` fields than arguments (IndexError)

  function Prepend(prefix: string, r: Result<string, FormatError>): Result<string, FormatError> {
    match r
    case Ok(s) => Ok(prefix + s)
    case Err(e) => Err(e)
  }

  /**
   * `s.format(*args)` where `{}` takes the next argument, `{{` and `}}` stand
   * for one brace, and the arguments are already rendered as strings; `next`
   * is the index of the next automatically numbered argument.
   */
  function FormatFrom(s: string, args: seq<string>, next: nat): Result<string, FormatError>
    decreases |s|
  {
    if |s| == 0 then Ok("")
    else if s[0] == '{' then
      if |s| == 1 then Err(SingleBrace)
      else if s[1] == '{' then Prepend("{", FormatFrom(s[2..], args, next))
      else if s[1] == '}' then
        if next < |args| then Prepend(args[next], FormatFrom(s[2..], args, next + 1))
        else Err(IndexOutOfRange)
      else Err(UnsupportedField)
    else if s[0] == '}' then
      if |s| >= 2 && s[1] == '}' then Prepend("}", FormatFrom(s[2..], args, next))
      else Err(SingleBrace)
    else Prepend([s[0]], FormatFrom(s[1..], args, next))
  }

  function Format(s: string, args: seq<string>): Result<string, FormatError> {
    FormatFrom(s, args, 0)
  }

  /** `s` uses braces only as `{}` fields and `{{`/`}}` escapes. */
  predicate IsTemplate(s: string)
    decreases |s|
  {
    if |s| == 0 then true
    else if s[0] == '{' then |s| >= 2 && (s[1] == '{' || s[1] == '}') && IsTemplate(s[2..])
    else if s[0] == '}' then |s| >= 2 && s[1] == '}' && IsTemplate(s[2..])
    else IsTemplate(s[1..])
  }

  /** The number of `{}` fields of a template. */
  function FieldCount(s: string): nat
    decreases |s|
  {
    if |s| < 2 then 0
    else if s[0] == '{' && s[1] == '}' then 1 + FieldCount(s[2..])
    else if (s[0] == '{' && s[1] == '{') || (s[0] == '}' && s[1] == '}') then FieldCount(s[2..])
    else FieldCount(s[1..])
  }

  /** Formatting a template fails exactly when it has more `{}` fields than there are arguments left. */
  lemma {:induction false} FormatTemplateSucceeds(s: string, args: seq<string>, next: nat)
    requires IsTemplate(s) && next <= |args|
    ensures FormatFrom(s, args, next).Ok? <==> FieldCount(s) <= |args| - next
    ensures FormatFrom(s, args, next).Err? ==> FormatFrom(s, args, next).error == IndexOutOfRange
    decreases |s|
  {
    if |s| == 0 {
    } else if s[0] == '{' {
      if s[1] == '{' {
        FormatTemplateSucceeds(s[2..], args, next);
      } else if next < |args| {
        FormatTemplateSucceeds(s[2..], args, next + 1);
      }
    } else if s[0] == '}' {
      FormatTemplateSucceeds(s[2..], args, next);
    } else {
      FormatTemplateSucceeds(s[1..], args, next);
      assert FieldCount(s) == FieldCount(s[1..]);
    }
  }

  /** A string without braces formats to itself, whatever the arguments. */
  lemma {:induction false} FormatPlainText(s: string, args: seq<string>, next: nat)
    requires '{' !in s && '}' !in s
    ensures FormatFrom(s, args, next) == Ok(s)
    decreases |s|
  {
    if |s| > 0 {
      assert s == [s[0]] + s[1..];
      FormatPlainText(s[1..], args, next);
    }
  }

  /** `s` contains no brace at all. */
  predicate NoBraces(s: string) {
    '{' !in s && '}' !in s
  }

  /** `p` is the two characters `{}`. */
  predicate IsField(p: string) {
    |p| == 2 && p[0] == '{' && p[1] == '}'
  }

  /** Every piece is a `{}` field or text without braces. */
  predicate WellCut(pieces: seq<string>) {
    |pieces| == 0 || ((IsField(pieces[0]) || NoBraces(pieces[0])) && WellCut(pieces[1..]))
  }

  function Concat(pieces: seq<string>): string {
    if |pieces| == 0 then "" else pieces[0] + Concat(pieces[1..])
  }

  /** The number of pieces that are a `{}` field. */
  function FieldPieces(pieces: seq<string>): nat {
    if |pieces| == 0 then 0 else (if IsField(pieces[0]) then 1 else 0) + FieldPieces(pieces[1..])
  }

  lemma {:induction false} NoBracesTemplate(s: string)
    requires NoBraces(s)
    ensures IsTemplate(s) && FieldCount(s) == 0
    decreases |s|
  {
    if |s| > 0 {
      assert s[1..] == s[1..] && s[0] in s;
      assert forall c :: c in s[1..] ==> c in s;
      NoBracesTemplate(s[1..]);
    }
  }

  /** Templates compose: the fields of `a + b` are those of `a` followed by those of `b`. */
  lemma {:induction false} TemplateAppend(a: string, b: string)
    requires IsTemplate(a) && IsTemplate(b)
    ensures IsTemplate(a + b) && FieldCount(a + b) == FieldCount(a) + FieldCount(b)
    decreases |a|
  {
    if |a| == 0 {
      assert a + b == b;
    } else if a[0] == '{' || a[0] == '}' {
      assert (a + b)[2..] == a[2..] + b;
      TemplateAppend(a[2..], b);
    } else {
      assert (a + b)[1..] == a[1..] + b;
      TemplateAppend(a[1..], b);
      if |a| == 1 {
        assert FieldCount(a) == 0;
      }
    }
  }

  /** A string cut into brace-free pieces and `{}` fields is a template with one field per `{}` piece. */
  lemma {:induction false} Pieces(pieces: seq<string>)
    requires WellCut(pieces)
    ensures IsTemplate(Concat(pieces)) && FieldCount(Concat(pieces)) == FieldPieces(pieces)
    decreases |pieces|
  {
    if |pieces| > 0 {
      Pieces(pieces[1..]);
      if IsField(pieces[0]) {
        assert pieces[0] == "{}";
        assert IsTemplate("{}") && FieldCount("{}") == 1;
      } else {
        NoBracesTemplate(pieces[0]);
      }
      TemplateAppend(pieces[0], Concat(pieces[1..]));
    }
  }

  /** How a sequence of pieces reads once its `{}` pieces are replaced by the arguments from `next` on. */
  function Fill(pieces: seq<string>, args: seq<string>, next: nat): string
    requires FieldPieces(pieces) <= |args| - next
    decreases |pieces|
  {
    if |pieces| == 0 then ""
    else if IsField(pieces[0]) then args[next] + Fill(pieces[1..], args, next + 1)
    else pieces[0] + Fill(pieces[1..], args, next)
  }

  function Then(first: Result<string, FormatError>, rest: Result<string, FormatError>): Result<string, FormatError> {
    match first
    case Ok(s) => Prepend(s, rest)
    case Err(e) => Err(e)
  }

  lemma PrependThen(prefix: string, first: Result<string, FormatError>, rest: Result<string, FormatError>)
    ensures Prepend(prefix, Then(first, rest)) == Then(Prepend(prefix, first), rest)
  {
    if first.Ok? && rest.Ok? {
      assert prefix + (first.value + rest.value) == (prefix + first.value) + rest.value;
    }
  }

  /** Formatting a template followed by more text formats the template, then the rest with the arguments it left. */
  lemma {:induction false} FormatAppend(a: string, b: string, args: seq<string>, next: nat)
    requires IsTemplate(a)
    ensures FormatFrom(a + b, args, next) == Then(FormatFrom(a, args, next), FormatFrom(b, args, next + FieldCount(a)))
    decreases |a|, 1
  {
    if |a| == 0 {
      assert a + b == b;
      var rest := FormatFrom(b, args, next);
      if rest.Ok? {
        assert "" + rest.value == rest.value;
      }
    } else if a[0] == '{' || a[0] == '}' {
      FormatAppendPair(a, b, args, next);
    } else {
      FormatAppendChar(a, b, args, next);
    }
  }

  /** `FormatAppend` for a template that starts with `{}`, `{{` or `}}`. */
  lemma {:induction false} FormatAppendPair(a: string, b: string, args: seq<string>, next: nat)
    requires IsTemplate(a) && |a| > 0 && (a[0] == '{' || a[0] == '}')
    ensures FormatFrom(a + b, args, next) == Then(FormatFrom(a, args, next), FormatFrom(b, args, next + FieldCount(a)))
    decreases |a|, 0
  {
    assert (a + b)[2..] == a[2..] + b;
    if a[0] == '{' && a[1] == '}' {
      if next < |args| {
        FormatAppend(a[2..], b, args, next + 1);
        PrependThen(args[next], FormatFrom(a[2..], args, next + 1), FormatFrom(b, args, next + FieldCount(a)));
      }
    } else {
      FormatAppend(a[2..], b, args, next);
      assert FieldCount(a) == FieldCount(a[2..]);
      PrependThen(if a[0] == '{' then "{" else "}", FormatFrom(a[2..], args, next), FormatFrom(b, args, next + FieldCount(a)));
    }
  }

  /** `FormatAppend` for a template that starts with a character other than a brace. */
  lemma {:induction false} FormatAppendChar(a: string, b: string, args: seq<string>, next: nat)
    requires IsTemplate(a) && |a| > 0 && a[0] != '{' && a[0] != '}'
    ensures FormatFrom(a + b, args, next) == Then(FormatFrom(a, args, next), FormatFrom(b, args, next + FieldCount(a)))
    decreases |a|, 0
  {
    assert (a + b)[1..] == a[1..] + b;
    FormatAppend(a[1..], b, args, next);
    assert FieldCount(a) == FieldCount(a[1..]);
    PrependThen([a[0]], FormatFrom(a[1..], args, next), FormatFrom(b, args, next + FieldCount(a)));
  }

  /** `{}` fields are replaced by the arguments in order, and the text between them is kept. */
  lemma {:induction false} FormatFills(pieces: seq<string>, args: seq<string>, next: nat)
    requires WellCut(pieces)
    requires FieldPieces(pieces) <= |args| - next
    ensures FormatFrom(Concat(pieces), args, next) == Ok(Fill(pieces, args, next))
    decreases |pieces|
  {
    if |pieces| > 0 {
      var rest := Concat(pieces[1..]);
      if IsField(pieces[0]) {
        assert pieces[0] == "{}";
        assert IsTemplate("{}") && FieldCount("{}") == 1;
        FormatAppend("{}", rest, args, next);
        FormatFills(pieces[1..], args, next + 1);
      } else {
        NoBracesTemplate(pieces[0]);
        FormatPlainText(pieces[0], args, next);
        FormatAppend(pieces[0], rest, args, next);
        FormatFills(pieces[1..], args, next);
      }
    }
  }
}
