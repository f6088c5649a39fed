/**
 * Python's `template % args` for the only directives the script's
 * templates use: `%s` with string arguments and the literal `%%`.
 */
module Percent {
  import opened Wrappers

  /** Why a `%` formatting raises. */
  datatype FormatError =
    | Incomplete          // the template ends in a lone `%`
    | Unsupported(c: char) // a directive other than `%s` or `%%`
    | TooFewArguments     // a `%s` with no argument left
    | TooManyArguments    // arguments left over at the end

  /** `template % tuple(args)`, all arguments being strings. */
  function Format(template: string, args: seq<string>): Result<string, FormatError>
    decreases |template|
  {
    if |template| == 0 then
      if |args| == 0 then Success("") else Failure(TooManyArguments)
    else if template[0] != '%' then
      var rest :- Format(template[1..], args);
      Success([template[0]] + rest)
    else if |template| == 1 then Failure(Incomplete)
    else if template[1] == '%' then
      var rest :- Format(template[2..], args);
      Success("%" + rest)
    else if template[1] == 's' then
      if |args| == 0 then Failure(TooFewArguments)
      else
        var rest :- Format(template[2..], args[1..]);
        Success(args[0] + rest)
    else Failure(Unsupported(template[1]))
  }

  /** The template whose literal pieces are `pieces`, one `%s` between each two. */
  function Template(pieces: seq<string>): string
    requires |pieces| >= 1
    decreases |pieces|
  {
    if |pieces| == 1 then pieces[0] else pieces[0] + "%s" + Template(pieces[1..])
  }

  /** The pieces with the arguments placed between them, in order. */
  function Interleave(pieces: seq<string>, args: seq<string>): string
    requires |pieces| == |args| + 1
    decreases |args|
  {
    if |args| == 0 then pieces[0] else pieces[0] + args[0] + Interleave(pieces[1..], args[1..])
  }

  /** No piece holds a `%`. */
  predicate Literal(pieces: seq<string>) {
    forall i :: 0 <= i < |pieces| ==> '%' !in pieces[i]
  }

  /** A `%`-free prefix is copied as it is. */
  lemma {:induction false} FormatPlain(p: string, t: string, args: seq<string>)
    requires '%' !in p
    ensures Format(p + t, args).Success? <==> Format(t, args).Success?
    ensures Format(p + t, args).Success? ==> Format(p + t, args).value == p + Format(t, args).value
    ensures Format(p + t, args).Failure? ==> Format(p + t, args) == Format(t, args)
    decreases |p|
  {
    if |p| > 0 {
      assert (p + t)[0] == p[0];
      assert (p + t)[1..] == p[1..] + t;
      FormatPlain(p[1..], t, args);
      assert p == [p[0]] + p[1..];
    } else {
      assert p + t == t;
    }
  }

  /** A `%s` takes the next argument. */
  lemma FormatDirective(t: string, args: seq<string>)
    requires |args| >= 1
    ensures Format("%s" + t, args).Success? <==> Format(t, args[1..]).Success?
    ensures Format("%s" + t, args).Success? ==> Format("%s" + t, args).value == args[0] + Format(t, args[1..]).value
  {
    assert ("%s" + t)[2..] == t;
  }

  /**
   * A template built from `%`-free pieces formats to the interleaving
   * exactly when there is one argument per `%s`.
   */
  lemma {:induction false} FormatTemplate(pieces: seq<string>, args: seq<string>)
    requires |pieces| >= 1 && Literal(pieces)
    ensures Format(Template(pieces), args).Success? <==> |args| == |pieces| - 1
    ensures |args| == |pieces| - 1 ==> Format(Template(pieces), args) == Success(Interleave(pieces, args))
    decreases |pieces|
  {
    var p := pieces[0];
    assert '%' !in p;
    if |pieces| == 1 {
      FormatPlain(p, "", args);
      assert p + "" == p;
    } else {
      var rest := Template(pieces[1..]);
      LiteralTail(pieces);
      TemplateCons(pieces);
      FormatPlain(p, "%s" + rest, args);
      if |args| == 0 {
        DirectiveWithoutArgument(rest);
      } else {
        FormatDirective(rest, args);
        FormatTemplate(pieces[1..], args[1..]);
        if |args| == |pieces| - 1 {
          InterleaveCons(pieces, args);
        }
      }
    }
  }

  /** The pieces after the first are `%`-free too. */
  lemma LiteralTail(pieces: seq<string>)
    requires |pieces| >= 1 && Literal(pieces)
    ensures Literal(pieces[1..])
  {
    forall i | 0 <= i < |pieces[1..]|
      ensures '%' !in pieces[1..][i]
    {
      assert pieces[1..][i] == pieces[i + 1];
    }
  }

  /** A template of two or more pieces is the first piece, a `%s`, and the template of the rest. */
  lemma TemplateCons(pieces: seq<string>)
    requires |pieces| >= 2
    ensures Template(pieces) == pieces[0] + ("%s" + Template(pieces[1..]))
  {
  }

  /** A `%s` with no argument left raises. */
  lemma DirectiveWithoutArgument(rest: string)
    ensures Format("%s" + rest, []) == Failure(TooFewArguments)
  {
    assert ("%s" + rest)[0] == '%' && ("%s" + rest)[1] == 's';
  }

  /** The interleaving is the first piece, the first argument, and the interleaving of the rest. */
  lemma InterleaveCons(pieces: seq<string>, args: seq<string>)
    requires |pieces| == |args| + 1 && |args| >= 1
    ensures Interleave(pieces, args) == pieces[0] + (args[0] + Interleave(pieces[1..], args[1..]))
  {
  }
}
