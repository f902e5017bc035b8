/** Positional template substitution, as `str.format(*args)` performs it on the
    translation templates of the store: `{}` takes the next argument, `{{` and `}}`
    stand for a literal brace, and anything else in braces, an unmatched brace or a
    missing argument makes the substitution fail. */
module Template {

  datatype Option<+T> = None | Some(value: T)

  /** `p` in front of the string `o` holds; a failure stays a failure. */
  function Prepend(p: string, o: Option<string>): Option<string>
  {
    match o
    case None => None
    case Some(s) => Some(p + s)
  }

  /** Scans `t` left to right; the next `{}` field takes `args[next]`. */
  function FormatFrom(t: string, args: seq<string>, next: nat): Option<string>
    decreases |t|
  {
    if t == [] then Some("")
    else if t[0] == '{' then
      if |t| > 1 && t[1] == '{' then Prepend("{", FormatFrom(t[2..], args, next))
      else if |t| > 1 && t[1] == '}' then
        if next < |args| then Prepend(args[next], FormatFrom(t[2..], args, next + 1)) else None
      else None
    else if t[0] == '}' then
      if |t| > 1 && t[1] == '}' then Prepend("}", FormatFrom(t[2..], args, next)) else None
    else Prepend([t[0]], FormatFrom(t[1..], args, next))
  }

  // ---------------------------------------------------------------------------
  // A reference description of templates: a template is a list of literal
  // pieces, escaped, with one `{}` between each two of them.
  // ---------------------------------------------------------------------------

  /** Every brace of `t` belongs to a `{{`, a `}}` or an empty field `{}`. */
  predicate WellFormed(t: string)
    decreases |t|
  {
    if t == [] then true
    else if t[0] == '{' || t[0] == '}' then
      |t| > 1 && (t[1] == t[0] || (t[0] == '{' && t[1] == '}')) && WellFormed(t[2..])
    else WellFormed(t[1..])
  }

  /** The number of `{}` fields of `t`, counted in the same left-to-right reading. */
  function Fields(t: string): nat
    decreases |t|
  {
    if t == [] then 0
    else if |t| > 1 && t[0] == '{' && t[1] == '}' then 1 + Fields(t[2..])
    else if |t| > 1 && (t[0] == '{' || t[0] == '}') && t[1] == t[0] then Fields(t[2..])
    else Fields(t[1..])
  }

  function EscapeChar(c: char): string
  {
    if c == '{' then "{{" else if c == '}' then "}}" else [c]
  }

  /** The template whose only piece is the literal text `s`. */
  function Escape(s: string): string
  {
    if s == [] then [] else EscapeChar(s[0]) + Escape(s[1..])
  }

  /** The template with the literal pieces `lits` and a field between each two. */
  function Compose(lits: seq<string>): string
    requires |lits| >= 1
  {
    if |lits| == 1 then Escape(lits[0]) else Escape(lits[0]) + "{}" + Compose(lits[1..])
  }

  /** The literal pieces of a well-formed template, braces unescaped. */
  function Split(t: string): (lits: seq<string>)
    requires WellFormed(t)
    ensures |lits| == Fields(t) + 1
    decreases |t|
  {
    if t == [] then [""]
    else if t[0] == '{' && t[1] == '}' then [""] + Split(t[2..])
    else
      var n := if t[0] == '{' || t[0] == '}' then 2 else 1;
      var rest := Split(t[n..]);
      [[t[0]] + rest[0]] + rest[1..]
  }

  /** The pieces `lits` with the arguments put between them, in order. */
  function Interleave(lits: seq<string>, args: seq<string>): string
    requires |lits| >= 1 && |args| >= |lits| - 1
  {
    if |lits| == 1 then lits[0] else lits[0] + args[0] + Interleave(lits[1..], args[1..])
  }

  /** `str.format(*args)` on auto-numbered fields: `None` is the exception the
      Python call raises. It succeeds exactly on a well-formed template with no
      more fields than arguments, and then fills the fields with the arguments
      in order; surplus arguments are ignored. */
  function Format(t: string, args: seq<string>): (r: Option<string>)
    ensures r.Some? <==> WellFormed(t) && Fields(t) <= |args|
    ensures r.Some? ==> r.value == Interleave(Split(t), args)
  {
    FormatCharacterized(t, args);
    FormatFrom(t, args, 0)
  }

  // ---------------------------------------------------------------------------
  // Lemmas
  // ---------------------------------------------------------------------------

  lemma {:induction false} EscapeConcat(a: string, b: string)
    ensures Escape(a + b) == Escape(a) + Escape(b)
  {
    if a != [] {
      assert (a + b)[0] == a[0] && (a + b)[1..] == a[1..] + b;
      EscapeConcat(a[1..], b);
    } else {
      assert a + b == b;
    }
  }

  /** An escaped literal in front of the rest of a template comes out verbatim. */
  lemma {:induction false} FormatEscapePrefix(s: string, rest: string, args: seq<string>, next: nat)
    ensures FormatFrom(Escape(s) + rest, args, next) == Prepend(s, FormatFrom(rest, args, next))
  {
    if s == [] {
      assert Escape(s) + rest == rest;
      match FormatFrom(rest, args, next)
      case None =>
      case Some(x) => assert s + x == x;
    } else {
      var c := s[0];
      var tail := Escape(s[1..]) + rest;
      assert Escape(s) + rest == EscapeChar(c) + tail;
      FormatEscapePrefix(s[1..], rest, args, next);
      var t := EscapeChar(c) + tail;
      if c == '{' || c == '}' {
        assert t[0] == c && t[1] == c && t[2..] == tail;
      } else {
        assert t[0] == c && t[1..] == tail;
      }
      match FormatFrom(rest, args, next)
      case None =>
      case Some(x) => assert [c] + (s[1..] + x) == s + x;
    }
  }

  /** A literal text with its braces doubled formats back to itself, whatever the arguments. */
  lemma EscapeRoundTrip(s: string, args: seq<string>)
    ensures Format(Escape(s), args) == Some(s)
  {
    FormatEscapePrefix(s, "", args, 0);
    assert Escape(s) + "" == Escape(s);
    assert s + "" == s;
  }

  /** Text without braces is its own template, and formatting leaves it unchanged. */
  lemma {:induction false} EscapePlain(s: string)
    requires '{' !in s && '}' !in s
    ensures Escape(s) == s
  {
    if s != [] {
      assert s[0] in s;
      assert forall c :: c in s[1..] ==> c in s;
      EscapePlain(s[1..]);
    }
  }

  lemma FormatPlain(s: string, args: seq<string>)
    requires '{' !in s && '}' !in s
    ensures Format(s, args) == Some(s)
  {
    EscapePlain(s);
    EscapeRoundTrip(s, args);
  }

  /** Formatting a composed template fills its fields in order from `args[next..]`,
      and fails when there are fewer arguments left than fields. */
  lemma {:induction false} FormatComposed(lits: seq<string>, args: seq<string>, next: nat)
    requires |lits| >= 1 && next <= |args|
    ensures FormatFrom(Compose(lits), args, next) ==
            if next + |lits| - 1 <= |args| then Some(Interleave(lits, args[next..])) else None
  {
    if |lits| == 1 {
      FormatEscapePrefix(lits[0], "", args, next);
      assert Escape(lits[0]) + "" == Escape(lits[0]);
      assert lits[0] + "" == lits[0];
    } else {
      var rest := Compose(lits[1..]);
      var field := "{}" + rest;
      assert Compose(lits) == Escape(lits[0]) + field;
      FormatEscapePrefix(lits[0], field, args, next);
      assert field[0] == '{' && field[1] == '}' && field[2..] == rest;
      if next < |args| {
        FormatComposed(lits[1..], args, next + 1);
        if next + |lits| - 1 <= |args| {
          var a := args[next..];
          assert a[0] == args[next] && a[1..] == args[next + 1..];
          var tailText := Interleave(lits[1..], args[next + 1..]);
          assert lits[0] + (args[next] + tailText) == lits[0] + args[next] + tailText;
        }
      }
    }
  }

  /** Prepending a literal to the first piece of a list of pieces prepends its escape. */
  lemma {:induction false} ComposeHead(p: string, lits: seq<string>)
    requires |lits| >= 1
    ensures Compose([p + lits[0]] + lits[1..]) == Escape(p) + Compose(lits)
  {
    var lits' := [p + lits[0]] + lits[1..];
    assert lits'[0] == p + lits[0] && lits'[1..] == lits[1..] && |lits'| == |lits|;
    EscapeConcat(p, lits[0]);
    if |lits| > 1 {
      var tail := "{}" + Compose(lits[1..]);
      assert Compose(lits') == Escape(p + lits[0]) + tail;
      assert Compose(lits) == Escape(lits[0]) + tail;
      assert (Escape(p) + Escape(lits[0])) + tail == Escape(p) + (Escape(lits[0]) + tail);
    }
  }

  /** Every well-formed template is the composition of its pieces. */
  lemma {:induction false} ComposeSplit(t: string)
    requires WellFormed(t)
    ensures Compose(Split(t)) == t
    decreases |t|
  {
    if t == [] {
    } else if t[0] == '{' && t[1] == '}' {
      ComposeSplit(t[2..]);
      var lits := [""] + Split(t[2..]);
      assert lits[0] == "" && lits[1..] == Split(t[2..]);
      assert t == "{}" + t[2..];
    } else {
      var n := if t[0] == '{' || t[0] == '}' then 2 else 1;
      var rest := Split(t[n..]);
      ComposeSplit(t[n..]);
      ComposeHead([t[0]], rest);
      assert Escape([t[0]]) == EscapeChar(t[0]) + Escape([]);
      assert t == t[..n] + t[n..];
      assert t[..n] == EscapeChar(t[0]);
    }
  }

  /** One escaped character in front of a well-formed template joins its first piece. */
  lemma SplitEscapeChar(c: char, rest: string)
    requires WellFormed(rest)
    ensures WellFormed(EscapeChar(c) + rest)
    ensures Split(EscapeChar(c) + rest) == [[c] + Split(rest)[0]] + Split(rest)[1..]
  {
  }

  /** `Escape(s) + rest` unfolded by one character. */
  lemma EscapeUnfold(s: string, rest: string)
    requires s != []
    ensures Escape(s) + rest == EscapeChar(s[0]) + (Escape(s[1..]) + rest)
  {
  }

  /** Putting a string's first character back in front of its tail. */
  lemma ConsPiece(c: char, s: string, x: string)
    requires s != [] && s[0] == c
    ensures [c] + (s[1..] + x) == s + x
  {
  }

  lemma {:induction false} SplitEscapePrefix(s: string, rest: string)
    requires WellFormed(rest)
    ensures WellFormed(Escape(s) + rest)
    ensures Split(Escape(s) + rest) == [s + Split(rest)[0]] + Split(rest)[1..]
  {
    if s == [] {
      assert Escape(s) + rest == rest;
      assert s + Split(rest)[0] == Split(rest)[0];
    } else {
      var tail := Escape(s[1..]) + rest;
      SplitEscapePrefix(s[1..], rest);
      SplitEscapeChar(s[0], tail);
      EscapeUnfold(s, rest);
      ConsPiece(s[0], s, Split(rest)[0]);
    }
  }

  /** The pieces of a composed template are the pieces it was composed from. */
  lemma {:induction false} SplitCompose(lits: seq<string>)
    requires |lits| >= 1
    ensures WellFormed(Compose(lits)) && Split(Compose(lits)) == lits
  {
    if |lits| == 1 {
      SplitEscapePrefix(lits[0], "");
      assert Escape(lits[0]) + "" == Escape(lits[0]);
      assert lits[0] + "" == lits[0];
    } else {
      SplitCompose(lits[1..]);
      var rest := Compose(lits[1..]);
      var field := "{}" + rest;
      assert field[0] == '{' && field[1] == '}' && field[2..] == rest;
      assert WellFormed(field);
      assert Split(field) == [""] + lits[1..];
      SplitEscapePrefix(lits[0], field);
      assert Compose(lits) == Escape(lits[0]) + field;
      assert lits[0] + "" == lits[0];
    }
  }

  /** Scanning an ill-formed template always raises. */
  lemma {:induction false} FormatIllFormed(t: string, args: seq<string>, next: nat)
    requires !WellFormed(t)
    ensures FormatFrom(t, args, next) == None
    decreases |t|
  {
    if t[0] == '{' || t[0] == '}' {
      if |t| > 1 && (t[1] == t[0] || (t[0] == '{' && t[1] == '}')) {
        if t[0] == '{' && t[1] == '}' {
          FormatIllFormed(t[2..], args, next + 1);
        } else {
          FormatIllFormed(t[2..], args, next);
        }
      }
    } else {
      FormatIllFormed(t[1..], args, next);
    }
  }

  /** The reference description of `format`: split the template into pieces, put
      the arguments between them; ill-formed templates and missing arguments raise. */
  lemma FormatCharacterized(t: string, args: seq<string>)
    ensures FormatFrom(t, args, 0) ==
            if WellFormed(t) && Fields(t) <= |args| then Some(Interleave(Split(t), args)) else None
  {
    if WellFormed(t) {
      ComposeSplit(t);
      FormatComposed(Split(t), args, 0);
      assert args[0..] == args;
    } else {
      FormatIllFormed(t, args, 0);
    }
  }
}
