/** The {token} templates for item paths and list queries: parsing and rendering. */
module UrlTemplate {
  import opened Wrappers
  import opened PercentEncoding

  datatype Context = Item | ListQuery

  datatype Segment = Literal(text: string) | Variable(token: string)

  const DELETE := '\U{007F}'

  function Vocabulary(context: Context): seq<string> {
    match context
    case Item => ["basePath", "id"]
    case ListQuery => ["since", "limit", "cursorField"]
  }

  predicate Illegal(c: char) { c in ['"', '<', '>', '`', '#'] || c < ' ' || c >= DELETE }

  // ---- the lexer --------------------------------------------------------------------------------

  function Flush(literal: string): seq<Segment> { if literal == "" then [] else [Literal(literal)] }

  function Prepend(segments: seq<Segment>, r: Result<seq<Segment>>): Result<seq<Segment>> {
    match r
    case Ok(rest) => Ok(segments + rest)
    case Err => Err
  }

  /** The first position of a closing brace, or the length. */
  function FindClose(s: string): (n: nat)
    ensures n <= |s|
    ensures n < |s| ==> s[n] == '}'
    ensures forall k :: 0 <= k < n ==> s[k] != '}'
  {
    if s == "" || s[0] == '}' then 0 else 1 + FindClose(s[1..])
  }

  predicate StartsEscape(s: string) { |s| > 2 && HexDigit(s[1]) && HexDigit(s[2]) }

  /** The segments of the remaining text, with a literal already begun. */
  function Lexed(s: string, literal: string, context: Context): Result<seq<Segment>>
    decreases |s|
  {
    if s == "" then Ok(Flush(literal))
    else if s[0] == '{' then
      if |s| > 1 && s[1] == '{' then Lexed(s[2..], literal + "{", context)
      else
        var close := FindClose(s[1..]) + 1;
        if close == |s| || s[1..close] !in Vocabulary(context) then Err
        else Prepend(Flush(literal) + [Variable(s[1..close])], Lexed(s[close + 1..], "", context))
    else if s[0] == '}' then
      if |s| > 1 && s[1] == '}' then Lexed(s[2..], literal + "}", context) else Err
    else if Illegal(s[0]) || (s[0] == '%' && !StartsEscape(s)) then Err
    else Lexed(s[1..], literal + [s[0]], context)
  }

  function Parsed(raw: string, context: Context): Result<seq<Segment>> { Lexed(raw, "", context) }

  // ---- its inverse ------------------------------------------------------------------------------

  function Doubled(text: string): string {
    if text == "" then ""
    else (if text[0] in ['{', '}'] then [text[0], text[0]] else [text[0]]) + Doubled(text[1..])
  }

  function Spelled(segment: Segment): string {
    match segment
    case Literal(text) => Doubled(text)
    case Variable(token) => "{" + token + "}"
  }

  function Unlexed(segments: seq<Segment>): string {
    if segments == [] then "" else Spelled(segments[0]) + Unlexed(segments[1..])
  }

  /** What a literal may hold as it is: printable ASCII but for five characters. */
  predicate Plain(c: char) { ' ' <= c <= '~' && c != '"' && c != '#' && c != '<' && c != '>' && c != '`' }

  lemma PlainIff(c: char)
    ensures Plain(c) <==> !Illegal(c)
  {}

  predicate LegalText(text: string) { (forall c <- text :: Plain(c)) && Escapes(text) }

  /** The variables a template may name: two in an item path, three in a list query. */
  predicate Known(token: string, context: Context) {
    match context
    case Item => token == "basePath" || token == "id"
    case ListQuery => token == "since" || token == "limit" || token == "cursorField"
  }

  lemma KnownIff(token: string, context: Context)
    ensures Known(token, context) <==> token in Vocabulary(context)
  {}

  predicate LegalSegment(segment: Segment, context: Context) {
    match segment
    case Literal(text) => text != "" && LegalText(text)
    case Variable(token) => Known(token, context)
  }

  /** Literals are legal, not empty and never side by side; variables are known. */
  predicate Canonical(segments: seq<Segment>, context: Context) {
    && (forall segment <- segments :: LegalSegment(segment, context))
    && (forall i :: 0 < i < |segments| ==> segments[i - 1].Variable? || segments[i].Variable?)
  }

  lemma Cat(a: string, b: string, c: string)
    ensures a + b + c == a + (b + c)
  {}

  lemma {:induction false} DoubledAppend(a: string, c: char)
    ensures Doubled(a + [c]) == Doubled(a) + if c in ['{', '}'] then [c, c] else [c]
  {
    var d := if c in ['{', '}'] then [c, c] else [c];
    if a == "" {
      assert a + [c] == [c];
      assert Doubled([c][1..]) == "";
    } else {
      assert (a + [c])[1..] == a[1..] + [c];
      DoubledAppend(a[1..], c);
      Cat(if a[0] in ['{', '}'] then [a[0], a[0]] else [a[0]], Doubled(a[1..]), d);
    }
  }

  lemma {:induction false} UnlexedAcross(a: seq<Segment>, b: seq<Segment>)
    ensures Unlexed(a + b) == Unlexed(a) + Unlexed(b)
  {
    if a == [] {
      assert a + b == b;
    } else {
      assert (a + b)[1..] == a[1..] + b;
      UnlexedAcross(a[1..], b);
    }
  }

  lemma FlushUnlexed(literal: string)
    ensures Unlexed(Flush(literal)) == Doubled(literal)
  {
    if literal != "" {
      assert Flush(literal)[1..] == [];
      assert Doubled(literal) + "" == Doubled(literal);
    }
  }

  /** Every '%' of the literal begun so far is completed by it or by what follows. */
  predicate Pending(literal: string, rest: string) {
    forall k :: 0 <= k < |literal| && literal[k] == '%' ==>
      k + 2 < |literal + rest| && HexDigit((literal + rest)[k + 1]) && HexDigit((literal + rest)[k + 2])
  }

  /** An escape cannot run over a brace, so a literal that meets one, or the end, is complete. */
  lemma PendingStops(literal: string, rest: string)
    requires Pending(literal, rest) && (rest == "" || rest[0] in ['{', '}'])
    ensures Escapes(literal)
  {
    forall k | 0 <= k < |literal| && literal[k] == '%'
      ensures k + 2 < |literal| && HexDigit(literal[k + 1]) && HexDigit(literal[k + 2])
    {
      if rest != "" { assert (literal + rest)[|literal|] == rest[0]; }
    }
  }

  lemma EscapesPend(literal: string, rest: string)
    requires Escapes(literal)
    ensures Pending(literal, rest)
  {
    forall k | 0 <= k < |literal| && literal[k] == '%'
      ensures k + 2 < |literal + rest| && HexDigit((literal + rest)[k + 1]) && HexDigit((literal + rest)[k + 2])
    {
      assert (literal + rest)[k + 1] == literal[k + 1] && (literal + rest)[k + 2] == literal[k + 2];
    }
  }

  lemma PendingStep(literal: string, s: string)
    requires Pending(literal, s) && s != "" && (s[0] == '%' ==> StartsEscape(s))
    ensures Pending(literal + [s[0]], s[1..])
  {
    var next := literal + [s[0]];
    assert next + s[1..] == literal + s;
    forall k | 0 <= k < |next| && next[k] == '%'
      ensures k + 2 < |next + s[1..]| && HexDigit((next + s[1..])[k + 1]) && HexDigit((next + s[1..])[k + 2])
    {
      if k == |literal| {
        assert (literal + s)[k + 1] == s[1] && (literal + s)[k + 2] == s[2];
      } else {
        assert literal[k] == '%';
      }
    }
  }

  lemma BraceEscapes(literal: string, c: char)
    requires Escapes(literal) && c != '%'
    ensures Escapes(literal + [c])
  {
    EscapesAcross(literal, [c]);
  }

  lemma LegalAppend(literal: string, c: char)
    requires (forall x <- literal :: Plain(x)) && !Illegal(c)
    ensures forall x <- literal + [c] :: Plain(x)
  {
    PlainIff(c);
  }

  lemma FlushCanonical(literal: string, context: Context)
    requires LegalText(literal)
    ensures Canonical(Flush(literal), context)
  {}

  lemma NothingPends(rest: string)
    ensures Pending("", rest)
  {}

  lemma CanonicalPrepend(literal: string, token: string, rest: seq<Segment>, context: Context)
    requires Canonical(rest, context) && Known(token, context) && LegalText(literal)
    ensures Canonical(Flush(literal) + [Variable(token)] + rest, context)
  {
    var head := Flush(literal) + [Variable(token)];
    var all := head + rest;
    forall i | 0 < i < |all| ensures all[i - 1].Variable? || all[i].Variable? {
      if i > |head| {
        assert all[i - 1] == rest[i - 1 - |head|] && all[i] == rest[i - |head|];
      }
    }
  }

  /** What a successful lexing says about the text that was lexed. */
  lemma {:induction false} LexedSpells(s: string, literal: string, context: Context)
    requires (forall c <- literal :: Plain(c)) && Pending(literal, s)
    ensures
      var r := Lexed(s, literal, context);
      r.Ok? ==> Canonical(r.value, context) && Unlexed(r.value) == Doubled(literal) + s
    decreases |s|
  {
    hide Canonical, Unlexed, Pending, Escapes, Vocabulary, FindClose, HexDigit, StartsEscape;
    if s == "" {
      PendingStops(literal, s);
      FlushUnlexed(literal);
      FlushCanonical(literal, context);
      assert Doubled(literal) + "" == Doubled(literal);
    } else if s[0] == '{' && !(|s| > 1 && s[1] == '{') {
      var close := FindClose(s[1..]) + 1;
      if close < |s| && s[1..close] in Vocabulary(context) {
        PendingStops(literal, s);
        NothingPends(s[close + 1..]);
        LexedSpells(s[close + 1..], "", context);
        assert Doubled("") + s[close + 1..] == s[close + 1..];
        var rest := Lexed(s[close + 1..], "", context);
        if rest.Ok? { TokenSpells(s, literal, close, rest.value, context); }
      }
    } else if s[0] in ['{', '}'] {
      if |s| > 1 && s[1] == s[0] {
        PendingStops(literal, s);
        BraceEscapes(literal, s[0]);
        EscapesPend(literal + [s[0]], s[2..]);
        LegalAppend(literal, s[0]);
        LexedSpells(s[2..], literal + [s[0]], context);
        DoubledAppend(literal, s[0]);
        Cat(Doubled(literal), [s[0], s[0]], s[2..]);
        assert [s[0], s[0]] + s[2..] == s;
      }
    } else if !Illegal(s[0]) && (s[0] == '%' ==> StartsEscape(s)) {
      PendingStep(literal, s);
      LegalAppend(literal, s[0]);
      LexedSpells(s[1..], literal + [s[0]], context);
      DoubledAppend(literal, s[0]);
      Cat(Doubled(literal), [s[0]], s[1..]);
      assert [s[0]] + s[1..] == s;
    }
  }

  lemma TokenSpells(s: string, literal: string, close: nat, rest: seq<Segment>, context: Context)
    requires 0 < close < |s| && s[0] == '{' && s[close] == '}' && s[1..close] in Vocabulary(context)
    requires LegalText(literal) && Canonical(rest, context) && Unlexed(rest) == s[close + 1..]
    ensures
      var all := Flush(literal) + [Variable(s[1..close])] + rest;
      Canonical(all, context) && Unlexed(all) == Doubled(literal) + s
  {
    var token := s[1..close];
    var after := s[close + 1..];
    KnownIff(token, context);
    CanonicalPrepend(literal, token, rest, context);
    UnlexedToken(literal, token, rest);
    SpellingSplits(s, close);
    Cat(Doubled(literal), "{" + token + "}", after);
  }

  lemma SpellingSplits(s: string, close: nat)
    requires 0 < close < |s| && s[0] == '{' && s[close] == '}'
    ensures "{" + s[1..close] + "}" + s[close + 1..] == s
  {}

  lemma UnlexedToken(literal: string, token: string, rest: seq<Segment>)
    ensures Unlexed(Flush(literal) + [Variable(token)] + rest) == Doubled(literal) + ("{" + token + "}") + Unlexed(rest)
  {
    var v := [Variable(token)];
    UnlexedAcross(Flush(literal) + v, rest);
    UnlexedAcross(Flush(literal), v);
    FlushUnlexed(literal);
    assert v[1..] == [];
    assert Spelled(v[0]) + "" == Spelled(v[0]);
  }

  lemma {:induction false} CloseIsFirst(token: string, rest: string)
    requires '}' !in token
    ensures FindClose(token + "}" + rest) == |token|
  {
    var s := token + "}" + rest;
    assert s[|token|] == '}';
    forall k | 0 <= k < |token| ensures s[k] != '}' { assert s[k] == token[k] && token[k] in token; }
  }

  lemma TokensArePlain(token: string, context: Context)
    requires token in Vocabulary(context)
    ensures token != "" && '{' !in token && '}' !in token
  {}

  lemma {:induction false} VariableLexes(token: string, rest: string, literal: string, context: Context)
    requires Known(token, context)
    ensures Lexed("{" + token + "}" + rest, literal, context)
         == Prepend(Flush(literal) + [Variable(token)], Lexed(rest, "", context))
  {
    KnownIff(token, context);
    TokensArePlain(token, context);
    VariableText(token, rest);
    hide Known, Vocabulary, FindClose, Illegal, StartsEscape, Flush;
    var s := "{" + token + "}" + rest;
    assert s[..1] == "{";
  }

  lemma VariableText(token: string, rest: string)
    requires token != "" && '{' !in token && '}' !in token
    ensures
      var s := "{" + token + "}" + rest;
      && |s| > |token| + 1 && s[0] == '{' && s[1] != '{' && FindClose(s[1..]) == |token|
      && s[1..|token| + 1] == token && s[|token| + 2..] == rest
  {
    hide FindClose;
    var s := "{" + token + "}" + rest;
    assert s[1..] == token + "}" + rest;
    CloseIsFirst(token, rest);
    assert s[1] == token[0] && token[0] in token;
  }

  lemma {:induction false} LiteralLexes(text: string, rest: string, literal: string, context: Context)
    requires (forall c <- text :: Plain(c)) && Escapes(text)
    ensures Lexed(Doubled(text) + rest, literal, context) == Lexed(rest, literal + text, context)
    decreases |text|
  {
    hide Lexed, Escapes, Illegal, Plain, StartsEscape;
    if text == "" {
      assert "" + rest == rest && literal + "" == literal;
    } else {
      var c := text[0];
      if c == '%' { EscapeDoubled(text, rest); }
      assert c in text;
      EscapesTail(text);
      DoubledStep(text, rest);
      LiteralStep(c, Doubled(text[1..]) + rest, literal, context);
      LiteralLexes(text[1..], rest, literal + [c], context);
      Cat(literal, [c], text[1..]);
      assert [c] + text[1..] == text;
    }
  }

  lemma DoubledStep(text: string, rest: string)
    requires text != ""
    ensures Doubled(text) + rest
         == (if text[0] in ['{', '}'] then [text[0], text[0]] else [text[0]]) + (Doubled(text[1..]) + rest)
  {
    Cat(if text[0] in ['{', '}'] then [text[0], text[0]] else [text[0]], Doubled(text[1..]), rest);
  }

  /** One literal character, doubled if it is a brace, joins the literal begun so far. */
  lemma {:induction false} LiteralStep(c: char, more: string, literal: string, context: Context)
    requires Plain(c) && (c == '%' ==> StartsEscape([c] + more))
    ensures Lexed((if c in ['{', '}'] then [c, c] else [c]) + more, literal, context)
         == Lexed(more, literal + [c], context)
  {
    PlainIff(c);
    hide Illegal, Plain, StartsEscape;
    if c in ['{', '}'] {
      var s := [c, c] + more;
      assert s[0] == c && s[1] == c && s[2..] == more;
    } else {
      var s := [c] + more;
      assert s[0] == c && s[1..] == more;
    }
  }

  lemma EscapesTail(text: string)
    requires Escapes(text) && text != ""
    ensures Escapes(text[1..])
  {
    var t := text[1..];
    forall i | 0 <= i < |t| && t[i] == '%'
      ensures i + 2 < |t| && HexDigit(t[i + 1]) && HexDigit(t[i + 2])
    {
      assert text[i + 1] == '%';
    }
  }

  lemma {:induction false} EscapeDoubled(text: string, rest: string)
    requires text != "" && text[0] == '%' && Escapes(text)
    ensures StartsEscape(Doubled(text) + rest)
  {
    var a, b := text[1], text[2];
    assert Doubled(text) == ['%'] + Doubled(text[1..]);
    assert Doubled(text[1..]) == [a] + Doubled(text[1..][1..]);
    assert text[1..][1..] == text[2..];
    assert Doubled(text[2..]) == [b] + Doubled(text[2..][1..]);
    assert (Doubled(text) + rest)[1] == a && (Doubled(text) + rest)[2] == b;
  }

  lemma {:induction false} CanonicalLexes(segments: seq<Segment>, context: Context)
    requires Canonical(segments, context)
    ensures Lexed(Unlexed(segments), "", context) == Ok(segments)
    decreases |segments|
  {
    if segments != [] {
      var rest := segments[1..];
      assert LegalSegment(segments[0], context);
      match segments[0]
      case Variable(token) =>
        VariableLexes(token, Unlexed(rest), "", context);
        CanonicalLexes(rest, context);
        assert Unlexed(segments) == "{" + token + "}" + Unlexed(rest);
        assert Flush("") + [Variable(token)] == [Variable(token)];
        assert [Variable(token)] + rest == segments;
      case Literal(text) =>
        if rest == [] {
          LiteralAloneLexes(text, context);
          assert segments == [Literal(text)];
        } else {
          assert segments[1].Variable?;
          assert LegalSegment(rest[0], context);
          CanonicalLexes(rest[1..], context);
          LiteralThenVariable(text, rest[0].token, Unlexed(rest[1..]), context);
          assert [Literal(text), Variable(rest[0].token)] + rest[1..] == segments;
        }
    }
  }

  lemma {:induction false} LiteralAloneLexes(text: string, context: Context)
    requires text != "" && LegalText(text)
    ensures Unlexed([Literal(text)]) == Doubled(text)
    ensures Lexed(Doubled(text), "", context) == Ok([Literal(text)])
  {
    FlushUnlexed(text);
    LiteralLexes(text, "", "", context);
    assert Doubled(text) + "" == Doubled(text) && "" + text == text;
  }

  lemma {:induction false} LiteralThenVariable(text: string, token: string, rest: string, context: Context)
    requires text != "" && LegalText(text) && Known(token, context)
    ensures Lexed(Doubled(text) + ("{" + token + "}" + rest), "", context)
         == Prepend([Literal(text), Variable(token)], Lexed(rest, "", context))
  {
    LiteralLexes(text, "{" + token + "}" + rest, "", context);
    assert "" + text == text;
    VariableLexes(token, rest, text, context);
    assert Flush(text) + [Variable(token)] == [Literal(text), Variable(token)];
  }

  /** A template parses into some segments exactly when they are canonical and spell it. */
  lemma ParsedIff(raw: string, segments: seq<Segment>, context: Context)
    ensures Parsed(raw, context) == Ok(segments) <==> Canonical(segments, context) && Unlexed(segments) == raw
  {
    LexedSpells(raw, "", context);
    assert "" + raw == raw;
    if Canonical(segments, context) { CanonicalLexes(segments, context); }
  }

  lemma {:induction false} PlainDoubled(text: string)
    requires '{' !in text && '}' !in text
    ensures Doubled(text) == text
  {
    if text != "" {
      PlainDoubled(text[1..]);
      assert text[0] in text && [text[0]] + text[1..] == text;
    }
  }

  ghost predicate Simple(text: string) {
    text != "" && forall c <- text :: ' ' <= c <= '~' && c !in ['"', '#', '<', '>', '`', '{', '}', '%']
  }

  lemma PlainTextIsLegal(text: string)
    requires Simple(text)
    ensures LegalSegment(Literal(text), Item) && LegalSegment(Literal(text), ListQuery)
  {
    assert forall i | 0 <= i < |text| :: text[i] in text;
  }

  /** Printable ASCII without the five characters, braces and '%' is one literal, in either kind of template. */
  lemma PlainTextParses(text: string, context: Context)
    requires Simple(text)
    ensures Parsed(text, context) == Ok([Literal(text)])
  {
    PlainTextIsLegal(text);
    PlainDoubled(text);
    FlushUnlexed(text);
    assert Flush(text) == [Literal(text)];
    ParsedIff(text, [Literal(text)], context);
  }

  lemma {:induction false} UnlexedChars(segments: seq<Segment>, context: Context)
    requires Canonical(segments, context)
    ensures forall c <- Unlexed(segments) :: Plain(c)
  {
    if segments != [] {
      assert LegalSegment(segments[0], context);
      UnlexedChars(segments[1..], context);
      match segments[0] {
        case Literal(text) => DoubledChars(text);
        case Variable(token) => KnownChars(token, context);
      }
    }
  }

  lemma {:induction false} DoubledChars(text: string)
    ensures forall c <- Doubled(text) :: c in text
  {
    if text != "" {
      DoubledChars(text[1..]);
    }
  }

  lemma KnownChars(token: string, context: Context)
    requires Known(token, context)
    ensures forall c <- "{" + token + "}" :: Plain(c)
  {}

  /** A text that holds any other character, wherever it stands, is rejected. */
  lemma OthersAreRejected(raw: string, context: Context)
    requires exists c <- raw :: !(' ' <= c <= '~') || c in ['"', '#', '<', '>', '`']
    ensures Parsed(raw, context).Err?
  {
    if Parsed(raw, context).Ok? {
      ParsedIff(raw, Parsed(raw, context).value, context);
      UnlexedChars(Parsed(raw, context).value, context);
    }
  }

  /** Two texts, each with a variable after it, are four segments. */
  lemma TwoPairsParse(a: string, v: string, b: string, w: string, context: Context)
    requires Simple(a) && Simple(b) && Known(v, context) && Known(w, context)
    ensures Parsed(a + ("{" + v + "}") + (b + ("{" + w + "}")), context)
         == Ok([Literal(a), Variable(v), Literal(b), Variable(w)])
  {
    PlainTextIsLegal(a);
    PlainTextIsLegal(b);
    assert Canonical([Literal(a), Variable(v), Literal(b), Variable(w)], context);
    hide Lexed, Doubled, Canonical, Known;
    PlainDoubled(a);
    PlainDoubled(b);
    UnlexedToken(a, v, [Literal(b), Variable(w)]);
    UnlexedToken(b, w, []);
    var segments := [Literal(a), Variable(v), Literal(b), Variable(w)];
    assert Flush(b) + [Variable(w)] + [] == [Literal(b), Variable(w)];
    assert Flush(a) + [Variable(v)] + [Literal(b), Variable(w)] == segments;
    assert b + ("{" + w + "}") + "" == b + ("{" + w + "}");
    ParsedIff(a + ("{" + v + "}") + (b + ("{" + w + "}")), segments, context);
  }

  lemma FirstTextIsSimple()
    ensures Simple("updatedAfter=")
  {}

  lemma SecondTextIsSimple()
    ensures Simple("&limit=")
  {}

  lemma TwoPairsSpell()
    ensures "updatedAfter=" + ("{" + "since" + "}") + ("&limit=" + ("{" + "limit" + "}")) ==
            "updatedAfter={since}&limit={limit}"
  {}

  /** The query of two parameters that the documentation gives. */
  lemma TwoParametersParse()
    ensures Parsed("updatedAfter={since}&limit={limit}", ListQuery)
         == Ok([Literal("updatedAfter="), Variable("since"), Literal("&limit="), Variable("limit")])
  {
    hide Parsed, Simple;
    FirstTextIsSimple();
    SecondTextIsSimple();
    TwoPairsSpell();
    TwoPairsParse("updatedAfter=", "since", "&limit=", "limit", ListQuery);
  }

  // ---- rendering --------------------------------------------------------------------------------

  function Spaced(text: string): string {
    if text == "" then "" else (if text[0] == ' ' then "%20" else [text[0]]) + Spaced(text[1..])
  }

  function Substituted(token: string, value: string): string {
    if token == "basePath" then value else Encode(value)
  }

  function RenderedSegment(segment: Segment, vars: map<string, string>): Option<string> {
    match segment
    case Literal(text) => Some(Spaced(text))
    case Variable(token) => if token in vars then Some(Substituted(token, vars[token])) else None
  }

  /** Fails when a variable has no value. */
  function Rendered(segments: seq<Segment>, vars: map<string, string>): Option<string> {
    if segments == [] then Some("")
    else Glue(RenderedSegment(segments[0], vars), Rendered(segments[1..], vars))
  }

  lemma SpacedAppend(text: string, c: char)
    ensures Spaced(text + [c]) == Spaced(text) + if c == ' ' then "%20" else [c]
  {
    var d := if c == ' ' then "%20" else [c];
    if text == "" {
      assert text + [c] == [c];
      assert Spaced([c][1..]) == "";
    } else {
      assert (text + [c])[1..] == text[1..] + [c];
      SpacedAppend(text[1..], c);
      Cat(if text[0] == ' ' then "%20" else [text[0]], Spaced(text[1..]), d);
    }
  }

  lemma RenderedAppend(segments: seq<Segment>, segment: Segment, vars: map<string, string>)
    ensures Rendered(segments + [segment], vars) == Glue(Rendered(segments, vars), RenderedSegment(segment, vars))
  {
    if segments == [] {
      assert segments + [segment] == [segment];
      assert Rendered([segment][1..], vars) == Some("");
      var r := RenderedSegment(segment, vars);
      if r.Some? { assert r.value + "" == r.value && "" + r.value == r.value; }
    } else {
      assert (segments + [segment])[1..] == segments[1..] + [segment];
      RenderedAppend(segments[1..], segment, vars);
      var a, b, c := RenderedSegment(segments[0], vars), Rendered(segments[1..], vars), RenderedSegment(segment, vars);
      if a.Some? && b.Some? && c.Some? { Cat(a.value, b.value, c.value); }
    }
  }

  lemma {:induction false} RenderedMissing(segments: seq<Segment>, i: nat, vars: map<string, string>)
    requires i < |segments| && RenderedSegment(segments[i], vars) == None
    ensures Rendered(segments, vars) == None
  {
    if i > 0 { RenderedMissing(segments[1..], i - 1, vars); }
  }

  class Template {
    var segments: seq<Segment>
    var parsed: bool

    /** A template that was never parsed. */
    constructor ()
      ensures !parsed && segments == []
    {
      segments, parsed := [], false;
    }

    /** Parses into this template; a rejected text leaves it unparsed. */
    method Parse(raw: string, context: Context) returns (ok: bool)
      requires !parsed && segments == []
      modifies this
      ensures ok <==> Parsed(raw, context).Ok?
      ensures parsed == ok
      ensures ok ==> segments == Parsed(raw, context).value
    {
      var literal := "";
      var i := 0;
      assert raw[0..] == raw;
      PrependNothing(Parsed(raw, context));
      hide Lexed, Illegal, Vocabulary;
      while i < |raw|
        invariant 0 <= i <= |raw| && !parsed
        invariant Prepend(segments, Lexed(raw[i..], literal, context)) == Parsed(raw, context)
        decreases |raw| - i
      {
        var ok;
        if raw[i] == '{' && !(i + 1 < |raw| && raw[i + 1] == '{') {
          ok, i := TakeToken(raw, i, literal, context);
          literal := "";
        } else {
          ok, i, literal := TakeCharacter(raw, i, literal, context);
        }
        if !ok { return false; }
      }
      assert raw[i..] == "";
      if literal != "" { segments := segments + [Literal(literal)]; }
      parsed := true;
      return true;
    }

    /** A variable, after the literal before it; false when it has no end or no meaning. */
    method TakeToken(raw: string, i: nat, literal: string, context: Context) returns (ok: bool, next: nat)
      requires i < |raw| && raw[i] == '{' && !(i + 1 < |raw| && raw[i + 1] == '{')
      modifies this`segments
      ensures i < next
      ensures !ok ==> Lexed(raw[i..], literal, context) == Err
      ensures ok ==>
        && next <= |raw|
        && Prepend(segments, Lexed(raw[next..], "", context))
           == Prepend(old(segments), Lexed(raw[i..], literal, context))
    {
      hide Lexed, Vocabulary, FindClose;
      LexedHere(raw, i, literal, context);
      var close := FindClose(raw[i + 1..]) + 1;
      next := i + close + 1;
      if i + close == |raw| { return false, next; }
      var token := raw[i + 1..i + close];
      if token !in Vocabulary(context) { return false, next; }
      PrependTwice(segments, Flush(literal) + [Variable(token)], Lexed(raw[next..], "", context));
      if literal != "" { segments := segments + [Literal(literal)]; }
      segments := segments + [Variable(token)];
      assert segments == old(segments) + (Flush(literal) + [Variable(token)]);
      return true, next;
    }

    method Render(vars: map<string, string>) returns (r: Option<string>)
      ensures r == if parsed then Rendered(segments, vars) else None
    {
      if !parsed { return None; }
      var out := "";
      for i := 0 to |segments|
        invariant Rendered(segments[..i], vars) == Some(out)
      {
        assert segments[..i + 1] == segments[..i] + [segments[i]];
        RenderedAppend(segments[..i], segments[i], vars);
        match segments[i]
        case Literal(text) =>
          var spaced := RenderLiteral(text);
          out := out + spaced;
        case Variable(token) =>
          if token !in vars {
            RenderedMissing(segments, i, vars);
            return None;
          }
          if token == "basePath" {
            out := out + vars[token];
          } else {
            var encoded := EncodeSegment(vars[token]);
            out := out + encoded;
          }
      }
      assert segments[..|segments|] == segments;
      return Some(out);
    }
  }

  /** What the rest of the text from a position on lexes to, in positions of the whole text. */
  lemma {:induction false} LexedHere(raw: string, i: nat, literal: string, context: Context)
    requires i < |raw|
    ensures
      var here := Lexed(raw[i..], literal, context);
      var c := raw[i];
      if c == '{' then
        if i + 1 < |raw| && raw[i + 1] == '{' then here == Lexed(raw[i + 2..], literal + "{", context)
        else
          var close := FindClose(raw[i + 1..]) + 1;
          if i + close == |raw| || raw[i + 1..i + close] !in Vocabulary(context) then here == Err
          else
            here == Prepend(Flush(literal) + [Variable(raw[i + 1..i + close])],
                            Lexed(raw[i + close + 1..], "", context))
      else if c == '}' then
        here == if i + 1 < |raw| && raw[i + 1] == '}' then Lexed(raw[i + 2..], literal + "}", context) else Err
      else if Illegal(c) || (c == '%' && (i + 2 >= |raw| || !HexDigit(raw[i + 1]) || !HexDigit(raw[i + 2]))) then
        here == Err
      else here == Lexed(raw[i + 1..], literal + [c], context)
  {
    hide Illegal, Vocabulary, HexDigit;
    var s := raw[i..];
    assert s[1..] == raw[i + 1..];
    assert i + 2 <= |raw| ==> s[2..] == raw[i + 2..];
    var close := FindClose(raw[i + 1..]) + 1;
    Slice(raw, i, close);
  }

  lemma Slice(raw: string, i: nat, close: nat)
    requires i + close <= |raw| && 1 <= close
    ensures raw[i..][1..close] == raw[i + 1..i + close]
    ensures i + close < |raw| ==> raw[i..][close + 1..] == raw[i + close + 1..]
  {}

  /** One character of literal text, or two braces for one; false when the text may not hold it. */
  method TakeCharacter(
      raw: string, i: nat, literal: string, context: Context) returns (ok: bool, next: nat, longer: string)
    requires i < |raw| && !(raw[i] == '{' && !(i + 1 < |raw| && raw[i + 1] == '{'))
    ensures i < next
    ensures ok ==> next <= |raw| && Lexed(raw[next..], longer, context) == Lexed(raw[i..], literal, context)
    ensures !ok ==> Lexed(raw[i..], literal, context) == Err
  {
    hide Lexed, Illegal, Vocabulary;
    LexedHere(raw, i, literal, context);
    var c := raw[i];
    if c == '{' { return true, i + 2, literal + "{"; }
    if c == '}' {
      if i + 1 < |raw| && raw[i + 1] == '}' { return true, i + 2, literal + "}"; }
      return false, i + 1, literal;
    }
    if Illegal(c) { return false, i + 1, literal; }
    if c == '%' && (i + 2 >= |raw| || !HexDigit(raw[i + 1]) || !HexDigit(raw[i + 2])) { return false, i + 1, literal; }
    return true, i + 1, literal + [c];
  }

  method RenderLiteral(text: string) returns (out: string)
    ensures out == Spaced(text)
  {
    out := "";
    for i := 0 to |text|
      invariant out == Spaced(text[..i])
    {
      assert text[..i + 1] == text[..i] + [text[i]];
      SpacedAppend(text[..i], text[i]);
      if text[i] == ' ' { out := out + "%20"; } else { out := out + [text[i]]; }
    }
    assert text[..|text|] == text;
  }

  lemma PrependNothing(r: Result<seq<Segment>>)
    ensures Prepend([], r) == r
  {
    if r.Ok? { assert [] + r.value == r.value; }
  }

  lemma PrependTwice(a: seq<Segment>, b: seq<Segment>, r: Result<seq<Segment>>)
    ensures Prepend(a, Prepend(b, r)) == Prepend(a + b, r)
  {
    if r.Ok? { assert a + (b + r.value) == a + b + r.value; }
  }

  // ---- rendered templates, spelled out ----------------------------------------------------------

  /** Each space of a literal becomes three characters and nothing else of it changes. */
  lemma {:induction false} SpacedIs(a: string, b: string)
    requires ' ' !in a
    ensures Spaced(a) == a
    ensures Spaced(a + " " + b) == a + "%20" + Spaced(b)
    decreases |a|
  {
    if a == "" {
      assert a + " " + b == " " + b && (" " + b)[1..] == b;
    } else {
      SpacedIs(a[1..], b);
      assert a[0] in a && [a[0]] + a[1..] == a;
      var all := a + " " + b;
      assert all[1..] == a[1..] + " " + b;
      Cat([a[0]], a[1..], "%20" + Spaced(b));
      Cat(a[1..], "%20", Spaced(b));
      Cat(a, "%20", Spaced(b));
    }
  }

  lemma VariableFirstParses(v: string, b: string, w: string, context: Context)
    requires Simple(b) && Known(v, context) && Known(w, context)
    ensures Parsed("{" + v + "}" + (b + ("{" + w + "}")), context) == Ok([Variable(v), Literal(b), Variable(w)])
  {
    var rest, segments := [Literal(b), Variable(w)], [Variable(v), Literal(b), Variable(w)];
    PlainTextIsLegal(b);
    assert Canonical(segments, context);
    hide Lexed, Doubled, Canonical, Known;
    PlainDoubled(b);
    UnlexedToken(b, w, []);
    assert Flush(b) + [Variable(w)] + [] == rest;
    assert b + ("{" + w + "}") + "" == b + ("{" + w + "}");
    assert segments[1..] == rest;
    ParsedIff("{" + v + "}" + (b + ("{" + w + "}")), segments, context);
  }

  /** The default item path. */
  lemma ItemPathParses()
    ensures Parsed("{basePath}/{id}", Item) == Ok([Variable("basePath"), Literal("/"), Variable("id")])
  {
    hide Parsed;
    assert "{" + "basePath" + "}" + ("/" + ("{" + "id" + "}")) == "{basePath}/{id}";
    VariableFirstParses("basePath", "/", "id", Item);
  }

  /** An item path renders with its base path as it is and the id encoded. */
  lemma ItemPathRenders(base: string, between: string, id: string)
    requires ' ' !in between
    ensures Rendered([Variable("basePath"), Literal(between), Variable("id")], map["basePath" := base, "id" := id])
         == Some(base + (between + Encode(id)))
  {
    hide Encode;
    SpacedIs(between, "");
    ThreeRender([Variable("basePath"), Literal(between), Variable("id")], map["basePath" := base, "id" := id]);
  }

  lemma ThreeRender(segments: seq<Segment>, vars: map<string, string>)
    requires |segments| == 3 && forall segment <- segments :: RenderedSegment(segment, vars).Some?
    ensures Rendered(segments, vars)
         == Some(RenderedSegment(segments[0], vars).value +
                 (RenderedSegment(segments[1], vars).value + RenderedSegment(segments[2], vars).value))
  {
    hide RenderedSegment;
    var last := segments[2..];
    assert segments[1..][1..] == last && last[1..] == [];
    assert Rendered(last[1..], vars) == Some("");
    var z := RenderedSegment(segments[2], vars).value;
    assert z + "" == z;
    assert Rendered(last, vars) == Some(z);
  }

  /** A list query of two pairs: the texts as they are, the values encoded. */
  lemma TwoPairsRender(a: string, v: string, b: string, w: string, vars: map<string, string>)
    requires Known(v, ListQuery) && Known(w, ListQuery) && ' ' !in a && ' ' !in b
    ensures Rendered([Literal(a), Variable(v), Literal(b), Variable(w)], vars)
         == if v in vars && w in vars then Some(a + (Encode(vars[v]) + (b + Encode(vars[w])))) else None
  {
    hide Encode;
    SpacedIs(a, "");
    SpacedIs(b, "");
    var segments := [Literal(a), Variable(v), Literal(b), Variable(w)];
    if v !in vars {
      RenderedMissing(segments, 1, vars);
    } else if w !in vars {
      RenderedMissing(segments, 3, vars);
    } else {
      assert segments[1..] == [Variable(v), Literal(b), Variable(w)];
      ThreeRender(segments[1..], vars);
    }
  }

  // ---- what a rendered template is --------------------------------------------------------------

  /** Text that can stand in a URL as it is. */
  predicate Sendable(s: string) { (forall c <- s :: Plain(c) && c != ' ') && Escapes(s) }

  lemma SendableAcross(a: string, b: string)
    requires Sendable(a) && Sendable(b)
    ensures Sendable(a + b) && Escapes(a)
  {
    EscapesAcross(a, b);
  }

  lemma EncodedIsSendable(s: string)
    ensures Sendable(Encode(s))
  {
    EncodeAlphabet(s);
  }

  /** The first character or, at an escape, the first three. */
  function FirstWidth(text: string): (n: nat)
    requires text != "" && Escapes(text)
    ensures 0 < n <= |text|
  {
    if text[0] == '%' then 3 else 1
  }

  lemma SpacedCons(c: char, rest: string)
    requires c != ' '
    ensures Spaced([c] + rest) == [c] + Spaced(rest)
  {
    assert ([c] + rest)[1..] == rest;
  }

  lemma {:induction false} SpacedWidth(text: string)
    requires text != "" && Escapes(text)
    ensures
      var n := FirstWidth(text);
      Spaced(text) == (if text[0] == ' ' then "%20" else text[..n]) + Spaced(text[n..])
  {
    if text[0] == '%' {
      var a, b, rest := text[1], text[2], text[3..];
      hide Spaced;
      assert text == ['%'] + ([a] + ([b] + rest));
      SpacedCons('%', [a] + ([b] + rest));
      SpacedCons(a, [b] + rest);
      SpacedCons(b, rest);
      assert ['%'] + ([a] + ([b] + Spaced(rest))) == text[..3] + Spaced(rest);
    } else {
      assert text[..1] == [text[0]];
    }
  }

  /** A rendered literal can be sent, and the server decodes it to what the literal decodes to. */
  lemma {:induction false} SpacedDelivers(text: string)
    requires LegalText(text)
    ensures Sendable(Spaced(text)) && Decode(Spaced(text)) == Decode(text)
    decreases |text|
  {
    hide Spaced, Decode, Sendable, Escapes;
    if text == "" {
      NothingDelivers();
    } else {
      var n := FirstWidth(text);
      var head := text[..n];
      var shown := if text[0] == ' ' then "%20" else head;
      EscapesRest(text);
      assert forall c <- text[n..] :: c in text;
      SpacedDelivers(text[n..]);
      SpacedWidth(text);
      HeadDelivers(text, n);
      SendableAcross(shown, Spaced(text[n..]));
      DecodeAcross(shown, Spaced(text[n..]));
      DecodeAcross(head, text[n..]);
      assert head + text[n..] == text;
    }
  }

  lemma NothingDelivers()
    ensures Spaced("") == "" && Sendable("") && Decode("") == Some("")
  {}

  lemma HeadDelivers(text: string, n: nat)
    requires LegalText(text) && text != "" && n == FirstWidth(text)
    ensures
      var shown := if text[0] == ' ' then "%20" else text[..n];
      Escapes(text[..n]) && Sendable(shown) && Decode(shown) == Decode(text[..n])
  {
    var head := text[..n];
    assert forall c <- head :: c in text;
    if text[0] == '%' {
      assert head[0] == '%' && head[1] == text[1] && head[2] == text[2];
    } else if text[0] == ' ' {
      assert head == " ";
      assert " "[1..] == "" && Decode("") == Some("");
      assert [' '] + "" == " ";
      assert Decode(" ") == Some(" ");
      assert "%20"[3..] == "";
      assert Decode("%20") == Some(" ");
    }
  }

  /** What the server should receive: decoded literals and the values themselves. */
  function Delivered(segments: seq<Segment>, vars: map<string, string>): Option<string> {
    if segments == [] then Some("") else Glue(DeliveredSegment(segments[0], vars), Delivered(segments[1..], vars))
  }

  function DeliveredSegment(segment: Segment, vars: map<string, string>): Option<string> {
    match segment
    case Literal(text) => Decode(text)
    case Variable(token) => if token in vars then Some(vars[token]) else None
  }

  /**
  A rendered list query holds only printable ASCII without space, quotes,
  angle brackets, backtick or '#', each '%' starts a complete escape, and
  decoding it gives the decoded literals with the values in place.
  */
  lemma {:induction false} ListQueryDelivers(segments: seq<Segment>, vars: map<string, string>)
    requires Canonical(segments, ListQuery)
    requires forall token <- vars :: Bytes(vars[token])
    ensures
      var r := Rendered(segments, vars);
      r.Some? ==> Sendable(r.value) && Decode(r.value) == Delivered(segments, vars)
  {
    hide Decode, Sendable, Encode, Spaced;
    if segments == [] {
      NothingDelivers();
    } else {
      ListQueryDelivers(segments[1..], vars);
      var first, rest := RenderedSegment(segments[0], vars), Rendered(segments[1..], vars);
      if first.Some? && rest.Some? {
        assert LegalSegment(segments[0], ListQuery);
        match segments[0] {
          case Literal(text) => SpacedDelivers(text);
          case Variable(token) =>
            assert token != "basePath";
            EncodedIsSendable(vars[token]);
            EncodeDecodes(vars[token]);
        }
        SendableAcross(first.value, rest.value);
        DecodeAcross(first.value, rest.value);
      }
    }
  }

  /** An item path is as safe as its base path, the one value inserted raw. */
  lemma {:induction false} ItemPathIsSendable(segments: seq<Segment>, vars: map<string, string>)
    requires Canonical(segments, Item)
    requires "basePath" in vars ==> Sendable(vars["basePath"])
    ensures
      var r := Rendered(segments, vars);
      r.Some? ==> Sendable(r.value)
  {
    hide Sendable, Encode, Spaced;
    if segments == [] {
      NothingDelivers();
    } else {
      ItemPathIsSendable(segments[1..], vars);
      var first, rest := RenderedSegment(segments[0], vars), Rendered(segments[1..], vars);
      if first.Some? && rest.Some? {
        assert LegalSegment(segments[0], Item);
        match segments[0] {
          case Literal(text) => SpacedDelivers(text);
          case Variable(token) => EncodedIsSendable(vars[token]);
        }
        SendableAcross(first.value, rest.value);
      }
    }
  }
}
