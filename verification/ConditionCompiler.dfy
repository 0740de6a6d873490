/**
Conditions of the query builder and their compilation to SQL text with
positional parameters. The reference is `Meaning`, the three-valued truth of
the condition itself; the theorem is that SQL reads the text back with it.
*/
module ConditionCompiler {
  import opened Wrappers
  import opened Sql
  import Decimal

  datatype Node =
    | Comparison(op: Op, column: string, value: Value)
    | Like(column: string, pattern: string)
    | InArray(column: string, values: seq<Value>)
    | IsNull(column: string)
    | IsNotNull(column: string)
    | And(conditions: seq<Node>)
    | Or(conditions: seq<Node>)
    | Not(condition: Node)

  // ---- what a condition means -------------------------------------------------------------------

  function Meaning(en: Engine, node: Node): Truth {
    match node
    case Comparison(op, c, v) => Compared(en, op, en.cell(c), v)
    case Like(c, p) => Matched(en, en.cell(c), Text(p))
    case InArray(c, vs) => Among(en, en.cell(c), vs)
    case IsNull(c) => Known(en.cell(c).Null?)
    case IsNotNull(c) => Known(!en.cell(c).Null?)
    case And(cs) => EveryOf(en, cs)
    case Or(cs) => AnyOf(en, cs)
    case Not(c) => Meaning(en, c).Not()
  }

  /** True of no conditions. */
  function EveryOf(en: Engine, cs: seq<Node>): Truth {
    if cs == [] then True else Meaning(en, cs[0]).And(EveryOf(en, cs[1..]))
  }

  /** False of no conditions. */
  function AnyOf(en: Engine, cs: seq<Node>): Truth {
    if cs == [] then False else Meaning(en, cs[0]).Or(AnyOf(en, cs[1..]))
  }

  // ---- compilation ------------------------------------------------------------------------------

  function Join(parts: seq<string>, separator: string): string {
    if parts == [] then ""
    else if |parts| == 1 then parts[0]
    else parts[0] + separator + Join(parts[1..], separator)
  }

  function Quoted(column: string): string { "\"" + column + "\"" }

  function Placeholders(n: nat): seq<string> { if n == 0 then [] else ["?"] + Placeholders(n - 1) }

  /** The text `compileCondition` returns. */
  function Compiled(node: Node): string {
    match node
    case Comparison(op, c, _) => Quoted(c) + " " + Symbol(op) + " ?"
    case Like(c, _) => Quoted(c) + " LIKE ?"
    case InArray(c, vs) => Quoted(c) + " IN (" + Join(Placeholders(|vs|), ", ") + ")"
    case IsNull(c) => Quoted(c) + " IS NULL"
    case IsNotNull(c) => Quoted(c) + " IS NOT NULL"
    case And(cs) =>
      if cs == [] then "1"
      else if |cs| == 1 then CompiledAll(cs)[0]
      else "(" + Join(CompiledAll(cs), " AND ") + ")"
    case Or(cs) =>
      if cs == [] then "0"
      else if |cs| == 1 then CompiledAll(cs)[0]
      else "(" + Join(CompiledAll(cs), " OR ") + ")"
    case Not(c) => "NOT (" + Compiled(c) + ")"
  }

  function CompiledAll(cs: seq<Node>): (r: seq<string>)
    ensures |r| == |cs|
  {
    if cs == [] then [] else [Compiled(cs[0])] + CompiledAll(cs[1..])
  }

  /** The values it pushes. */
  function Pushed(node: Node): seq<Value> {
    match node
    case Comparison(_, _, v) => [v]
    case Like(_, p) => [Text(p)]
    case InArray(_, vs) => vs
    case IsNull(_) => []
    case IsNotNull(_) => []
    case And(cs) => PushedAll(cs)
    case Or(cs) => PushedAll(cs)
    case Not(c) => Pushed(c)
  }

  function PushedAll(cs: seq<Node>): seq<Value> {
    if cs == [] then [] else Pushed(cs[0]) + PushedAll(cs[1..])
  }

  lemma CompiledAllAppend(cs: seq<Node>, c: Node)
    ensures CompiledAll(cs + [c]) == CompiledAll(cs) + [Compiled(c)]
    ensures PushedAll(cs + [c]) == PushedAll(cs) + Pushed(c)
  {
    hide Compiled, Pushed;
    if cs == [] {
      assert cs + [c] == [c];
      assert [c][1..] == [];
    } else {
      assert (cs + [c])[1..] == cs[1..] + [c];
      CompiledAllAppend(cs[1..], c);
    }
  }

  lemma PlaceholdersAppend(n: nat)
    ensures Placeholders(n + 1) == Placeholders(n) + ["?"]
  {
    if n > 0 { PlaceholdersAppend(n - 1); }
  }

  class Params {
    var values: seq<Value>

    constructor ()
      ensures values == []
    {
      values := [];
    }

    method Push(v: Value)
      modifies this
      ensures values == old(values) + [v]
    {
      values := values + [v];
    }
  }

  method JoinParts(parts: seq<string>, separator: string) returns (text: string)
    ensures text == Join(parts, separator)
  {
    if parts == [] { return ""; }
    var i := |parts| - 1;
    text := parts[i];
    assert parts[i..] == [parts[i]];
    while i > 0
      invariant 0 <= i < |parts|
      invariant text == Join(parts[i..], separator)
    {
      i := i - 1;
      assert parts[i..][1..] == parts[i + 1..];
      text := parts[i] + separator + text;
    }
    assert parts[0..] == parts;
  }

  /** `compileCondition`: the text, with the parameters pushed onto the caller's array on the way. */
  method CompileCondition(node: Node, params: Params) returns (text: string)
    modifies params
    ensures text == Compiled(node)
    ensures params.values == old(params.values) + Pushed(node)
    decreases node, 0
  {
    match node
    case Comparison(op, c, v) =>
      params.Push(v);
      text := Quoted(c) + " " + Symbol(op) + " ?";
    case Like(c, p) =>
      params.Push(Text(p));
      text := Quoted(c) + " LIKE ?";
    case InArray(c, vs) =>
      var marks: seq<string> := [];
      for i := 0 to |vs|
        invariant marks == Placeholders(i)
        invariant params.values == old(params.values) + vs[..i]
      {
        params.Push(vs[i]);
        PlaceholdersAppend(i);
        marks := marks + ["?"];
      }
      assert vs[..|vs|] == vs;
      var joined := JoinParts(marks, ", ");
      text := Quoted(c) + " IN (" + joined + ")";
    case IsNull(c) =>
      assert params.values + [] == params.values;
      text := Quoted(c) + " IS NULL";
    case IsNotNull(c) =>
      assert params.values + [] == params.values;
      text := Quoted(c) + " IS NOT NULL";
    case And(cs) =>
      if cs == [] { return "1"; }
      var parts := CompileEach(cs, params);
      if |cs| == 1 { return parts[0]; }
      var joined := JoinParts(parts, " AND ");
      text := "(" + joined + ")";
    case Or(cs) =>
      if cs == [] { return "0"; }
      var parts := CompileEach(cs, params);
      if |cs| == 1 { return parts[0]; }
      var joined := JoinParts(parts, " OR ");
      text := "(" + joined + ")";
    case Not(c) =>
      var inner := CompileCondition(c, params);
      text := "NOT (" + inner + ")";
  }

  method CompileEach(cs: seq<Node>, params: Params) returns (parts: seq<string>)
    modifies params
    ensures parts == CompiledAll(cs)
    ensures params.values == old(params.values) + PushedAll(cs)
    decreases cs, 1
  {
    parts := [];
    for i := 0 to |cs|
      invariant parts == CompiledAll(cs[..i])
      invariant params.values == old(params.values) + PushedAll(cs[..i])
    {
      assert cs[..i + 1] == cs[..i] + [cs[i]];
      CompiledAllAppend(cs[..i], cs[i]);
      var part := CompileCondition(cs[i], params);
      parts := parts + [part];
    }
    assert cs[..|cs|] == cs;
  }

  // ---- tokens of the compiled text --------------------------------------------------------------

  /** Names without a double quote, which is what a schema can declare safely. */
  predicate Plain(name: string) { '"' !in name }

  predicate PlainColumns(node: Node) {
    match node
    case Comparison(_, c, _) => Plain(c)
    case Like(c, _) => Plain(c)
    case InArray(c, _) => Plain(c)
    case IsNull(c) => Plain(c)
    case IsNotNull(c) => Plain(c)
    case And(cs) => forall c <- cs :: PlainColumns(c)
    case Or(cs) => forall c <- cs :: PlainColumns(c)
    case Not(c) => PlainColumns(c)
  }

  function Marks(n: nat): seq<Token> {
    if n == 0 then [] else if n == 1 then [Mark] else [Mark, Comma] + Marks(n - 1)
  }

  function Tokens(node: Node): seq<Token> {
    match node
    case Comparison(op, c, _) => [Name(c), Rel(op), Mark]
    case Like(c, _) => [Name(c), Word("LIKE"), Mark]
    case InArray(c, vs) => [Name(c), Word("IN"), LParen] + Marks(|vs|) + [RParen]
    case IsNull(c) => [Name(c), Word("IS"), Word("NULL")]
    case IsNotNull(c) => [Name(c), Word("IS"), Word("NOT"), Word("NULL")]
    case And(cs) =>
      if cs == [] then [Lit(Number(1))]
      else if |cs| == 1 then Tokens(cs[0])
      else [LParen] + Chain(cs, "AND") + [RParen]
    case Or(cs) =>
      if cs == [] then [Lit(Number(0))]
      else if |cs| == 1 then Tokens(cs[0])
      else [LParen] + Chain(cs, "OR") + [RParen]
    case Not(c) => [Word("NOT"), LParen] + Tokens(c) + [RParen]
  }

  function Chain(cs: seq<Node>, word: string): seq<Token> {
    if cs == [] then []
    else if |cs| == 1 then Tokens(cs[0])
    else Tokens(cs[0]) + [Word(word)] + Chain(cs[1..], word)
  }

  /** Text after which no token can run on into what follows. */
  predicate Ends(rest: string) { rest == "" || rest[0] in " ,)" }

  /** One space, one keyword of letters, and what the text goes on with. */
  lemma LexKeyword(w: string, rest: string)
    requires w != "" && forall c <- w :: IsLetter(c)
    requires rest == "" || !IsLetter(rest[0])
    ensures Lex(" " + w + rest) == Before([Word(w)], Lex(rest))
  {
    hide Lex;
    assert " " + w + rest == " " + (w + rest);
    LexSpace(w + rest);
    LexWord(w, rest);
  }

  lemma LexColumn(c: string, rest: string)
    requires Plain(c)
    requires rest == "" || rest[0] != '"'
    ensures Lex(Quoted(c) + rest) == Before([Name(c)], Lex(rest))
  {
    LexName(c, rest);
  }

  lemma LexMark(rest: string)
    ensures Lex(" ?" + rest) == Before([Mark], Lex(rest))
  {
    hide Lex;
    assert " ?" + rest == " " + (['?'] + rest);
    LexSpace(['?'] + rest);
    LexSingle('?', rest);
  }

  lemma LexComparison(op: Op, c: string, rest: string)
    requires Plain(c)
    ensures Lex(Quoted(c) + " " + Symbol(op) + " ?" + rest) == Before([Name(c), Rel(op), Mark], Lex(rest))
  {
    hide Lex;
    var tail := " ?" + rest;
    assert Quoted(c) + " " + Symbol(op) + " ?" + rest == Quoted(c) + (" " + (Symbol(op) + tail));
    LexColumn(c, " " + (Symbol(op) + tail));
    LexSpace(Symbol(op) + tail);
    LexSymbol(op, tail);
    LexMark(rest);
    BeforeBefore([Rel(op)], [Mark], Lex(rest));
    BeforeBefore([Name(c)], [Rel(op)] + [Mark], Lex(rest));
    assert [Name(c)] + ([Rel(op)] + [Mark]) == [Name(c), Rel(op), Mark];
  }

  lemma LexLike(c: string, rest: string)
    requires Plain(c)
    ensures Lex(Quoted(c) + " LIKE ?" + rest) == Before([Name(c), Word("LIKE"), Mark], Lex(rest))
  {
    hide Lex;
    var tail := " ?" + rest;
    assert Quoted(c) + " LIKE ?" + rest == Quoted(c) + (" " + "LIKE" + tail);
    LexColumn(c, " " + "LIKE" + tail);
    LexKeyword("LIKE", tail);
    LexMark(rest);
    BeforeBefore([Word("LIKE")], [Mark], Lex(rest));
    BeforeBefore([Name(c)], [Word("LIKE")] + [Mark], Lex(rest));
    assert [Name(c)] + ([Word("LIKE")] + [Mark]) == [Name(c), Word("LIKE"), Mark];
  }

  lemma LexIsNull(c: string, rest: string)
    requires Plain(c) && Ends(rest)
    ensures Lex(Quoted(c) + " IS NULL" + rest) == Before([Name(c), Word("IS"), Word("NULL")], Lex(rest))
  {
    hide Lex;
    var tail := " " + "NULL" + rest;
    assert Quoted(c) + " IS NULL" + rest == Quoted(c) + (" " + "IS" + tail);
    LexColumn(c, " " + "IS" + tail);
    LexKeyword("IS", tail);
    LexKeyword("NULL", rest);
    BeforeBefore([Word("IS")], [Word("NULL")], Lex(rest));
    BeforeBefore([Name(c)], [Word("IS")] + [Word("NULL")], Lex(rest));
    assert [Name(c)] + ([Word("IS")] + [Word("NULL")]) == [Name(c), Word("IS"), Word("NULL")];
  }

  lemma LexIsNotNull(c: string, rest: string)
    requires Plain(c) && Ends(rest)
    ensures Lex(Quoted(c) + " IS NOT NULL" + rest)
         == Before([Name(c), Word("IS"), Word("NOT"), Word("NULL")], Lex(rest))
  {
    hide Lex;
    var last := " " + "NULL" + rest;
    var tail := " " + "NOT" + last;
    assert Quoted(c) + " IS NOT NULL" + rest == Quoted(c) + (" " + "IS" + tail);
    LexColumn(c, " " + "IS" + tail);
    LexKeyword("IS", tail);
    LexKeyword("NOT", last);
    LexKeyword("NULL", rest);
    BeforeBefore([Word("NOT")], [Word("NULL")], Lex(rest));
    BeforeBefore([Word("IS")], [Word("NOT")] + [Word("NULL")], Lex(rest));
    BeforeBefore([Name(c)], [Word("IS")] + ([Word("NOT")] + [Word("NULL")]), Lex(rest));
    assert [Name(c)] + ([Word("IS")] + ([Word("NOT")] + [Word("NULL")]))
        == [Name(c), Word("IS"), Word("NOT"), Word("NULL")];
  }

  lemma {:induction false} LexMarks(n: nat, rest: string)
    ensures Lex(Join(Placeholders(n), ", ") + rest) == Before(Marks(n), Lex(rest))
    decreases n
  {
    hide Lex;
    if n == 0 {
      assert "" + rest == rest;
      BeforeNothing(Lex(rest));
    } else if n == 1 {
      assert Placeholders(1) == ["?"] + Placeholders(0);
      LexSingle('?', rest);
    } else {
      var more := Join(Placeholders(n - 1), ", ");
      assert Placeholders(n)[1..] == Placeholders(n - 1) && |Placeholders(n)| > 1 by { PlaceholdersCount(n); }
      assert Join(Placeholders(n), ", ") + rest == ['?'] + ([','] + (" " + (more + rest)));
      LexSingle('?', [','] + (" " + (more + rest)));
      LexSingle(',', " " + (more + rest));
      LexSpace(more + rest);
      LexMarks(n - 1, rest);
      BeforeBefore([Comma], Marks(n - 1), Lex(rest));
      BeforeBefore([Mark], [Comma] + Marks(n - 1), Lex(rest));
      assert [Mark] + ([Comma] + Marks(n - 1)) == Marks(n);
    }
  }

  lemma PlaceholdersCount(n: nat)
    ensures |Placeholders(n)| == n
  {}

  lemma BeforeNothing(r: Option<seq<Token>>)
    ensures Before([], r) == r
  {
    if r.Some? { assert [] + r.value == r.value; }
  }

  lemma LexIn(c: string, n: nat, rest: string)
    requires Plain(c)
    ensures Lex(Quoted(c) + " IN (" + Join(Placeholders(n), ", ") + ")" + rest)
         == Before([Name(c), Word("IN"), LParen] + Marks(n) + [RParen], Lex(rest))
  {
    hide Lex;
    var list := Join(Placeholders(n), ", ");
    var tail := [')'] + rest;
    var open := ['('] + (list + tail);
    assert Quoted(c) + " IN (" + list + ")" + rest == Quoted(c) + (" " + "IN" + (" " + open));
    LexColumn(c, " " + "IN" + (" " + open));
    LexKeyword("IN", " " + open);
    LexSpace(open);
    LexSingle('(', list + tail);
    LexMarks(n, tail);
    LexSingle(')', rest);
    BeforeBefore(Marks(n), [RParen], Lex(rest));
    BeforeBefore([LParen], Marks(n) + [RParen], Lex(rest));
    BeforeBefore([Word("IN")], [LParen] + (Marks(n) + [RParen]), Lex(rest));
    BeforeBefore([Name(c)], [Word("IN")] + ([LParen] + (Marks(n) + [RParen])), Lex(rest));
    assert [Name(c)] + ([Word("IN")] + ([LParen] + (Marks(n) + [RParen])))
        == [Name(c), Word("IN"), LParen] + Marks(n) + [RParen];
  }

  /** Brackets around any text that lexes to `ts`. */
  lemma LexBrackets(text: string, ts: seq<Token>, rest: string)
    requires Lex(text + ([')'] + rest)) == Before(ts, Lex([')'] + rest))
    ensures Lex("(" + text + ")" + rest) == Before([LParen] + ts + [RParen], Lex(rest))
  {
    hide Lex;
    assert "(" + text + ")" + rest == ['('] + (text + ([')'] + rest));
    LexSingle('(', text + ([')'] + rest));
    LexSingle(')', rest);
    BeforeBefore(ts, [RParen], Lex(rest));
    BeforeBefore([LParen], ts + [RParen], Lex(rest));
    assert [LParen] + (ts + [RParen]) == [LParen] + ts + [RParen];
  }

  lemma {:induction false} LexCompiled(node: Node, rest: string)
    requires PlainColumns(node) && Ends(rest)
    ensures Lex(Compiled(node) + rest) == Before(Tokens(node), Lex(rest))
    decreases node, 0
  {
    hide Lex;
    match node
    case Comparison(op, c, _) => LexComparison(op, c, rest);
    case Like(c, _) => LexLike(c, rest);
    case InArray(c, vs) => LexIn(c, |vs|, rest);
    case IsNull(c) => LexIsNull(c, rest);
    case IsNotNull(c) => LexIsNotNull(c, rest);
    case And(cs) =>
      assert " " + "AND" + " " == " AND " && [Decimal.DIGITS[1]] == "1";
      LexJunction(cs, "AND", 1, rest);
    case Or(cs) =>
      assert " " + "OR" + " " == " OR " && [Decimal.DIGITS[0]] == "0";
      LexJunction(cs, "OR", 0, rest);
    case Not(c) =>
      LexCompiled(c, [')'] + rest);
      LexNot(Compiled(c), Tokens(c), rest);
  }

  lemma {:induction false} LexNot(text: string, ts: seq<Token>, rest: string)
    requires Lex(text + ([')'] + rest)) == Before(ts, Lex([')'] + rest))
    ensures Lex("NOT (" + text + ")" + rest) == Before([Word("NOT"), LParen] + ts + [RParen], Lex(rest))
  {
    hide Lex;
    LexBrackets(text, ts, rest);
    var inner := "(" + text + ")" + rest;
    assert "NOT (" + text + ")" + rest == "NOT" + (" " + inner);
    LexWord("NOT", " " + inner);
    LexSpace(inner);
    BeforeBefore([Word("NOT")], [LParen] + ts + [RParen], Lex(rest));
    assert [Word("NOT")] + ([LParen] + ts + [RParen]) == [Word("NOT"), LParen] + ts + [RParen];
  }

  /** The text of a junction: nothing, one part, or a bracketed chain. */
  lemma {:induction false} LexJunction(cs: seq<Node>, word: string, empty: nat, rest: string)
    requires forall c <- cs :: PlainColumns(c)
    requires Ends(rest) && word in ["AND", "OR"] && empty < 2
    ensures cs == [] ==> Lex([Decimal.DIGITS[empty]] + rest) == Before([Lit(Number(empty))], Lex(rest))
    ensures |cs| == 1 ==> Lex(CompiledAll(cs)[0] + rest) == Before(Tokens(cs[0]), Lex(rest))
    ensures |cs| > 1 ==>
      Lex("(" + Join(CompiledAll(cs), " " + word + " ") + ")" + rest)
      == Before([LParen] + Chain(cs, word) + [RParen], Lex(rest))
    decreases cs, 1
  {
    if cs == [] {
      LexNumber(empty, rest);
    } else if |cs| == 1 {
      LexCompiled(cs[0], rest);
    } else {
      LexChain(cs, word, [')'] + rest);
      LexBrackets(Join(CompiledAll(cs), " " + word + " "), Chain(cs, word), rest);
    }
  }

  lemma {:induction false} LexChain(cs: seq<Node>, word: string, rest: string)
    requires cs != [] && forall c <- cs :: PlainColumns(c)
    requires Ends(rest) && word in ["AND", "OR"]
    ensures Lex(Join(CompiledAll(cs), " " + word + " ") + rest) == Before(Chain(cs, word), Lex(rest))
    decreases cs, 0
  {
    hide Lex;
    if |cs| == 1 {
      LexCompiled(cs[0], rest);
    } else {
      var separator := " " + word + " ";
      var more := Join(CompiledAll(cs[1..]), separator);
      assert CompiledAll(cs)[1..] == CompiledAll(cs[1..]);
      assert Join(CompiledAll(cs), separator) == Compiled(cs[0]) + separator + more;
      LexCompiled(cs[0], " " + word + (" " + (more + rest)));
      LexChain(cs[1..], word, rest);
      LexLink(Compiled(cs[0]), Tokens(cs[0]), word, more, Chain(cs[1..], word), rest);
    }
  }

  lemma BeforeThrice(x: seq<Token>, y: seq<Token>, z: seq<Token>, r: Option<seq<Token>>)
    ensures Before(x, Before(y, Before(z, r))) == Before(x + y + z, r)
  {
    BeforeBefore(y, z, r);
    BeforeBefore(x, y + z, r);
    assert x + (y + z) == x + y + z;
  }

  lemma LinkText(a: string, word: string, b: string, rest: string)
    ensures a + (" " + word + " ") + b + rest == a + (" " + word + (" " + (b + rest)))
  {}

  /** Two texts with a keyword between them. */
  lemma {:induction false} LexLink(a: string, x: seq<Token>, word: string, b: string, y: seq<Token>, rest: string)
    requires word != "" && forall c <- word :: IsLetter(c)
    requires Lex(a + (" " + word + (" " + (b + rest)))) == Before(x, Lex(" " + word + (" " + (b + rest))))
    requires Lex(b + rest) == Before(y, Lex(rest))
    ensures Lex(a + (" " + word + " ") + b + rest) == Before(x + [Word(word)] + y, Lex(rest))
  {
    hide Lex;
    LinkText(a, word, b, rest);
    LexKeyword(word, " " + (b + rest));
    LexSpace(b + rest);
    BeforeThrice(x, [Word(word)], y, Lex(rest));
  }

  // ---- placeholders bound to the pushed values --------------------------------------------------

  function Values(vs: seq<Value>): seq<Token> {
    if vs == [] then [] else if |vs| == 1 then [Lit(vs[0])] else [Lit(vs[0]), Comma] + Values(vs[1..])
  }

  /** `Tokens` with each placeholder replaced by its own value. */
  function Bound(node: Node): seq<Token> {
    match node
    case Comparison(op, c, v) => [Name(c), Rel(op), Lit(v)]
    case Like(c, p) => [Name(c), Word("LIKE"), Lit(Text(p))]
    case InArray(c, vs) => [Name(c), Word("IN"), LParen] + Values(vs) + [RParen]
    case IsNull(c) => [Name(c), Word("IS"), Word("NULL")]
    case IsNotNull(c) => [Name(c), Word("IS"), Word("NOT"), Word("NULL")]
    case And(cs) =>
      if cs == [] then [Lit(Number(1))]
      else if |cs| == 1 then Bound(cs[0])
      else [LParen] + BoundChain(cs, "AND") + [RParen]
    case Or(cs) =>
      if cs == [] then [Lit(Number(0))]
      else if |cs| == 1 then Bound(cs[0])
      else [LParen] + BoundChain(cs, "OR") + [RParen]
    case Not(c) => [Word("NOT"), LParen] + Bound(c) + [RParen]
  }

  function BoundChain(cs: seq<Node>, word: string): seq<Token> {
    if cs == [] then []
    else if |cs| == 1 then Bound(cs[0])
    else Bound(cs[0]) + [Word(word)] + BoundChain(cs[1..], word)
  }

  lemma BindPair(a: seq<Token>, p: seq<Value>, x: seq<Token>, b: seq<Token>, q: seq<Value>, y: seq<Token>)
    requires Bind(a, p) == Some(x) && Bind(b, q) == Some(y)
    ensures Bind(a + b, p + q) == Some(x + y)
  {
    BindAcross(a, b, p, q, x);
  }

  /** Tokens without a placeholder stay as they are. */
  lemma BindFixed(ts: seq<Token>)
    requires Mark !in ts
    ensures Bind(ts, []) == Some(ts)
  {
    if ts != [] {
      BindFixed(ts[1..]);
      assert [ts[0]] + ts[1..] == ts;
    }
  }

  lemma BindBrackets(pre: seq<Token>, ts: seq<Token>, vs: seq<Value>, bound: seq<Token>)
    requires Mark !in pre && Bind(ts, vs) == Some(bound)
    ensures Bind(pre + ts + [RParen], vs) == Some(pre + bound + [RParen])
  {
    BindFixed(pre);
    BindFixed([RParen]);
    BindPair(pre, [], pre, ts, vs, bound);
    BindPair(pre + ts, [] + vs, pre + bound, [RParen], [], [RParen]);
    assert [] + vs + [] == vs;
  }

  lemma {:induction false} BindMark(v: Value)
    ensures Bind([Mark], [v]) == Some([Lit(v)])
  {
    assert [Mark][1..] == [] && [v][1..] == [];
    assert Bind([], []) == Some([]);
    assert [Lit(v)] + [] == [Lit(v)];
  }

  lemma {:induction false} BindMarks(vs: seq<Value>)
    ensures Bind(Marks(|vs|), vs) == Some(Values(vs))
  {
    if |vs| == 1 {
      assert vs == [vs[0]];
      BindMark(vs[0]);
    } else if |vs| > 1 {
      BindMark(vs[0]);
      BindFixed([Comma]);
      BindMarks(vs[1..]);
      BindPair([Mark], [vs[0]], [Lit(vs[0])], [Comma], [], [Comma]);
      BindPair([Mark] + [Comma], [vs[0]] + [], [Lit(vs[0])] + [Comma], Marks(|vs| - 1), vs[1..], Values(vs[1..]));
      assert [Mark] + [Comma] + Marks(|vs| - 1) == Marks(|vs|);
      assert [vs[0]] + [] + vs[1..] == vs;
      assert [Lit(vs[0])] + [Comma] + Values(vs[1..]) == Values(vs);
    }
  }

  lemma {:induction false} BindTokens(node: Node)
    ensures Bind(Tokens(node), Pushed(node)) == Some(Bound(node))
    decreases node, 0
  {
    match node
    case Comparison(op, c, v) =>
      BindFixed([Name(c), Rel(op)]);
      BindMark(v);
      BindPair([Name(c), Rel(op)], [], [Name(c), Rel(op)], [Mark], [v], [Lit(v)]);
      assert [Name(c), Rel(op)] + [Mark] == Tokens(node);
      assert [] + [v] == [v];
      assert [Name(c), Rel(op)] + [Lit(v)] == Bound(node);
    case Like(c, p) =>
      BindFixed([Name(c), Word("LIKE")]);
      BindMark(Text(p));
      BindPair([Name(c), Word("LIKE")], [], [Name(c), Word("LIKE")], [Mark], [Text(p)], [Lit(Text(p))]);
      assert [Name(c), Word("LIKE")] + [Mark] == Tokens(node);
      assert [] + [Text(p)] == [Text(p)];
      assert [Name(c), Word("LIKE")] + [Lit(Text(p))] == Bound(node);
    case InArray(c, vs) =>
      BindMarks(vs);
      BindBrackets([Name(c), Word("IN"), LParen], Marks(|vs|), vs, Values(vs));
    case IsNull(c) => BindFixed(Tokens(node));
    case IsNotNull(c) => BindFixed(Tokens(node));
    case And(cs) => BindJunction(cs, "AND", 1);
    case Or(cs) => BindJunction(cs, "OR", 0);
    case Not(c) =>
      BindTokens(c);
      BindBrackets([Word("NOT"), LParen], Tokens(c), Pushed(c), Bound(c));
  }

  lemma {:induction false} BindJunction(cs: seq<Node>, word: string, empty: int)
    ensures cs == [] ==> Bind([Lit(Number(empty))], PushedAll(cs)) == Some([Lit(Number(empty))])
    ensures |cs| == 1 ==> Bind(Tokens(cs[0]), PushedAll(cs)) == Some(Bound(cs[0]))
    ensures |cs| > 1 ==>
      Bind([LParen] + Chain(cs, word) + [RParen], PushedAll(cs)) == Some([LParen] + BoundChain(cs, word) + [RParen])
    decreases cs, 1
  {
    if cs == [] {
      BindFixed([Lit(Number(empty))]);
    } else {
      BindChain(cs, word);
      BindBrackets([LParen], Chain(cs, word), PushedAll(cs), BoundChain(cs, word));
    }
  }

  lemma {:induction false} BindChain(cs: seq<Node>, word: string)
    requires cs != []
    ensures Bind(Chain(cs, word), PushedAll(cs)) == Some(BoundChain(cs, word))
    decreases cs, 0
  {
    hide Bind, Bound, Tokens, Pushed;
    BindTokens(cs[0]);
    if |cs| == 1 {
      assert Pushed(cs[0]) + PushedAll(cs[1..]) == Pushed(cs[0]);
    } else {
      BindChain(cs[1..], word);
      BindLink(Tokens(cs[0]), Pushed(cs[0]), Bound(cs[0]), Word(word),
               Chain(cs[1..], word), PushedAll(cs[1..]), BoundChain(cs[1..], word));
    }
  }

  lemma BindLink(a: seq<Token>, p: seq<Value>, x: seq<Token>, link: Token, b: seq<Token>, q: seq<Value>, y: seq<Token>)
    requires link != Mark && Bind(a, p) == Some(x) && Bind(b, q) == Some(y)
    ensures Bind(a + [link] + b, p + q) == Some(x + [link] + y)
  {
    BindFixed([link]);
    BindPair(a, p, x, [link], [], [link]);
    BindPair(a + [link], p + [], x + [link], b, q, y);
    assert p + [] == p;
  }

  // ---- parsing ----------------------------------------------------------------------------------

  /** The tree the precedence parser must build. */
  function Tree(node: Node): Expr {
    match node
    case Comparison(op, c, v) => Compare(op, Column(c), Const(v))
    case Like(c, p) => LikeTest(Column(c), Const(Text(p)))
    case InArray(c, vs) => InTest(Column(c), Consts(vs))
    case IsNull(c) => NullTest(Column(c), false)
    case IsNotNull(c) => NullTest(Column(c), true)
    case And(cs) => if cs == [] then Const(Number(1)) else AndTree(Tree(cs[0]), cs[1..])
    case Or(cs) => if cs == [] then Const(Number(0)) else OrTree(Tree(cs[0]), cs[1..])
    case Not(c) => NotOf(Tree(c))
  }

  function Consts(vs: seq<Value>): seq<Expr> { if vs == [] then [] else [Const(vs[0])] + Consts(vs[1..]) }

  function AndTree(left: Expr, cs: seq<Node>): Expr
    decreases cs
  {
    if cs == [] then left else AndTree(AndOf(left, Tree(cs[0])), cs[1..])
  }

  function OrTree(left: Expr, cs: seq<Node>): Expr
    decreases cs
  {
    if cs == [] then left else OrTree(OrOf(left, Tree(cs[0])), cs[1..])
  }

  /** Tokens that no test can swallow. */
  predicate Closed(rest: seq<Token>) {
    rest == [] || rest[0] in {RParen, Comma}
    || (rest[0].Word? && rest[0].word !in ["LIKE", "IN", "IS"])
  }

  /** From a primary up to a NOT-level expression. */
  lemma {:induction false} Climb(ts: seq<Token>, e: Expr, rest: seq<Token>)
    requires ParsePrimary(ts) == Got(e, rest) && !Orders(rest) && !Next(ts, Word("NOT"))
    ensures ParseOrder(ts) == Got(e, rest)
    ensures ParseTest(ts) == TestTail(e, rest)
    ensures ParseNot(ts) == TestTail(e, rest)
  {
    assert OrderTail(e, rest) == Got(e, rest);
  }

  lemma {:induction false} ClosedEnds(e: Expr, rest: seq<Token>)
    requires Closed(rest)
    ensures TestTail(e, rest) == Got(e, rest) && !Orders(rest)
  {}

  lemma {:induction false} ToOr(ts: seq<Token>, e: Expr, rest: seq<Token>)
    requires ParseNot(ts) == Got(e, rest)
    ensures !Next(rest, Word("AND")) ==> ParseAnd(ts) == Got(e, rest)
    ensures !Next(rest, Word("AND")) && !Next(rest, Word("OR")) ==> ParseOr(ts) == Got(e, rest)
  {
    if !Next(rest, Word("AND")) {
      assert AndTail(e, rest) == Got(e, rest);
      assert ParseAnd(ts) == Got(e, rest);
    }
  }

  lemma {:induction false} ConstParses(v: Value, rest: seq<Token>)
    requires Closed(rest)
    ensures ParseOrder([Lit(v)] + rest) == Got(Const(v), rest)
    ensures ParseNot([Lit(v)] + rest) == Got(Const(v), rest)
  {
    var ts := [Lit(v)] + rest;
    assert ts[1..] == rest;
    ClosedEnds(Const(v), rest);
    Climb(ts, Const(v), rest);
  }

  lemma {:induction false} ColumnParses(c: string, rest: seq<Token>)
    requires !Orders(rest)
    ensures ParseOrder([Name(c)] + rest) == Got(Column(c), rest)
    ensures ParseNot([Name(c)] + rest) == TestTail(Column(c), rest)
  {
    var ts := [Name(c)] + rest;
    assert ts[1..] == rest;
    Climb(ts, Column(c), rest);
  }

  lemma {:induction false} ComparisonParses(op: Op, c: string, v: Value, rest: seq<Token>)
    requires Closed(rest)
    ensures ParseNot([Name(c), Rel(op), Lit(v)] + rest) == Got(Compare(op, Column(c), Const(v)), rest)
  {
    var e := Compare(op, Column(c), Const(v));
    var ts := [Name(c), Rel(op), Lit(v)] + rest;
    var after := [Rel(op)] + ([Lit(v)] + rest);
    assert ts == [Name(c)] + after;
    assert after[1..] == [Lit(v)] + rest && ts[1..] == after;
    ConstParses(v, rest);
    ClosedEnds(e, rest);
    if op in {Eq, Ne} {
      ColumnParses(c, after);
      assert TestTail(Column(c), after) == TestTail(e, rest);
    } else {
      assert ParsePrimary(ts) == Got(Column(c), after);
      assert ([Lit(v)] + rest)[1..] == rest;
      assert ParsePrimary([Lit(v)] + rest) == Got(Const(v), rest);
      assert OrderTail(e, rest) == Got(e, rest);
      assert OrderTail(Column(c), after) == Got(e, rest);
      assert ParseOrder(ts) == Got(e, rest);
      assert ParseTest(ts) == Got(e, rest);
    }
  }

  lemma {:induction false} LikeParses(c: string, v: Value, rest: seq<Token>)
    requires Closed(rest)
    ensures ParseNot([Name(c), Word("LIKE"), Lit(v)] + rest) == Got(LikeTest(Column(c), Const(v)), rest)
  {
    hide ParseNot, ParseAnd, ParseOr, ParseTest;
    var e := LikeTest(Column(c), Const(v));
    var after := [Word("LIKE")] + ([Lit(v)] + rest);
    assert [Name(c), Word("LIKE"), Lit(v)] + rest == [Name(c)] + after;
    assert after[1..] == [Lit(v)] + rest;
    ConstParses(v, rest);
    ClosedEnds(e, rest);
    ColumnParses(c, after);
    assert TestTail(Column(c), after) == TestTail(e, rest);
  }

  lemma {:induction false} NullTestParses(c: string, negated: bool, rest: seq<Token>)
    requires Closed(rest)
    ensures ParseNot([Name(c), Word("IS")] + (if negated then [Word("NOT"), Word("NULL")] else [Word("NULL")]) + rest)
         == Got(NullTest(Column(c), negated), rest)
  {
    hide ParseNot, ParseAnd, ParseOr, ParseTest;
    var test := if negated then [Word("NOT"), Word("NULL")] else [Word("NULL")];
    var e := NullTest(Column(c), negated);
    var after := [Word("IS")] + (test + rest);
    assert [Name(c), Word("IS")] + test + rest == [Name(c)] + after;
    assert after[1..] == test + rest;
    assert negated ==> after[2..] == [Word("NULL")] + rest && after[3..] == rest;
    assert !negated ==> after[2..] == rest;
    ClosedEnds(e, rest);
    ColumnParses(c, after);
    assert TestTail(Column(c), after) == TestTail(e, rest);
  }

  lemma {:induction false} ItemsParse(vs: seq<Value>, rest: seq<Token>)
    requires vs != []
    ensures ParseItems(Values(vs) + ([RParen] + rest)) == Got(Consts(vs), rest)
  {
    hide ParseItems;
    var tail := [RParen] + rest;
    assert tail[1..] == rest;
    if |vs| == 1 {
      assert Values(vs) == [Lit(vs[0])];
      assert Consts(vs[1..]) == [] && Consts(vs) == [Const(vs[0])];
      ItemParses(vs[0], tail);
    } else {
      var after := [Comma] + (Values(vs[1..]) + tail);
      assert after[1..] == Values(vs[1..]) + tail;
      assert Values(vs) + tail == [Lit(vs[0])] + after;
      ItemsParse(vs[1..], rest);
      ItemParses(vs[0], after);
    }
  }

  /** One value of a list, and the bracket or comma after it. */
  lemma {:induction false} ItemParses(v: Value, after: seq<Token>)
    requires after != [] && after[0] in {RParen, Comma}
    ensures after[0] == RParen ==> ParseItems([Lit(v)] + after) == Got([Const(v)], after[1..])
    ensures after[0] == Comma && ParseItems(after[1..]).Got? ==>
      ParseItems([Lit(v)] + after) == Got([Const(v)] + ParseItems(after[1..]).value, ParseItems(after[1..]).rest)
  {
    hide ParseNot, ParseAnd, ParseOr;
    ConstParses(v, after);
    ToOr([Lit(v)] + after, Const(v), after);
  }

  lemma {:induction false} InParses(c: string, vs: seq<Value>, rest: seq<Token>)
    requires Closed(rest)
    ensures ParseNot([Name(c), Word("IN"), LParen] + Values(vs) + [RParen] + rest)
         == Got(InTest(Column(c), Consts(vs)), rest)
  {
    hide ParseNot, ParseItems, ParseOr;
    var e := InTest(Column(c), Consts(vs));
    var list := Values(vs) + ([RParen] + rest);
    var after := [Word("IN")] + ([LParen] + list);
    assert [Name(c), Word("IN"), LParen] + Values(vs) + [RParen] + rest == [Name(c)] + after;
    assert after[1..] == [LParen] + list && after[2..] == list;
    if vs == [] {
      assert list == [RParen] + rest && list[1..] == rest;
    } else {
      assert list[0] == Lit(vs[0]);
      ItemsParse(vs, rest);
    }
    assert ParseList(list) == Got(Consts(vs), rest);
    ClosedEnds(e, rest);
    ColumnParses(c, after);
    assert TestTail(Column(c), after) == TestTail(e, rest);
  }

  /** A bracketed expression is a primary, whatever it holds. */
  lemma {:induction false} BracketsParse(ts: seq<Token>, e: Expr, rest: seq<Token>)
    requires ParseOr(ts + ([RParen] + rest)) == Got(e, [RParen] + rest) && Closed(rest)
    ensures ParseNot([LParen] + ts + [RParen] + rest) == Got(e, rest)
  {
    var all := [LParen] + ts + [RParen] + rest;
    assert all[1..] == ts + ([RParen] + rest);
    assert ([RParen] + rest)[1..] == rest;
    assert ParsePrimary(all) == Got(e, rest);
    ClosedEnds(e, rest);
    Climb(all, e, rest);
  }

  lemma {:induction false} BoundParses(node: Node, rest: seq<Token>)
    requires Closed(rest)
    ensures ParseNot(Bound(node) + rest) == Got(Tree(node), rest)
    decreases node, 0
  {
    hide ParseNot, ParseAnd, ParseOr;
    match node
    case Comparison(op, c, v) => ComparisonParses(op, c, v, rest);
    case Like(c, p) => LikeParses(c, Text(p), rest);
    case InArray(c, vs) => InParses(c, vs, rest);
    case IsNull(c) =>
      NullTestParses(c, false, rest);
      assert [Name(c), Word("IS")] + [Word("NULL")] == Bound(node);
    case IsNotNull(c) =>
      NullTestParses(c, true, rest);
      assert [Name(c), Word("IS")] + [Word("NOT"), Word("NULL")] == Bound(node);
    case And(cs) =>
      if cs == [] {
        ConstParses(Number(1), rest);
      } else if |cs| == 1 {
        BoundParses(cs[0], rest);
      } else {
        AndParses(cs, [RParen] + rest);
        AndIsOr(BoundChain(cs, "AND") + ([RParen] + rest), Tree(node), [RParen] + rest);
        BracketsParse(BoundChain(cs, "AND"), Tree(node), rest);
      }
    case Or(cs) =>
      if cs == [] {
        ConstParses(Number(0), rest);
      } else if |cs| == 1 {
        BoundParses(cs[0], rest);
      } else {
        OrParses(cs, [RParen] + rest);
        BracketsParse(BoundChain(cs, "OR"), Tree(node), rest);
      }
    case Not(c) =>
      BoundParses(c, [RParen] + rest);
      ToOr(Bound(c) + ([RParen] + rest), Tree(c), [RParen] + rest);
      BracketsParse(Bound(c), Tree(c), rest);
      NotParses(Bound(c), Tree(c), rest);
  }

  lemma {:induction false} AndIsOr(ts: seq<Token>, e: Expr, rest: seq<Token>)
    requires ParseAnd(ts) == Got(e, rest) && !Next(rest, Word("OR"))
    ensures ParseOr(ts) == Got(e, rest)
  {
    assert OrTail(e, rest) == Got(e, rest);
  }

  lemma {:induction false} NotParses(ts: seq<Token>, e: Expr, rest: seq<Token>)
    requires ParseNot([LParen] + ts + [RParen] + rest) == Got(e, rest)
    ensures ParseNot([Word("NOT"), LParen] + ts + [RParen] + rest) == Got(NotOf(e), rest)
  {
    var all := [Word("NOT"), LParen] + ts + [RParen] + rest;
    assert all[1..] == [LParen] + ts + [RParen] + rest;
  }

  lemma {:induction false} AndParses(cs: seq<Node>, rest: seq<Token>)
    requires cs != [] && Closed(rest) && !Next(rest, Word("AND"))
    ensures ParseAnd(BoundChain(cs, "AND") + rest) == Got(AndTree(Tree(cs[0]), cs[1..]), rest)
    decreases cs, 1
  {
    hide ParseNot, AndTail, Bound, Tree;
    var after := if |cs| == 1 then rest else [Word("AND")] + (BoundChain(cs[1..], "AND") + rest);
    assert BoundChain(cs, "AND") + rest == Bound(cs[0]) + after;
    BoundParses(cs[0], after);
    AndTailParses(Tree(cs[0]), cs[1..], rest);
  }

  lemma {:induction false} AndTailParses(left: Expr, cs: seq<Node>, rest: seq<Token>)
    requires Closed(rest) && !Next(rest, Word("AND"))
    ensures AndTail(left, if cs == [] then rest else [Word("AND")] + (BoundChain(cs, "AND") + rest))
         == Got(AndTree(left, cs), rest)
    decreases cs
  {
    hide ParseNot, Bound, Tree;
    if cs != [] {
      var ts := [Word("AND")] + (BoundChain(cs, "AND") + rest);
      var after := if |cs| == 1 then rest else [Word("AND")] + (BoundChain(cs[1..], "AND") + rest);
      assert ts[1..] == Bound(cs[0]) + after;
      BoundParses(cs[0], after);
      AndTailParses(AndOf(left, Tree(cs[0])), cs[1..], rest);
    }
  }

  lemma {:induction false} OrParses(cs: seq<Node>, rest: seq<Token>)
    requires cs != [] && Closed(rest) && !Next(rest, Word("AND")) && !Next(rest, Word("OR"))
    ensures ParseOr(BoundChain(cs, "OR") + rest) == Got(OrTree(Tree(cs[0]), cs[1..]), rest)
    decreases cs, 1
  {
    hide ParseAnd, ParseNot, OrTail, Bound, Tree;
    var after := if |cs| == 1 then rest else [Word("OR")] + (BoundChain(cs[1..], "OR") + rest);
    assert BoundChain(cs, "OR") + rest == Bound(cs[0]) + after;
    BoundParses(cs[0], after);
    ToOr(Bound(cs[0]) + after, Tree(cs[0]), after);
    OrTailParses(Tree(cs[0]), cs[1..], rest);
  }

  lemma {:induction false} OrTailParses(left: Expr, cs: seq<Node>, rest: seq<Token>)
    requires Closed(rest) && !Next(rest, Word("AND")) && !Next(rest, Word("OR"))
    ensures OrTail(left, if cs == [] then rest else [Word("OR")] + (BoundChain(cs, "OR") + rest))
         == Got(OrTree(left, cs), rest)
    decreases cs
  {
    hide ParseAnd, ParseNot, Bound, Tree;
    if cs != [] {
      var ts := [Word("OR")] + (BoundChain(cs, "OR") + rest);
      var after := if |cs| == 1 then rest else [Word("OR")] + (BoundChain(cs[1..], "OR") + rest);
      assert ts[1..] == Bound(cs[0]) + after;
      BoundParses(cs[0], after);
      ToOr(Bound(cs[0]) + after, Tree(cs[0]), after);
      OrTailParses(OrOf(left, Tree(cs[0])), cs[1..], rest);
    }
  }

  // ---- meaning preserved ------------------------------------------------------------------------

  lemma EvalConsts(en: Engine, vs: seq<Value>)
    ensures EvalAll(en, Consts(vs)) == vs
  {
    if vs != [] {
      EvalConsts(en, vs[1..]);
      assert Consts(vs)[1..] == Consts(vs[1..]);
    }
  }

  lemma {:induction false} TreeMeans(en: Engine, node: Node)
    ensures Truly(en, Tree(node)) == Meaning(en, node)
    decreases node, 0
  {
    match node
    case Comparison(op, c, v) => assert Eval(en, Const(v)) == v && Eval(en, Column(c)) == en.cell(c);
    case Like(c, p) => assert Eval(en, Const(Text(p))) == Text(p) && Eval(en, Column(c)) == en.cell(c);
    case InArray(c, vs) =>
      EvalConsts(en, vs);
      assert Eval(en, Column(c)) == en.cell(c);
    case IsNull(c) => assert Eval(en, Column(c)) == en.cell(c);
    case IsNotNull(c) => assert Eval(en, Column(c)) == en.cell(c);
    case And(cs) =>
      if cs != [] {
        TreeMeans(en, cs[0]);
        AndTreeMeans(en, Tree(cs[0]), cs[1..]);
      }
    case Or(cs) =>
      if cs != [] {
        TreeMeans(en, cs[0]);
        OrTreeMeans(en, Tree(cs[0]), cs[1..]);
      }
    case Not(c) => TreeMeans(en, c);
  }

  lemma {:induction false} AndTreeMeans(en: Engine, left: Expr, cs: seq<Node>)
    ensures Truly(en, AndTree(left, cs)) == Truly(en, left).And(EveryOf(en, cs))
    decreases cs
  {
    if cs != [] {
      TreeMeans(en, cs[0]);
      AndTreeMeans(en, AndOf(left, Tree(cs[0])), cs[1..]);
    }
  }

  lemma {:induction false} OrTreeMeans(en: Engine, left: Expr, cs: seq<Node>)
    ensures Truly(en, OrTree(left, cs)) == Truly(en, left).Or(AnyOf(en, cs))
    decreases cs
  {
    if cs != [] {
      TreeMeans(en, cs[0]);
      OrTreeMeans(en, OrOf(left, Tree(cs[0])), cs[1..]);
    }
  }

  /** The compiled text on its own, read back with its parameters, means what the condition means. */
  lemma CompiledMeans(en: Engine, node: Node)
    requires PlainColumns(node)
    ensures ReadCondition(Compiled(node), Pushed(node)).Some?
    ensures Truly(en, ReadCondition(Compiled(node), Pushed(node)).value) == Meaning(en, node)
  {
    hide Lex, Bind, ParseNot, ParseOr, Compiled, Tokens, Bound, Tree, Meaning;
    LexCompiled(node, "");
    LexAlone(Compiled(node), Tokens(node));
    BindTokens(node);
    BoundParses(node, []);
    assert Bound(node) + [] == Bound(node);
    ToOr(Bound(node), Tree(node), []);
    TreeMeans(en, node);
  }
}
