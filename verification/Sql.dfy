/**
The part of SQL that the query builders write, read the way SQLite reads it:
a lexer over characters, `?` bound left to right, a precedence parser and
three-valued evaluation. It knows nothing of the condition compiler.
*/
module Sql {
  import opened Wrappers
  import Decimal

  datatype Value = Null | Bool(b: bool) | Number(n: int) | Text(t: string) | Blob(bytes: seq<int>)

  datatype Op = Eq | Ne | Gt | Gte | Lt | Lte

  datatype Token =
    | Name(name: string)
    | Word(word: string)
    | Mark
    | Lit(value: Value)
    | Rel(op: Op)
    | LParen | RParen | Comma | Star | Minus

  // ---- lexing -----------------------------------------------------------------------------------

  predicate IsLetter(c: char) { 'A' <= c <= 'Z' || 'a' <= c <= 'z' || c == '_' }

  /** How many leading characters of `s` satisfy the class. */
  function LetterRun(s: string): (n: nat)
    ensures n <= |s|
  {
    if s != "" && IsLetter(s[0]) then 1 + LetterRun(s[1..]) else 0
  }

  function DigitRun(s: string): (n: nat)
    ensures n <= |s|
  {
    if s != "" && Decimal.IsDigit(s[0]) then 1 + DigitRun(s[1..]) else 0
  }

  /** A quoted name after its opening quote; a doubled quote stands for one. */
  function QuotedName(s: string): (r: Option<(string, string)>)
    ensures r.Some? ==> |r.value.1| < |s|
  {
    if s == "" then None
    else if s[0] != '"' then
      match QuotedName(s[1..])
      case Some((name, rest)) => Some(([s[0]] + name, rest))
      case None => None
    else if |s| > 1 && s[1] == '"' then
      match QuotedName(s[2..])
      case Some((name, rest)) => Some(("\"" + name, rest))
      case None => None
    else Some(("", s[1..]))
  }

  /** One token (none for a space) and the text after it. */
  function Scan(s: string): (r: Option<(seq<Token>, string)>)
    requires s != ""
    ensures r.Some? ==> |r.value.1| < |s|
  {
    var c := s[0];
    var twin := |s| > 1 && s[1] == '=';
    if c == ' ' then Some(([], s[1..]))
    else if c == '"' then
      match QuotedName(s[1..])
      case Some((name, rest)) => Some(([Name(name)], rest))
      case None => None
    else if c == '?' then Some(([Mark], s[1..]))
    else if c == '(' then Some(([LParen], s[1..]))
    else if c == ')' then Some(([RParen], s[1..]))
    else if c == ',' then Some(([Comma], s[1..]))
    else if c == '*' then Some(([Star], s[1..]))
    else if c == '-' then Some(([Minus], s[1..]))
    else if c == '=' then Some(([Rel(Eq)], if twin then s[2..] else s[1..]))
    else if c == '!' && twin then Some(([Rel(Ne)], s[2..]))
    else if c == '<' then Some(if twin then ([Rel(Lte)], s[2..]) else ([Rel(Lt)], s[1..]))
    else if c == '>' then Some(if twin then ([Rel(Gte)], s[2..]) else ([Rel(Gt)], s[1..]))
    else if IsLetter(c) then
      var n := LetterRun(s);
      Some(([Word(s[..n])], s[n..]))
    else if Decimal.IsDigit(c) then
      var n := DigitRun(s);
      Some(([Lit(Number(Decimal.ValueOf(s[..n])))], s[n..]))
    else None
  }

  function Before(ts: seq<Token>, r: Option<seq<Token>>): Option<seq<Token>> {
    match r
    case Some(rest) => Some(ts + rest)
    case None => None
  }

  function Lex(s: string): Option<seq<Token>>
    decreases |s|
  {
    if s == "" then Some([])
    else
      match Scan(s)
      case Some((ts, rest)) => Before(ts, Lex(rest))
      case None => None
  }

  /** Placeholders replaced left to right by the parameters, which must be exactly as many. */
  function Bind(ts: seq<Token>, params: seq<Value>): Option<seq<Token>>
    decreases |ts|
  {
    if ts == [] then (if params == [] then Some([]) else None)
    else if ts[0] != Mark then Before([ts[0]], Bind(ts[1..], params))
    else if params == [] then None
    else Before([Lit(params[0])], Bind(ts[1..], params[1..]))
  }

  // ---- expressions ------------------------------------------------------------------------------

  datatype Expr =
    | Column(name: string)
    | Const(value: Value)
    | Compare(op: Op, left: Expr, right: Expr)
    | LikeTest(left: Expr, right: Expr)
    | InTest(left: Expr, list: seq<Expr>)
    | NullTest(operand: Expr, negated: bool)
    | AndOf(left: Expr, right: Expr)
    | OrOf(left: Expr, right: Expr)
    | NotOf(operand: Expr)

  datatype Parsed<+T> = Got(value: T, rest: seq<Token>) | Stuck

  predicate Next(ts: seq<Token>, t: Token) { ts != [] && ts[0] == t }

  /** OR binds loosest, then AND, then NOT, then equality-like tests, then the orderings. */
  function ParseOr(ts: seq<Token>): (r: Parsed<Expr>)
    ensures r.Got? ==> |r.rest| < |ts|
    decreases |ts|, 6
  {
    match ParseAnd(ts)
    case Got(e, rest) => OrTail(e, rest)
    case Stuck => Stuck
  }

  function OrTail(left: Expr, ts: seq<Token>): (r: Parsed<Expr>)
    ensures r.Got? ==> |r.rest| <= |ts|
    decreases |ts|, 0
  {
    if !Next(ts, Word("OR")) then Got(left, ts)
    else
      match ParseAnd(ts[1..])
      case Got(e, rest) => OrTail(OrOf(left, e), rest)
      case Stuck => Stuck
  }

  function ParseAnd(ts: seq<Token>): (r: Parsed<Expr>)
    ensures r.Got? ==> |r.rest| < |ts|
    decreases |ts|, 5
  {
    match ParseNot(ts)
    case Got(e, rest) => AndTail(e, rest)
    case Stuck => Stuck
  }

  function AndTail(left: Expr, ts: seq<Token>): (r: Parsed<Expr>)
    ensures r.Got? ==> |r.rest| <= |ts|
    decreases |ts|, 0
  {
    if !Next(ts, Word("AND")) then Got(left, ts)
    else
      match ParseNot(ts[1..])
      case Got(e, rest) => AndTail(AndOf(left, e), rest)
      case Stuck => Stuck
  }

  function ParseNot(ts: seq<Token>): (r: Parsed<Expr>)
    ensures r.Got? ==> |r.rest| < |ts|
    decreases |ts|, 4
  {
    if !Next(ts, Word("NOT")) then ParseTest(ts)
    else
      match ParseNot(ts[1..])
      case Got(e, rest) => Got(NotOf(e), rest)
      case Stuck => Stuck
  }

  function ParseTest(ts: seq<Token>): (r: Parsed<Expr>)
    ensures r.Got? ==> |r.rest| < |ts|
    decreases |ts|, 3
  {
    match ParseOrder(ts)
    case Got(e, rest) => TestTail(e, rest)
    case Stuck => Stuck
  }

  function TestTail(left: Expr, ts: seq<Token>): (r: Parsed<Expr>)
    ensures r.Got? ==> |r.rest| <= |ts|
    decreases |ts|, 0
  {
    if ts == [] then Got(left, ts)
    else
      match ts[0]
      case Rel(op) =>
        (match ParseOrder(ts[1..])
         case Got(e, rest) => TestTail(Compare(op, left, e), rest)
         case Stuck => Stuck)
      case Word(w) =>
        if w == "LIKE" then
          match ParseOrder(ts[1..])
          case Got(e, rest) => TestTail(LikeTest(left, e), rest)
          case Stuck => Stuck
        else if w == "IN" then
          if !Next(ts[1..], LParen) then Stuck
          else
            match ParseList(ts[2..])
            case Got(es, rest) => TestTail(InTest(left, es), rest)
            case Stuck => Stuck
        else if w == "IS" then
          if Next(ts[1..], Word("NULL")) then TestTail(NullTest(left, false), ts[2..])
          else if Next(ts[1..], Word("NOT")) && Next(ts[2..], Word("NULL")) then TestTail(NullTest(left, true), ts[3..])
          else Stuck
        else Got(left, ts)
      case _ => Got(left, ts)
  }

  /** The items of an IN list, after its opening bracket. */
  function ParseList(ts: seq<Token>): (r: Parsed<seq<Expr>>)
    ensures r.Got? ==> |r.rest| < |ts|
    decreases |ts|, 8
  {
    if Next(ts, RParen) then Got([], ts[1..]) else ParseItems(ts)
  }

  function ParseItems(ts: seq<Token>): (r: Parsed<seq<Expr>>)
    ensures r.Got? ==> |r.rest| < |ts|
    decreases |ts|, 7
  {
    match ParseOr(ts)
    case Got(e, rest) =>
      if Next(rest, RParen) then Got([e], rest[1..])
      else if !Next(rest, Comma) then Stuck
      else (match ParseItems(rest[1..])
            case Got(es, after) => Got([e] + es, after)
            case Stuck => Stuck)
    case Stuck => Stuck
  }

  predicate Orders(ts: seq<Token>) { ts != [] && ts[0].Rel? && ts[0].op !in {Eq, Ne} }

  function ParseOrder(ts: seq<Token>): (r: Parsed<Expr>)
    ensures r.Got? ==> |r.rest| < |ts|
    decreases |ts|, 2
  {
    match ParsePrimary(ts)
    case Got(e, rest) => OrderTail(e, rest)
    case Stuck => Stuck
  }

  function OrderTail(left: Expr, ts: seq<Token>): (r: Parsed<Expr>)
    ensures r.Got? ==> |r.rest| <= |ts|
    decreases |ts|, 0
  {
    if !Orders(ts) then Got(left, ts)
    else
      match ParsePrimary(ts[1..])
      case Got(e, rest) => OrderTail(Compare(ts[0].op, left, e), rest)
      case Stuck => Stuck
  }

  function ParsePrimary(ts: seq<Token>): (r: Parsed<Expr>)
    ensures r.Got? ==> |r.rest| < |ts|
    decreases |ts|, 1
  {
    if ts == [] then Stuck
    else
      match ts[0]
      case Name(name) => Got(Column(name), ts[1..])
      case Lit(v) => Got(Const(v), ts[1..])
      case LParen =>
        (match ParseOr(ts[1..])
         case Got(e, rest) => if Next(rest, RParen) then Got(e, rest[1..]) else Stuck
         case Stuck => Stuck)
      case _ => Stuck
  }

  // ---- three-valued evaluation ------------------------------------------------------------------

  datatype Truth = True | False | Unknown {
    function And(that: Truth): Truth {
      if this == False || that == False then False
      else if this == True && that == True then True
      else Unknown
    }

    function Or(that: Truth): Truth {
      if this == True || that == True then True
      else if this == False && that == False then False
      else Unknown
    }

    function Not(): Truth {
      match this
      case True => False
      case False => True
      case Unknown => Unknown
    }
  }

  function Known(b: bool): Truth { if b then True else False }

  /**
  One row and the engine's own judgements about values that are not NULL:
  the sign of a comparison, LIKE, and whether text or a blob counts as true.
  */
  datatype Engine = Engine(
    cell: string -> Value,
    order: (Value, Value) -> int,
    like: (Value, Value) -> bool,
    counts: Value -> bool)

  predicate Holds(op: Op, sign: int) {
    match op
    case Eq => sign == 0
    case Ne => sign != 0
    case Gt => sign > 0
    case Gte => sign >= 0
    case Lt => sign < 0
    case Lte => sign <= 0
  }

  function Compared(en: Engine, op: Op, l: Value, r: Value): Truth {
    if l.Null? || r.Null? then Unknown else Known(Holds(op, en.order(l, r)))
  }

  function Matched(en: Engine, l: Value, r: Value): Truth {
    if l.Null? || r.Null? then Unknown else Known(en.like(l, r))
  }

  /** `l IN (list)`: false for an empty list even when `l` is NULL. */
  function Among(en: Engine, l: Value, list: seq<Value>): Truth {
    if list == [] then False
    else if l.Null? then Unknown
    else if exists v <- list :: !v.Null? && en.order(l, v) == 0 then True
    else if Null in list then Unknown
    else False
  }

  function AsTruth(en: Engine, v: Value): Truth {
    match v
    case Null => Unknown
    case Bool(b) => Known(b)
    case Number(n) => Known(n != 0)
    case _ => Known(en.counts(v))
  }

  function AsValue(t: Truth): Value {
    match t
    case True => Number(1)
    case False => Number(0)
    case Unknown => Null
  }

  function Eval(en: Engine, e: Expr): Value {
    match e
    case Column(name) => en.cell(name)
    case Const(v) => v
    case Compare(op, l, r) => AsValue(Compared(en, op, Eval(en, l), Eval(en, r)))
    case LikeTest(l, r) => AsValue(Matched(en, Eval(en, l), Eval(en, r)))
    case InTest(l, list) => AsValue(Among(en, Eval(en, l), EvalAll(en, list)))
    case NullTest(x, negated) => AsValue(Known(Eval(en, x).Null? != negated))
    case AndOf(l, r) => AsValue(AsTruth(en, Eval(en, l)).And(AsTruth(en, Eval(en, r))))
    case OrOf(l, r) => AsValue(AsTruth(en, Eval(en, l)).Or(AsTruth(en, Eval(en, r))))
    case NotOf(x) => AsValue(AsTruth(en, Eval(en, x)).Not())
  }

  function EvalAll(en: Engine, es: seq<Expr>): (r: seq<Value>) {
    if es == [] then [] else [Eval(en, es[0])] + EvalAll(en, es[1..])
  }

  function Truly(en: Engine, e: Expr): Truth { AsTruth(en, Eval(en, e)) }

  /** The six comparisons of numbers that the engine orders as numbers; NULL on either side leaves them open. */
  lemma NumbersCompare(en: Engine, l: int, r: int, v: Value, op: Op)
    requires en.order(Number(l), Number(r)) == l - r
    ensures Compared(en, Eq, Number(l), Number(r)) == if l == r then True else False
    ensures Compared(en, Ne, Number(l), Number(r)) == if l != r then True else False
    ensures Compared(en, Gt, Number(l), Number(r)) == if l > r then True else False
    ensures Compared(en, Gte, Number(l), Number(r)) == if l >= r then True else False
    ensures Compared(en, Lt, Number(l), Number(r)) == if l < r then True else False
    ensures Compared(en, Lte, Number(l), Number(r)) == if l <= r then True else False
    ensures Compared(en, op, Null, v) == Unknown && Compared(en, op, v, Null) == Unknown
  {}

  /** Truth as a number of halves: AND is the least, OR the greatest, NOT turns it round. */
  function Halves(t: Truth): int {
    match t
    case False => 0
    case Unknown => 1
    case True => 2
  }

  lemma TruthTables(a: Truth, b: Truth)
    ensures Halves(a.And(b)) == if Halves(a) < Halves(b) then Halves(a) else Halves(b)
    ensures Halves(a.Or(b)) == if Halves(a) > Halves(b) then Halves(a) else Halves(b)
    ensures Halves(a.Not()) == 2 - Halves(a)
  {}

  // ---- statements -------------------------------------------------------------------------------

  datatype Statement =
    | Select(table: string, filter: Option<Expr>, order: Option<(string, bool)>, limit: int, offset: int)
    | Update(table: string, sets: seq<(string, Expr)>, filter: Option<Expr>)

  function ParseWhere(ts: seq<Token>): (r: Parsed<Option<Expr>>) {
    if !Next(ts, Word("WHERE")) then Got(None, ts)
    else
      match ParseOr(ts[1..])
      case Got(e, rest) => Got(Some(e), rest)
      case Stuck => Stuck
  }

  /** The column and whether it ascends. */
  function ParseOrderBy(ts: seq<Token>): (r: Parsed<Option<(string, bool)>>) {
    if !Next(ts, Word("ORDER")) then Got(None, ts)
    else if |ts| >= 4 && ts[1] == Word("BY") && ts[2].Name? && ts[3] in [Word("ASC"), Word("DESC")] then
      Got(Some((ts[2].name, ts[3] == Word("ASC"))), ts[4..])
    else Stuck
  }

  /** A keyword and a signed whole number, or the default when the keyword is absent. */
  function ParseCount(ts: seq<Token>, keyword: string, default: int): (r: Parsed<int>) {
    if !Next(ts, Word(keyword)) then Got(default, ts)
    else if |ts| >= 2 && ts[1].Lit? && ts[1].value.Number? then Got(ts[1].value.n, ts[2..])
    else if |ts| >= 3 && ts[1] == Minus && ts[2].Lit? && ts[2].value.Number? then Got(-ts[2].value.n, ts[3..])
    else Stuck
  }

  /** With no LIMIT every row is wanted, which SQLite writes as -1. */
  function ParseSelectTail(table: string, ts: seq<Token>): Option<Statement> {
    match ParseWhere(ts)
    case Stuck => None
    case Got(filter, rest) =>
      match ParseOrderBy(rest)
      case Stuck => None
      case Got(order, rest') =>
        match ParseCount(rest', "LIMIT", -1)
        case Stuck => None
        case Got(limit, rest'') =>
          match ParseCount(rest'', "OFFSET", 0)
          case Stuck => None
          case Got(offset, end) => if end == [] then Some(Select(table, filter, order, limit, offset)) else None
  }

  function ParseSets(ts: seq<Token>): (r: Parsed<seq<(string, Expr)>>)
    decreases |ts|
  {
    if |ts| < 2 || !ts[0].Name? || ts[1] != Rel(Eq) then Stuck
    else
      match ParseOr(ts[2..])
      case Stuck => Stuck
      case Got(e, rest) =>
        if !Next(rest, Comma) then Got([(ts[0].name, e)], rest)
        else
          match ParseSets(rest[1..])
          case Got(more, after) => Got([(ts[0].name, e)] + more, after)
          case Stuck => Stuck
  }

  function ParseUpdateTail(table: string, ts: seq<Token>): Option<Statement> {
    match ParseSets(ts)
    case Stuck => None
    case Got(sets, rest) =>
      match ParseWhere(rest)
      case Got(filter, end) => if end == [] then Some(Update(table, sets, filter)) else None
      case Stuck => None
  }

  function ParseStatement(ts: seq<Token>): Option<Statement> {
    if |ts| >= 4 && ts[0] == Word("SELECT") && ts[1] == Star && ts[2] == Word("FROM") && ts[3].Name? then
      ParseSelectTail(ts[3].name, ts[4..])
    else if |ts| >= 3 && ts[0] == Word("UPDATE") && ts[1].Name? && ts[2] == Word("SET") then
      ParseUpdateTail(ts[1].name, ts[3..])
    else None
  }

  /** What the engine understands of a text and its parameters. */
  function ReadCondition(sql: string, params: seq<Value>): Option<Expr> {
    match Lex(sql)
    case None => None
    case Some(ts) =>
      match Bind(ts, params)
      case None => None
      case Some(bound) =>
        match ParseOr(bound)
        case Got(e, rest) => if rest == [] then Some(e) else None
        case Stuck => None
  }

  function ReadStatement(sql: string, params: seq<Value>): Option<Statement> {
    match Lex(sql)
    case None => None
    case Some(ts) =>
      match Bind(ts, params)
      case None => None
      case Some(bound) => ParseStatement(bound)
  }

  // ---- lexing one piece at a time ---------------------------------------------------------------

  lemma {:induction false} BeforeBefore(a: seq<Token>, b: seq<Token>, r: Option<seq<Token>>)
    ensures Before(a, Before(b, r)) == Before(a + b, r)
  {
    if r.Some? { assert a + (b + r.value) == a + b + r.value; }
  }

  lemma LexNothing()
    ensures Lex("") == Some([])
  {}

  /** Text with nothing after it. */
  lemma {:induction false} LexAlone(text: string, ts: seq<Token>)
    requires Lex(text + "") == Before(ts, Lex(""))
    ensures Lex(text) == Some(ts)
  {
    assert text + "" == text && ts + [] == ts;
    LexNothing();
  }

  lemma {:induction false} QuotedNameReads(name: string, rest: string)
    requires '"' !in name
    requires rest == "" || rest[0] != '"'
    ensures QuotedName(name + "\"" + rest) == Some((name, rest))
  {
    var s := name + "\"" + rest;
    if name == "" {
      assert s[1..] == rest;
    } else {
      assert s[0] == name[0];
      assert s[1..] == name[1..] + "\"" + rest;
      QuotedNameReads(name[1..], rest);
      assert [name[0]] + name[1..] == name;
    }
  }

  lemma {:induction false} LetterRunIs(w: string, rest: string)
    requires forall c <- w :: IsLetter(c)
    requires rest == "" || !IsLetter(rest[0])
    ensures LetterRun(w + rest) == |w|
  {
    if w == "" {
      assert w + rest == rest;
    } else {
      assert (w + rest)[1..] == w[1..] + rest;
      LetterRunIs(w[1..], rest);
    }
  }

  lemma {:induction false} DigitRunIs(w: string, rest: string)
    requires forall c <- w :: Decimal.IsDigit(c)
    requires rest == "" || !Decimal.IsDigit(rest[0])
    ensures DigitRun(w + rest) == |w|
  {
    if w == "" {
      assert w + rest == rest;
    } else {
      assert (w + rest)[1..] == w[1..] + rest;
      DigitRunIs(w[1..], rest);
    }
  }

  lemma {:induction false} LexName(name: string, rest: string)
    requires '"' !in name
    requires rest == "" || rest[0] != '"'
    ensures Lex("\"" + name + "\"" + rest) == Before([Name(name)], Lex(rest))
  {
    QuotedNameReads(name, rest);
    var s := "\"" + name + "\"" + rest;
    assert s[1..] == name + "\"" + rest;
    assert Scan(s) == Some(([Name(name)], rest));
  }

  lemma {:induction false} LexWord(w: string, rest: string)
    requires w != "" && forall c <- w :: IsLetter(c)
    requires rest == "" || !IsLetter(rest[0])
    ensures Lex(w + rest) == Before([Word(w)], Lex(rest))
  {
    LetterRunIs(w, rest);
    var s := w + rest;
    assert s[0] == w[0] && IsLetter(w[0]);
    assert s[..|w|] == w && s[|w|..] == rest;
    assert Scan(s) == Some(([Word(w)], rest));
  }

  lemma {:induction false} LexNumber(n: nat, rest: string)
    requires rest == "" || !Decimal.IsDigit(rest[0])
    ensures Lex(Decimal.Digits(n) + rest) == Before([Lit(Number(n))], Lex(rest))
  {
    var w := Decimal.Digits(n);
    DigitRunIs(w, rest);
    Decimal.ValueOfDigits(n);
    var s := w + rest;
    assert s[0] == w[0] && Decimal.IsDigit(w[0]);
    assert s[..|w|] == w && s[|w|..] == rest;
    assert Scan(s) == Some(([Lit(Number(n))], rest));
  }

  lemma {:induction false} LexSpace(rest: string)
    ensures Lex(" " + rest) == Lex(rest)
  {
    var s := " " + rest;
    assert s[1..] == rest;
    assert Scan(s) == Some(([], rest));
    if Lex(rest).Some? { assert [] + Lex(rest).value == Lex(rest).value; }
  }

  /** A one-character token, and the token it is. */
  function Single(c: char): Option<Token> {
    if c == '?' then Some(Mark)
    else if c == '(' then Some(LParen)
    else if c == ')' then Some(RParen)
    else if c == ',' then Some(Comma)
    else if c == '*' then Some(Star)
    else if c == '-' then Some(Minus)
    else None
  }

  lemma {:induction false} LexSingle(c: char, rest: string)
    requires Single(c).Some?
    ensures Lex([c] + rest) == Before([Single(c).value], Lex(rest))
  {
    var s := [c] + rest;
    assert s[0] == c && s[1..] == rest;
    assert Scan(s) == Some(([Single(c).value], rest));
  }

  function Symbol(op: Op): (s: string)
    ensures s != ""
  {
    match op
    case Eq => "="
    case Ne => "!="
    case Gt => ">"
    case Gte => ">="
    case Lt => "<"
    case Lte => "<="
  }

  /** The longest operator wins, so what follows must not lengthen it. */
  lemma {:induction false} LexSymbol(op: Op, rest: string)
    requires rest == "" || rest[0] != '='
    ensures Lex(Symbol(op) + rest) == Before([Rel(op)], Lex(rest))
  {
    var s := Symbol(op) + rest;
    assert s[0] == Symbol(op)[0];
    assert s[|Symbol(op)|..] == rest;
    assert |Symbol(op)| == 2 ==> s[1] == Symbol(op)[1];
    assert |Symbol(op)| == 1 && |s| > 1 ==> s[1] == rest[0];
    assert Scan(s) == Some(([Rel(op)], rest));
  }

  lemma {:induction false} BindAcross(
      ts: seq<Token>, us: seq<Token>, params: seq<Value>, more: seq<Value>, bound: seq<Token>)
    requires Bind(ts, params) == Some(bound)
    ensures Bind(ts + us, params + more) == Before(bound, Bind(us, more))
    decreases |ts|
  {
    if ts == [] {
      assert ts + us == us && params + more == more;
      if Bind(us, more).Some? { assert bound + Bind(us, more).value == Bind(us, more).value; }
    } else {
      assert (ts + us)[0] == ts[0] && (ts + us)[1..] == ts[1..] + us;
      if ts[0] != Mark {
        var b := Bind(ts[1..], params).value;
        BindAcross(ts[1..], us, params, more, b);
        BeforeBefore([ts[0]], b, Bind(us, more));
      } else {
        var b := Bind(ts[1..], params[1..]).value;
        assert (params + more)[1..] == params[1..] + more;
        BindAcross(ts[1..], us, params[1..], more, b);
        BeforeBefore([Lit(params[0])], b, Bind(us, more));
      }
    }
  }
}
