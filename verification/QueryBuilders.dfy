/**
The select, update and delete builders: the statements they send to the
database and what those statements mean to it.
*/
module QueryBuilders {
  import opened Wrappers
  import opened Sql
  import opened ConditionCompiler
  import Decimal

  const MAX_SYNC_PAGE_SIZE := 500

  datatype Schema = Schema(name: string, primaryKey: string, indexes: seq<seq<string>>)

  datatype Query = Query(sql: string, params: seq<Value>)

  // ---- columns that must be indexed -------------------------------------------------------------

  function ConditionColumns(node: Node): seq<string> {
    match node
    case And(cs) => ColumnsOfAll(cs)
    case Or(cs) => ColumnsOfAll(cs)
    case Not(c) => ConditionColumns(c)
    case Comparison(_, c, _) => [c]
    case Like(c, _) => [c]
    case InArray(c, _) => [c]
    case IsNull(c) => [c]
    case IsNotNull(c) => [c]
  }

  function ColumnsOfAll(cs: seq<Node>): seq<string> {
    if cs == [] then [] else ConditionColumns(cs[0]) + ColumnsOfAll(cs[1..])
  }

  predicate Leads(indexes: seq<seq<string>>, column: string) {
    exists index <- indexes :: index != [] && index[0] == column
  }

  predicate Indexed(schema: Schema, column: string) {
    column == schema.primaryKey || Leads(schema.indexes, column)
  }

  /** `assertIndexedColumns`: whether every column passes. */
  method CheckIndexed(schema: Schema, columns: seq<string>) returns (ok: bool)
    ensures ok <==> forall c <- columns :: Indexed(schema, c)
  {
    for i := 0 to |columns|
      invariant forall c <- columns[..i] :: Indexed(schema, c)
    {
      var column := columns[i];
      assert columns[..i + 1] == columns[..i] + [column];
      if column != schema.primaryKey && !Leads(schema.indexes, column) {
        assert column in columns && !Indexed(schema, column);
        return false;
      }
    }
    assert columns[..|columns|] == columns;
    return true;
  }

  lemma {:induction false} NamesAreColumns(node: Node, c: string)
    ensures Name(c) in Tokens(node) <==> c in ConditionColumns(node)
  {
    match node
    case And(cs) => if cs != [] { NamesAreColumnsOfAll(cs, "AND", c); }
    case Or(cs) => if cs != [] { NamesAreColumnsOfAll(cs, "OR", c); }
    case Not(inner) =>
      NamesAreColumns(inner, c);
      assert Tokens(node) == [Word("NOT"), LParen] + Tokens(inner) + [RParen];
    case InArray(_, vs) => MarksHaveNoName(|vs|, c);
    case _ =>
  }

  lemma {:induction false} NamesAreColumnsOfAll(cs: seq<Node>, word: string, c: string)
    requires cs != []
    ensures Name(c) in Chain(cs, word) <==> c in ColumnsOfAll(cs)
  {
    NamesAreColumns(cs[0], c);
    if |cs| == 1 {
      assert ColumnsOfAll(cs[1..]) == [];
    } else {
      NamesAreColumnsOfAll(cs[1..], word, c);
    }
  }

  lemma {:induction false} MarksHaveNoName(n: nat, c: string)
    ensures Name(c) !in Marks(n)
  {
    if n > 1 { MarksHaveNoName(n - 1, c); }
  }

  /** The column is the primary key or comes first in an index. */
  ghost predicate HasIndex(schema: Schema, column: string) {
    column == schema.primaryKey ||
    exists i :: 0 <= i < |schema.indexes| && schema.indexes[i] != [] && schema.indexes[i][0] == column
  }

  lemma IndexedIff(schema: Schema, column: string)
    ensures Indexed(schema, column) <==> HasIndex(schema, column)
  {
    if exists i :: 0 <= i < |schema.indexes| && schema.indexes[i] != [] && schema.indexes[i][0] == column {
      var i :| 0 <= i < |schema.indexes| && schema.indexes[i] != [] && schema.indexes[i][0] == column;
      assert schema.indexes[i] in schema.indexes;
    }
  }

  /** Every column that the text of the condition names, at whatever depth, has an index. */
  ghost predicate NamesHaveIndex(schema: Schema, node: Node) {
    exists ts :: Lex(Compiled(node)) == Some(ts) && forall c :: Name(c) in ts ==> HasIndex(schema, c)
  }

  lemma ConditionIsChecked(schema: Schema, node: Node)
    requires PlainColumns(node)
    ensures (forall c <- ConditionColumns(node) :: Indexed(schema, c)) <==> NamesHaveIndex(schema, node)
  {
    LexCompiled(node, "");
    LexNothing();
    LexAlone(Compiled(node), Tokens(node));
    forall c ensures Name(c) in Tokens(node) <==> c in ConditionColumns(node) {
      NamesAreColumns(node, c);
    }
    forall c ensures Indexed(schema, c) <==> HasIndex(schema, c) { IndexedIff(schema, c); }
    if forall c <- ConditionColumns(node) :: Indexed(schema, c) {
      assert forall c :: Name(c) in Tokens(node) ==> HasIndex(schema, c);
    }
    if NamesHaveIndex(schema, node) {
      assert forall c :: Name(c) in Tokens(node) ==> HasIndex(schema, c);
      forall c <- ConditionColumns(node) ensures Indexed(schema, c) {
        assert Name(c) in Tokens(node);
      }
    }
  }

  function OptionalColumns(condition: Option<Node>): seq<string> {
    match condition
    case Some(node) => ConditionColumns(node)
    case None => []
  }

  // ---- SELECT -----------------------------------------------------------------------------------

  /** What has been asked of a select builder. */
  datatype Selection = Selection(
    condition: Option<Node>,
    orderBy: string,
    ascending: bool,
    limit: Option<int>,
    offset: Option<int>)

  predicate Selectable(schema: Schema, s: Selection) {
    && 0 <= s.limit.GetOr(MAX_SYNC_PAGE_SIZE) <= MAX_SYNC_PAGE_SIZE
    && (s.orderBy != "" ==> Indexed(schema, s.orderBy))
    && forall c <- OptionalColumns(s.condition) :: Indexed(schema, c)
  }

  function OrderText(s: Selection): string {
    if s.orderBy == "" then "" else " ORDER BY " + Quoted(s.orderBy) + " " + (if s.ascending then "ASC" else "DESC")
  }

  function OffsetText(s: Selection): string {
    match s.offset
    case Some(n) => " OFFSET " + Decimal.DecimalText(n)
    case None => ""
  }

  function LiveAnd(condition: Option<Node>): string {
    match condition
    case Some(node) => Quoted("deletedAt") + " IS NULL AND " + Compiled(node)
    case None => Quoted("deletedAt") + " IS NULL"
  }

  function SelectText(table: string, s: Selection): string {
    "SELECT * FROM " + Quoted(table) + " WHERE " + LiveAnd(s.condition) + OrderText(s)
    + " LIMIT " + Decimal.DecimalText(s.limit.GetOr(MAX_SYNC_PAGE_SIZE)) + OffsetText(s)
  }

  function OptionalPushed(condition: Option<Node>): seq<Value> {
    match condition
    case Some(node) => Pushed(node)
    case None => []
  }

  predicate OptionalPlain(condition: Option<Node>) { condition.Some? ==> PlainColumns(condition.value) }

  /** The live rows, and the user's condition when there is one, joined by AND. */
  method LiveFilter(condition: Option<Node>, params: Params) returns (text: string)
    modifies params
    ensures text == LiveAnd(condition)
    ensures params.values == old(params.values) + OptionalPushed(condition)
  {
    var live := Quoted("deletedAt") + " IS NULL";
    if condition == None {
      assert params.values + [] == params.values;
      return live;
    }
    var filter := CompileCondition(condition.value, params);
    CompiledNotEmpty(condition.value);
    var parts := if filter != "" then [live, filter] else [live];
    text := JoinParts(parts, " AND ");
    assert parts[1..] == [filter];
  }

  /** The statement grown clause by clause around a filter. */
  method SelectStatement(table: string, s: Selection, filter: string) returns (sql: string)
    requires filter == LiveAnd(s.condition)
    ensures sql == SelectText(table, s)
  {
    hide Quoted, LiveAnd, Decimal.DecimalText;
    sql := "SELECT * FROM " + Quoted(table);
    sql := sql + " WHERE " + filter;
    ghost var head := sql;
    if s.orderBy != "" {
      sql := sql + (" ORDER BY " + Quoted(s.orderBy) + " " + (if s.ascending then "ASC" else "DESC"));
    }
    assert sql == head + OrderText(s);
    hide OrderText;
    sql := sql + " LIMIT " + Decimal.DecimalText(s.limit.GetOr(MAX_SYNC_PAGE_SIZE));
    ghost var body := sql;
    if s.offset.Some? {
      sql := sql + (" OFFSET " + Decimal.DecimalText(s.offset.value));
    }
    assert sql == body + OffsetText(s);
  }

  /**
  What a select builder sends: at most 500 rows, in the order of a column with an
  index, under a condition that names none without.
  */
  lemma SelectableIff(schema: Schema, s: Selection)
    requires OptionalPlain(s.condition)
    ensures Selectable(schema, s) <==>
              && (s.limit.Some? ==> 0 <= s.limit.value <= 500)
              && (s.orderBy != "" ==> HasIndex(schema, s.orderBy))
              && (s.condition.Some? ==> NamesHaveIndex(schema, s.condition.value))
  {
    hide NamesHaveIndex, Compiled;
    IndexedIff(schema, s.orderBy);
    if s.condition.Some? { ConditionIsChecked(schema, s.condition.value); }
  }

  lemma Cat<T>(a: seq<T>, b: seq<T>, c: seq<T>)
    ensures a + b + c == a + (b + c)
  {}

  class SelectQueryBuilder {
    const schema: Schema
    var condition: Option<Node>
    var orderByColumn: string
    var ascending: bool
    var limit: Option<int>
    var offset: Option<int>

    constructor (schema: Schema)
      ensures this.schema == schema && Asked() == Selection(None, "", true, None, None)
    {
      this.schema := schema;
      condition, orderByColumn, ascending, limit, offset := None, "", true, None, None;
    }

    function Asked(): Selection
      reads this
    {
      Selection(condition, orderByColumn, ascending, limit, offset)
    }

    method Where(node: Node)
      modifies this
      ensures Asked() == old(Asked()).(condition := Some(node))
    {
      condition := Some(node);
    }

    method OrderBy(column: string, ascending: bool)
      modifies this
      ensures Asked() == old(Asked()).(orderBy := column, ascending := ascending)
    {
      orderByColumn, this.ascending := column, ascending;
    }

    method Limit(n: int)
      modifies this
      ensures Asked() == old(Asked()).(limit := Some(n))
    {
      limit := Some(n);
    }

    method Offset(n: int)
      modifies this
      ensures Asked() == old(Asked()).(offset := Some(n))
    {
      offset := Some(n);
    }

    /** The statement `execute` sends, or the error it throws before sending anything. */
    method Execute() returns (r: Result<Query>)
      ensures r.Ok? <==> Selectable(schema, Asked())
      ensures r.Ok? ==> r.value == Query(SelectText(schema.name, Asked()), OptionalPushed(condition))
    {
      var rows := limit.GetOr(MAX_SYNC_PAGE_SIZE);
      if rows < 0 || rows > MAX_SYNC_PAGE_SIZE { return Err; }
      var needed: seq<string> := [];
      if orderByColumn != "" { needed := needed + [orderByColumn]; }
      if condition.Some? { needed := needed + ConditionColumns(condition.value); }
      assert forall c ::
          c in needed <==> (orderByColumn != "" && c == orderByColumn) || c in OptionalColumns(condition);
      var indexed := CheckIndexed(schema, needed);
      if !indexed { return Err; }
      var params := new Params();
      var filter := LiveFilter(condition, params);
      var sql := SelectStatement(schema.name, Asked(), filter);
      assert [] + OptionalPushed(condition) == OptionalPushed(condition);
      return Ok(Query(sql, params.values));
    }
  }

  /** An empty text would drop the user's filter. */
  lemma {:induction false} CompiledNotEmpty(node: Node)
    ensures Compiled(node) != ""
  {
    match node
    case And(cs) => if |cs| == 1 { CompiledNotEmpty(cs[0]); }
    case Or(cs) => if |cs| == 1 { CompiledNotEmpty(cs[0]); }
    case _ =>
  }

  // ---- UPDATE -----------------------------------------------------------------------------------

  /** A column and its new value; a missing value is written as NULL. */
  datatype Change = Change(column: string, value: Option<Value>)

  function SetParts(patch: seq<Change>): seq<string> {
    if patch == [] then [] else [Quoted(patch[0].column) + " = ?"] + SetParts(patch[1..])
  }

  function SetValues(patch: seq<Change>): seq<Value> {
    if patch == [] then [] else [patch[0].value.GetOr(Null)] + SetValues(patch[1..])
  }

  lemma SetPartsAppend(patch: seq<Change>, c: Change)
    ensures SetParts(patch + [c]) == SetParts(patch) + [Quoted(c.column) + " = ?"]
    ensures SetValues(patch + [c]) == SetValues(patch) + [c.value.GetOr(Null)]
  {
    if patch == [] {
      assert patch + [c] == [c];
      assert [c][1..] == [];
    } else {
      assert (patch + [c])[1..] == patch[1..] + [c];
      SetPartsAppend(patch[1..], c);
    }
  }

  function WhereText(condition: Option<Node>): string {
    match condition
    case Some(node) => " WHERE " + Compiled(node)
    case None => ""
  }

  function UpdateText(table: string, patch: seq<Change>, condition: Option<Node>): string {
    "UPDATE " + Quoted(table) + " SET " + Join(SetParts(patch), ", ") + WhereText(condition)
  }

  predicate Filterable(schema: Schema, condition: Option<Node>) {
    forall c <- OptionalColumns(condition) :: Indexed(schema, c)
  }

  /** Updates and deletes are held to the same of their condition. */
  lemma FilterableIff(schema: Schema, condition: Option<Node>)
    requires OptionalPlain(condition)
    ensures Filterable(schema, condition) <==> condition.Some? ==> NamesHaveIndex(schema, condition.value)
  {
    hide NamesHaveIndex, Compiled;
    if condition.Some? { ConditionIsChecked(schema, condition.value); }
  }

  class UpdateQueryBuilder {
    const schema: Schema
    var patch: seq<Change>
    var condition: Option<Node>

    constructor (schema: Schema)
      ensures this.schema == schema && patch == [] && condition == None
    {
      this.schema := schema;
      patch, condition := [], None;
    }

    method Set(changes: seq<Change>)
      modifies this`patch
      ensures patch == changes
    {
      patch := changes;
    }

    method Where(node: Node)
      modifies this`condition
      ensures condition == Some(node)
    {
      condition := Some(node);
    }

    method Execute() returns (r: Result<Query>)
      ensures r.Ok? <==> patch != [] && Filterable(schema, condition)
      ensures r.Ok? ==>
        r.value == Query(UpdateText(schema.name, patch, condition), SetValues(patch) + OptionalPushed(condition))
    {
      if patch == [] { return Err; }
      if condition.Some? {
        var indexed := CheckIndexed(schema, ConditionColumns(condition.value));
        if !indexed { return Err; }
      }
      var params := new Params();
      var clauses: seq<string> := [];
      for i := 0 to |patch|
        invariant fresh(params)
        invariant clauses == SetParts(patch[..i])
        invariant params.values == SetValues(patch[..i])
      {
        assert patch[..i + 1] == patch[..i] + [patch[i]];
        SetPartsAppend(patch[..i], patch[i]);
        params.Push(patch[i].value.GetOr(Null));
        clauses := clauses + [Quoted(patch[i].column) + " = ?"];
      }
      assert patch[..|patch|] == patch;
      var setClause := JoinParts(clauses, ", ");
      var sql := "UPDATE " + Quoted(schema.name) + " SET " + setClause;
      if condition.Some? {
        var filter := CompileCondition(condition.value, params);
        sql := sql + (" WHERE " + filter);
      }
      assert SetValues(patch) + [] == SetValues(patch);
      assert sql + "" == sql;
      return Ok(Query(sql, params.values));
    }
  }

  /** Deleting is an update that stamps `deletedAt` with the time of the call. */
  class DeleteQueryBuilder {
    const schema: Schema
    var condition: Option<Node>

    constructor (schema: Schema)
      ensures this.schema == schema && condition == None
    {
      this.schema := schema;
      condition := None;
    }

    method Where(node: Node)
      modifies this`condition
      ensures condition == Some(node)
    {
      condition := Some(node);
    }

    method Execute(now: int) returns (r: Result<Query>)
      ensures r.Ok? <==> Filterable(schema, condition)
      ensures r.Ok? ==>
        r.value == Query(UpdateText(schema.name, Stamp(now), condition),
                         SetValues(Stamp(now)) + OptionalPushed(condition))
    {
      if condition.Some? {
        var indexed := CheckIndexed(schema, ConditionColumns(condition.value));
        if !indexed { return Err; }
      }
      var params := new Params();
      params.Push(Number(now));
      assert Stamp(now)[1..] == [];
      assert SetValues(Stamp(now)) == [Number(now)];
      assert SetParts(Stamp(now)) == [Quoted("deletedAt") + " = ?"];
      var sql := "UPDATE " + Quoted(schema.name) + " SET \"deletedAt\" = ?";
      StampText("UPDATE " + Quoted(schema.name));
      if condition.Some? {
        var filter := CompileCondition(condition.value, params);
        sql := sql + (" WHERE " + filter);
      }
      assert [] + [Number(now)] == [Number(now)];
      assert [Number(now)] + [] == [Number(now)];
      assert sql + "" == sql;
      return Ok(Query(sql, params.values));
    }
  }

  lemma StampText(head: string)
    ensures head + " SET \"deletedAt\" = ?" == head + " SET " + (Quoted("deletedAt") + " = ?")
  {
    assert " SET \"deletedAt\" = ?" == " SET " + (Quoted("deletedAt") + " = ?");
    Cat(head, " SET ", Quoted("deletedAt") + " = ?");
  }

  function Stamp(now: int): seq<Change> { [Change("deletedAt", Some(Number(now)))] }

  // ---- reading a SELECT back --------------------------------------------------------------------

  function CountTokens(n: int): seq<Token> {
    if n < 0 then [Minus, Lit(Number(-n))] else [Lit(Number(n))]
  }

  lemma LexCount(keyword: string, n: int, rest: string)
    requires keyword != "" && forall c <- keyword :: IsLetter(c)
    requires Ends(rest)
    ensures Lex(" " + keyword + " " + Decimal.DecimalText(n) + rest)
         == Before([Word(keyword)] + CountTokens(n), Lex(rest))
  {
    hide Lex;
    var number := Decimal.DecimalText(n) + rest;
    CountText(" " + keyword, Decimal.DecimalText(n), rest);
    LexKeyword(keyword, " " + number);
    LexSpace(number);
    LexSigned(n, rest);
    BeforeBefore([Word(keyword)], CountTokens(n), Lex(rest));
  }

  lemma CountText(a: string, b: string, rest: string)
    ensures a + " " + b + rest == a + (" " + (b + rest))
  {
    Cat(a, " ", b);
    Cat(a, " " + b, rest);
    Cat(" ", b, rest);
  }

  lemma LexSigned(n: int, rest: string)
    requires Ends(rest)
    ensures Lex(Decimal.DecimalText(n) + rest) == Before(CountTokens(n), Lex(rest))
  {
    hide Lex;
    if n < 0 {
      LexNumber(-n, rest);
      Cat("-", Decimal.Digits(-n), rest);
      LexSingle('-', Decimal.Digits(-n) + rest);
      BeforeBefore([Minus], [Lit(Number(-n))], Lex(rest));
      assert [Minus] + [Lit(Number(-n))] == CountTokens(n);
    } else {
      LexNumber(n, rest);
    }
  }

  function OrderTokens(s: Selection): seq<Token> {
    if s.orderBy == "" then []
    else [Word("ORDER"), Word("BY"), Name(s.orderBy), Word(if s.ascending then "ASC" else "DESC")]
  }

  lemma LexOrder(s: Selection, rest: string)
    requires Plain(s.orderBy)
    requires Ends(rest)
    ensures Lex(OrderText(s) + rest) == Before(OrderTokens(s), Lex(rest))
  {
    hide Lex, LetterRun;
    if s.orderBy == "" {
      assert "" + rest == rest;
      BeforeNothing(Lex(rest));
    } else {
      var direction := if s.ascending then "ASC" else "DESC";
      var last := " " + direction + rest;
      var column := Quoted(s.orderBy) + last;
      var afterOrder := " " + "BY" + (" " + column);
      assert OrderText(s) + rest == " " + "ORDER" + afterOrder by { OrderTextSplits(s.orderBy, direction, rest); }
      LexKeyword("ORDER", afterOrder);
      LexKeyword("BY", " " + column);
      LexSpace(column);
      LexColumn(s.orderBy, last);
      LexKeyword(direction, rest);
      BeforeBefore([Name(s.orderBy)], [Word(direction)], Lex(rest));
      BeforeThrice([Word("ORDER")], [Word("BY")], [Name(s.orderBy)] + [Word(direction)], Lex(rest));
      assert [Word("ORDER")] + [Word("BY")] + ([Name(s.orderBy)] + [Word(direction)]) == OrderTokens(s);
    }
  }

  lemma OrderTextSplits(column: string, direction: string, rest: string)
    ensures " ORDER BY " + Quoted(column) + " " + direction + rest
         == " " + "ORDER" + (" " + "BY" + (" " + (Quoted(column) + (" " + direction + rest))))
  {}

  function LiveTokens(condition: Option<Node>): seq<Token> {
    [Name("deletedAt"), Word("IS"), Word("NULL")]
    + (if condition.Some? then [Word("AND")] + Tokens(condition.value) else [])
  }

  lemma LexLive(condition: Option<Node>, rest: string)
    requires OptionalPlain(condition) && Ends(rest)
    ensures Lex(LiveAnd(condition) + rest) == Before(LiveTokens(condition), Lex(rest))
  {
    hide Lex, Compiled, Tokens;
    var live := [Name("deletedAt"), Word("IS"), Word("NULL")];
    if condition.Some? {
      var text := Compiled(condition.value);
      var after := " " + "AND" + (" " + (text + rest));
      LexIsNull("deletedAt", after);
      LexCompiled(condition.value, rest);
      assert Quoted("deletedAt") + " IS NULL" + (" " + "AND" + " ") + text
          == Quoted("deletedAt") + " IS NULL AND " + text;
      LexLink(Quoted("deletedAt") + " IS NULL", live, "AND", text, Tokens(condition.value), rest);
      assert live + [Word("AND")] + Tokens(condition.value) == LiveTokens(condition);
    } else {
      LexIsNull("deletedAt", rest);
      assert live + [] == live;
    }
  }

  function TailTokens(s: Selection): seq<Token> {
    OrderTokens(s) + [Word("LIMIT")] + CountTokens(s.limit.GetOr(MAX_SYNC_PAGE_SIZE)) + OffsetTokens(s)
  }

  function TailText(s: Selection): string {
    OrderText(s) + (" LIMIT " + Decimal.DecimalText(s.limit.GetOr(MAX_SYNC_PAGE_SIZE)) + OffsetText(s))
  }

  lemma LexTail(s: Selection)
    requires Plain(s.orderBy)
    ensures Lex(TailText(s)) == Some(TailTokens(s))
  {
    hide Lex, CountTokens, OrderTokens, OrderText;
    var limit := s.limit.GetOr(MAX_SYNC_PAGE_SIZE);
    LexOffset(s);
    LexCount("LIMIT", limit, OffsetText(s));
    assert " " + "LIMIT" + " " == " LIMIT ";
    LexOrder(s, " LIMIT " + Decimal.DecimalText(limit) + OffsetText(s));
    TailTokensSplit(s);
  }

  function OffsetTokens(s: Selection): seq<Token> {
    if s.offset.Some? then [Word("OFFSET")] + CountTokens(s.offset.value) else []
  }

  lemma LexOffset(s: Selection)
    ensures Lex(OffsetText(s)) == Some(OffsetTokens(s)) && Ends(OffsetText(s))
  {
    hide Lex, CountTokens;
    if s.offset.Some? {
      LexCount("OFFSET", s.offset.value, "");
      assert " " + "OFFSET" + " " == " OFFSET ";
      LexAlone(OffsetText(s), OffsetTokens(s));
    } else {
      LexNothing();
    }
  }

  lemma TailTokensSplit(s: Selection)
    ensures TailTokens(s)
         == OrderTokens(s) + (([Word("LIMIT")] + CountTokens(s.limit.GetOr(MAX_SYNC_PAGE_SIZE))) + OffsetTokens(s))
  {
    hide CountTokens, OrderTokens, OffsetTokens;
    var limit := [Word("LIMIT")];
    var count := CountTokens(s.limit.GetOr(MAX_SYNC_PAGE_SIZE));
    assert OrderTokens(s) + limit + count + OffsetTokens(s) == OrderTokens(s) + (limit + count + OffsetTokens(s));
  }

  function SelectTokens(table: string, s: Selection): seq<Token> {
    [Word("SELECT"), Star, Word("FROM"), Name(table), Word("WHERE")] + LiveTokens(s.condition) + TailTokens(s)
  }

  lemma HeadText(table: string, body: string)
    ensures "SELECT * FROM " + Quoted(table) + " WHERE " + body
         == "SELECT" + (" " + (['*'] + (" " + "FROM" + (" " + (Quoted(table) + (" " + "WHERE" + (" " + body)))))))
  {}

  lemma LexHead(table: string, body: string)
    requires Plain(table)
    ensures Lex("SELECT * FROM " + Quoted(table) + " WHERE " + body)
         == Before([Word("SELECT"), Star, Word("FROM"), Name(table), Word("WHERE")], Lex(body))
  {
    hide Lex;
    HeadText(table, body);
    var a := " " + body;
    var b := " " + "WHERE" + a;
    var c := Quoted(table) + b;
    var d := " " + "FROM" + (" " + c);
    LexSpace(body);
    LexKeyword("WHERE", a);
    LexColumn(table, b);
    LexSpace(c);
    LexKeyword("FROM", " " + c);
    LexSingle('*', d);
    LexSpace(['*'] + d);
    LexWord("SELECT", " " + (['*'] + d));
    BeforeThrice([Word("FROM")], [Name(table)], [Word("WHERE")], Lex(body));
    BeforeThrice([Word("SELECT")], [Star], [Word("FROM")] + [Name(table)] + [Word("WHERE")], Lex(body));
    assert [Word("SELECT")] + [Star] + ([Word("FROM")] + [Name(table)] + [Word("WHERE")])
        == [Word("SELECT"), Star, Word("FROM"), Name(table), Word("WHERE")];
  }

  predicate PlainSelection(table: string, s: Selection) {
    Plain(table) && Plain(s.orderBy) && OptionalPlain(s.condition)
  }

  lemma SelectTextSplits(table: string, s: Selection)
    ensures SelectText(table, s) == "SELECT * FROM " + Quoted(table) + " WHERE " + (LiveAnd(s.condition) + TailText(s))
  {
    Regroup("SELECT * FROM " + Quoted(table) + " WHERE ", LiveAnd(s.condition), OrderText(s), " LIMIT ",
            Decimal.DecimalText(s.limit.GetOr(MAX_SYNC_PAGE_SIZE)), OffsetText(s));
  }

  lemma Regroup(a: string, b: string, c: string, d: string, e: string, f: string)
    ensures a + b + c + d + e + f == a + (b + (c + (d + e + f)))
  {
    Cat(a + b + c, d, e);
    Cat(a + b + c, d + e, f);
    Cat(a + b, c, d + e + f);
    Cat(a, b, c + (d + e + f));
  }

  lemma LexSelect(table: string, s: Selection)
    requires PlainSelection(table, s)
    ensures Lex(SelectText(table, s)) == Some(SelectTokens(table, s))
  {
    hide Lex;
    SelectTextSplits(table, s);
    LexHead(table, LiveAnd(s.condition) + TailText(s));
    TailEnds(s);
    LexLive(s.condition, TailText(s));
    LexTail(s);
    var head := [Word("SELECT"), Star, Word("FROM"), Name(table), Word("WHERE")];
    assert head + (LiveTokens(s.condition) + TailTokens(s)) == SelectTokens(table, s);
  }

  lemma TailEnds(s: Selection)
    ensures Ends(TailText(s))
  {}

  /** The filter the engine must see. */
  function LiveTree(condition: Option<Node>): Expr {
    var live := NullTest(Column("deletedAt"), false);
    if condition.Some? then AndOf(live, Tree(condition.value)) else live
  }

  function LiveBound(condition: Option<Node>): seq<Token> {
    [Name("deletedAt"), Word("IS"), Word("NULL")]
    + (if condition.Some? then [Word("AND")] + Bound(condition.value) else [])
  }

  lemma BindSelect(table: string, s: Selection)
    ensures Bind(SelectTokens(table, s), OptionalPushed(s.condition))
         == Some([Word("SELECT"), Star, Word("FROM"), Name(table), Word("WHERE")] +
                 LiveBound(s.condition) + TailTokens(s))
  {
    var head := [Word("SELECT"), Star, Word("FROM"), Name(table), Word("WHERE")];
    var tail := TailTokens(s);
    BindFixed(head);
    BindFixed(tail);
    BindLive(s.condition);
    var vs := OptionalPushed(s.condition);
    BindPair(head, [], head, LiveTokens(s.condition), vs, LiveBound(s.condition));
    BindPair(head + LiveTokens(s.condition), [] + vs, head + LiveBound(s.condition), tail, [], tail);
    assert [] + vs + [] == vs;
  }

  lemma BindLive(condition: Option<Node>)
    ensures Bind(LiveTokens(condition), OptionalPushed(condition)) == Some(LiveBound(condition))
  {
    var live := [Name("deletedAt"), Word("IS"), Word("NULL")];
    if condition.Some? {
      var node := condition.value;
      var pre := live + [Word("AND")];
      BindFixed(pre);
      BindTokens(node);
      BindPair(pre, [], pre, Tokens(node), Pushed(node), Bound(node));
      assert [] + Pushed(node) == Pushed(node);
      Cat(live, [Word("AND")], Tokens(node));
      Cat(live, [Word("AND")], Bound(node));
    } else {
      BindFixed(live);
      assert live + [] == live;
    }
  }

  lemma {:induction false} LiveParses(condition: Option<Node>, rest: seq<Token>)
    requires Closed(rest) && !Next(rest, Word("AND")) && !Next(rest, Word("OR"))
    ensures ParseOr(LiveBound(condition) + rest) == Got(LiveTree(condition), rest)
  {
    var live := NullTest(Column("deletedAt"), false);
    var liveTokens := [Name("deletedAt"), Word("IS")] + [Word("NULL")];
    if condition.Some? {
      var node := condition.value;
      var after := [Word("AND")] + (Bound(node) + rest);
      assert LiveBound(condition) + rest == liveTokens + after;
      assert after[1..] == Bound(node) + rest;
      NullTestParses("deletedAt", false, after);
      BoundParses(node, rest);
      assert AndTail(AndOf(live, Tree(node)), rest) == Got(AndOf(live, Tree(node)), rest);
      assert AndTail(live, after) == Got(AndOf(live, Tree(node)), rest);
      assert ParseAnd(liveTokens + after) == Got(AndOf(live, Tree(node)), rest);
      assert OrTail(AndOf(live, Tree(node)), rest) == Got(AndOf(live, Tree(node)), rest);
    } else {
      assert LiveBound(condition) + rest == liveTokens + rest;
      NullTestParses("deletedAt", false, rest);
      ToOr(liveTokens + rest, live, rest);
    }
  }

  function OrderOf(s: Selection): Option<(string, bool)> {
    if s.orderBy == "" then None else Some((s.orderBy, s.ascending))
  }

  lemma CountParses(keyword: string, n: int, default: int, rest: seq<Token>)
    ensures ParseCount([Word(keyword)] + CountTokens(n) + rest, keyword, default) == Got(n, rest)
  {
    var ts := [Word(keyword)] + CountTokens(n) + rest;
    assert n < 0 ==> ts[3..] == rest;
    assert n >= 0 ==> ts[2..] == rest;
  }

  lemma TailParses(table: string, s: Selection, filter: Expr, ts: seq<Token>)
    requires ParseWhere(ts) == Got(Some(filter), TailTokens(s))
    ensures ParseSelectTail(table, ts)
         == Some(Select(table, Some(filter), OrderOf(s), s.limit.GetOr(MAX_SYNC_PAGE_SIZE), s.offset.GetOr(0)))
  {
    hide ParseWhere, ParseOrderBy, ParseCount, TailTokens, CountTokens, OrderTokens, OffsetTokens;
    var limit := s.limit.GetOr(MAX_SYNC_PAGE_SIZE);
    TailTokensSplit(s);
    OrderByParses(s, [Word("LIMIT")] + CountTokens(limit) + OffsetTokens(s));
    CountParses("LIMIT", limit, -1, OffsetTokens(s));
    OffsetParses(s);
  }

  lemma OrderByParses(s: Selection, rest: seq<Token>)
    requires rest != [] && rest[0] == Word("LIMIT")
    ensures ParseOrderBy(OrderTokens(s) + rest) == Got(OrderOf(s), rest)
  {
    var ts := OrderTokens(s) + rest;
    if s.orderBy == "" {
      assert ts == rest;
    } else {
      assert ts[4..] == rest;
    }
  }

  lemma OffsetParses(s: Selection)
    ensures ParseCount(OffsetTokens(s), "OFFSET", 0) == Got(s.offset.GetOr(0), [])
  {
    if s.offset.Some? {
      CountParses("OFFSET", s.offset.value, 0, []);
      assert OffsetTokens(s) + [] == OffsetTokens(s);
    }
  }

  /**
  Read by the engine, the statement selects from the table the rows that are
  live and for which the condition is true, in the order and window asked for.
  */
  lemma SelectMeans(en: Engine, table: string, s: Selection)
    requires PlainSelection(table, s)
    ensures
      var read := ReadStatement(SelectText(table, s), OptionalPushed(s.condition));
      && read.Some? && read.value.Select? && read.value.filter.Some?
      && read.value.table == table
      && read.value.order == OrderOf(s)
      && read.value.limit == s.limit.GetOr(MAX_SYNC_PAGE_SIZE)
      && read.value.offset == s.offset.GetOr(0)
      && (Truly(en, read.value.filter.value) == True
          <==> en.cell("deletedAt").Null? && (s.condition.Some? ==> Meaning(en, s.condition.value) == True))
  {
    hide Lex, Bind, ParseOr, LiveTree, LiveBound, TailTokens, SelectTokens, SelectText, PlainSelection;
    LexSelect(table, s);
    BindSelect(table, s);
    var tail := TailTokens(s);
    TailCloses(s);
    LiveParses(s.condition, tail);
    var e := LiveTree(s.condition);
    WhereParses(LiveBound(s.condition) + tail, e, tail);
    TailParses(table, s, e, [Word("WHERE")] + (LiveBound(s.condition) + tail));
    HeadParses(table, LiveBound(s.condition), tail);
    LiveTreeMeans(en, s.condition);
  }

  lemma TailCloses(s: Selection)
    ensures Closed(TailTokens(s)) && !Next(TailTokens(s), Word("AND")) && !Next(TailTokens(s), Word("OR"))
  {
    assert TailTokens(s)[0] == if s.orderBy == "" then Word("LIMIT") else Word("ORDER");
  }

  lemma WhereParses(ts: seq<Token>, e: Expr, rest: seq<Token>)
    requires ParseOr(ts) == Got(e, rest)
    ensures ParseWhere([Word("WHERE")] + ts) == Got(Some(e), rest)
  {
    assert ([Word("WHERE")] + ts)[1..] == ts;
  }

  lemma HeadParses(table: string, live: seq<Token>, tail: seq<Token>)
    ensures ParseStatement([Word("SELECT"), Star, Word("FROM"), Name(table), Word("WHERE")] + live + tail)
         == ParseSelectTail(table, [Word("WHERE")] + (live + tail))
  {
    var all := [Word("SELECT"), Star, Word("FROM"), Name(table), Word("WHERE")] + live + tail;
    assert all[4..] == [Word("WHERE")] + (live + tail);
  }

  lemma LiveTreeMeans(en: Engine, condition: Option<Node>)
    ensures Truly(en, LiveTree(condition)) == True
       <==> en.cell("deletedAt").Null? && (condition.Some? ==> Meaning(en, condition.value) == True)
  {
    var live := NullTest(Column("deletedAt"), false);
    assert Truly(en, live) == Known(en.cell("deletedAt").Null?) by {
      assert Eval(en, Column("deletedAt")) == en.cell("deletedAt");
    }
    if condition.Some? { TreeMeans(en, condition.value); }
  }

  // ---- reading an UPDATE back -------------------------------------------------------------------

  predicate PlainPatch(patch: seq<Change>) { forall c <- patch :: Plain(c.column) }

  function SetTokens(patch: seq<Change>): seq<Token> {
    if patch == [] then []
    else if |patch| == 1 then [Name(patch[0].column), Rel(Eq), Mark]
    else [Name(patch[0].column), Rel(Eq), Mark] + [Comma] + SetTokens(patch[1..])
  }

  function SetBound(patch: seq<Change>): seq<Token> {
    if patch == [] then []
    else if |patch| == 1 then [Name(patch[0].column), Rel(Eq), Lit(patch[0].value.GetOr(Null))]
    else [Name(patch[0].column), Rel(Eq), Lit(patch[0].value.GetOr(Null))] + [Comma] + SetBound(patch[1..])
  }

  /** The assignments the engine must see: each column gets its own value. */
  function Assignments(patch: seq<Change>): seq<(string, Expr)> {
    if patch == [] then []
    else [(patch[0].column, Const(patch[0].value.GetOr(Null)))] + Assignments(patch[1..])
  }

  lemma SetPartsCount(patch: seq<Change>)
    ensures |SetParts(patch)| == |patch|
  {}

  lemma JoinSets(patch: seq<Change>)
    requires patch != []
    ensures |patch| == 1 ==> Join(SetParts(patch), ", ") == Quoted(patch[0].column) + " = ?"
    ensures |patch| > 1 ==>
      Join(SetParts(patch), ", ") == Quoted(patch[0].column) + " = ?" + ", " + Join(SetParts(patch[1..]), ", ")
  {
    SetPartsCount(patch);
    assert SetParts(patch)[1..] == SetParts(patch[1..]);
  }

  lemma AssignText(c: string, rest: string)
    ensures Quoted(c) + " = ?" + rest == Quoted(c) + " " + Symbol(Eq) + " ?" + rest
  {
    assert " = ?" == " " + "=" + " ?";
    Cat(Quoted(c), " ", "=");
    Cat(Quoted(c), " " + "=", " ?");
  }

  lemma {:induction false} LexSets(patch: seq<Change>, rest: string)
    requires patch != [] && PlainPatch(patch)
    ensures Lex(Join(SetParts(patch), ", ") + rest) == Before(SetTokens(patch), Lex(rest))
  {
    hide Lex;
    var column := patch[0].column;
    var one := [Name(column), Rel(Eq), Mark];
    JoinSets(patch);
    if |patch| == 1 {
      AssignText(column, rest);
      LexComparison(Eq, column, rest);
      } else {
      var more := Join(SetParts(patch[1..]), ", ");
      var after := [','] + (" " + (more + rest));
      CommaText(Quoted(column) + " = ?", more, rest);
      AssignText(column, after);
      LexComparison(Eq, column, after);
      LexSingle(',', " " + (more + rest));
      LexSpace(more + rest);
      LexSets(patch[1..], rest);
      BeforeThrice(one, [Comma], SetTokens(patch[1..]), Lex(rest));
      assert one + [Comma] + SetTokens(patch[1..]) == SetTokens(patch);
    }
  }

  lemma CommaText(a: string, b: string, rest: string)
    ensures a + ", " + b + rest == a + ([','] + (" " + (b + rest)))
  {
    assert ", " == [','] + " ";
    Cat(a, ", ", b);
    Cat(a, ", " + b, rest);
    Cat([','], " ", b);
    Cat([','], " " + b, rest);
    Cat(" ", b, rest);
  }

  lemma {:induction false} BindSets(patch: seq<Change>)
    ensures Bind(SetTokens(patch), SetValues(patch)) == Some(SetBound(patch))
  {
    hide Bind;
    if patch == [] {
      BindFixed([]);
    } else {
      var c, v := patch[0].column, patch[0].value.GetOr(Null);
      BindAssignment(c, v);
      if |patch| == 1 {
        assert SetValues(patch[1..]) == [] && SetValues(patch) == [v];
      } else {
        BindSets(patch[1..]);
        BindLink([Name(c), Rel(Eq), Mark], [v], [Name(c), Rel(Eq), Lit(v)], Comma,
                 SetTokens(patch[1..]), SetValues(patch[1..]), SetBound(patch[1..]));
      }
    }
  }

  lemma BindAssignment(c: string, v: Value)
    ensures Bind([Name(c), Rel(Eq), Mark], [v]) == Some([Name(c), Rel(Eq), Lit(v)])
  {
    hide Bind;
    var pre := [Name(c), Rel(Eq)];
    BindFixed(pre);
    BindMark(v);
    BindPair(pre, [], pre, [Mark], [v], [Lit(v)]);
    assert [] + [v] == [v];
    assert pre + [Mark] == [Name(c), Rel(Eq), Mark] && pre + [Lit(v)] == [Name(c), Rel(Eq), Lit(v)];
  }

  lemma {:induction false} SetsParse(patch: seq<Change>, rest: seq<Token>)
    requires patch != [] && (rest == [] || rest[0] == Word("WHERE"))
    ensures ParseSets(SetBound(patch) + rest) == Got(Assignments(patch), rest)
  {
    hide ParseSets;
    var c, v := patch[0].column, patch[0].value.GetOr(Null);
    var one := [Name(c), Rel(Eq), Lit(v)];
    if |patch| == 1 {
      AssignmentParses(c, v, rest);
      assert Assignments(patch[1..]) == [];
      assert Assignments(patch) == [(c, Const(v))];
    } else {
      var more := SetBound(patch[1..]) + rest;
      SetsParse(patch[1..], rest);
      Cat(one + [Comma], SetBound(patch[1..]), rest);
      Cat(one, [Comma], more);
      assert ([Comma] + more)[1..] == more;
      AssignmentParses(c, v, [Comma] + more);
    }
  }

  /** One assignment and what comes after it. */
  lemma {:induction false} AssignmentParses(c: string, v: Value, rest: seq<Token>)
    requires rest == [] || rest[0] in {Word("WHERE"), Comma}
    ensures !Next(rest, Comma) ==> ParseSets([Name(c), Rel(Eq), Lit(v)] + rest) == Got([(c, Const(v))], rest)
    ensures Next(rest, Comma) && ParseSets(rest[1..]).Got? ==>
      ParseSets([Name(c), Rel(Eq), Lit(v)] + rest)
      == Got([(c, Const(v))] + ParseSets(rest[1..]).value, ParseSets(rest[1..]).rest)
  {
    hide ParseNot, ParseOr;
    var ts := [Name(c), Rel(Eq), Lit(v)] + rest;
    assert ts[2..] == [Lit(v)] + rest;
    ConstParses(v, rest);
    ToOr([Lit(v)] + rest, Const(v), rest);
  }

  function WhereTokens(condition: Option<Node>): seq<Token> {
    if condition.Some? then [Word("WHERE")] + Tokens(condition.value) else []
  }

  function WhereBound(condition: Option<Node>): seq<Token> {
    if condition.Some? then [Word("WHERE")] + Bound(condition.value) else []
  }

  lemma UpdateHeadText(table: string, body: string)
    ensures "UPDATE " + Quoted(table) + " SET " + body
         == "UPDATE" + (" " + (Quoted(table) + (" " + "SET" + (" " + body))))
  {}

  lemma LexWhere(condition: Option<Node>)
    requires OptionalPlain(condition)
    ensures Lex(WhereText(condition)) == Some(WhereTokens(condition))
  {
    hide Lex;
    if condition.Some? {
      var text := Compiled(condition.value);
      LexCompiled(condition.value, "");
      LexAlone(text, Tokens(condition.value));
      assert WhereText(condition) == " " + "WHERE" + (" " + text);
      LexKeyword("WHERE", " " + text);
      LexSpace(text);
    } else {
      LexNothing();
    }
  }

  lemma LexUpdate(table: string, patch: seq<Change>, condition: Option<Node>)
    requires Plain(table) && patch != [] && PlainPatch(patch) && OptionalPlain(condition)
    ensures Lex(UpdateText(table, patch, condition))
         == Some([Word("UPDATE"), Name(table), Word("SET")] + SetTokens(patch) + WhereTokens(condition))
  {
    hide Lex, Join, SetParts, WhereText, SetTokens, WhereTokens;
    var body := Join(SetParts(patch), ", ") + WhereText(condition);
    assert UpdateText(table, patch, condition) == "UPDATE " + Quoted(table) + " SET " + body;
    UpdateHeadText(table, body);
    var a := " " + "SET" + (" " + body);
    LexWord("UPDATE", " " + (Quoted(table) + a));
    LexSpace(Quoted(table) + a);
    LexColumn(table, a);
    LexKeyword("SET", " " + body);
    LexSpace(body);
    LexSets(patch, WhereText(condition));
    LexWhere(condition);
    BeforeThrice([Word("UPDATE")], [Name(table)], [Word("SET")], Lex(body));
    assert [Word("UPDATE")] + [Name(table)] + [Word("SET")] + (SetTokens(patch) + WhereTokens(condition))
        == [Word("UPDATE"), Name(table), Word("SET")] + SetTokens(patch) + WhereTokens(condition);
  }

  lemma BindWhere(condition: Option<Node>)
    ensures Bind(WhereTokens(condition), OptionalPushed(condition)) == Some(WhereBound(condition))
  {
    if condition.Some? {
      var node := condition.value;
      BindFixed([Word("WHERE")]);
      BindTokens(node);
      BindPair([Word("WHERE")], [], [Word("WHERE")], Tokens(node), Pushed(node), Bound(node));
      assert [] + Pushed(node) == Pushed(node);
    } else {
      BindFixed([]);
    }
  }

  /**
  Read by the engine, the statement gives each patched column its own value
  (the SET placeholders take the first parameters) in exactly the rows for
  which the condition is true.
  */
  lemma UpdateMeans(en: Engine, table: string, patch: seq<Change>, condition: Option<Node>)
    requires Plain(table) && patch != [] && PlainPatch(patch) && OptionalPlain(condition)
    ensures
      var read := ReadStatement(UpdateText(table, patch, condition), SetValues(patch) + OptionalPushed(condition));
      && read.Some? && read.value.Update?
      && read.value.table == table
      && read.value.sets == Assignments(patch)
      && (read.value.filter.Some? <==> condition.Some?)
      && (condition.Some? ==> Truly(en, read.value.filter.value) == Meaning(en, condition.value))
  {
    hide Lex, Bind, ParseOr, ParseNot, Bound, Tree, SetBound, UpdateText;
    LexUpdate(table, patch, condition);
    BindUpdate(table, patch, condition);
    SetsParse(patch, WhereBound(condition));
    UpdateHeadParses(table, SetBound(patch), WhereBound(condition));
    if condition.Some? {
      var node := condition.value;
      BoundParses(node, []);
      ToOr(Bound(node) + [], Tree(node), []);
      WhereParses(Bound(node) + [], Tree(node), []);
      assert Bound(node) + [] == Bound(node);
      TreeMeans(en, node);
    }
  }

  lemma BindUpdate(table: string, patch: seq<Change>, condition: Option<Node>)
    ensures Bind([Word("UPDATE"), Name(table), Word("SET")] + SetTokens(patch) + WhereTokens(condition),
                 SetValues(patch) + OptionalPushed(condition))
         == Some([Word("UPDATE"), Name(table), Word("SET")] + SetBound(patch) + WhereBound(condition))
  {
    var head := [Word("UPDATE"), Name(table), Word("SET")];
    BindFixed(head);
    BindSets(patch);
    BindWhere(condition);
    BindPair(head, [], head, SetTokens(patch), SetValues(patch), SetBound(patch));
    assert [] + SetValues(patch) == SetValues(patch);
    BindPair(head + SetTokens(patch), SetValues(patch), head + SetBound(patch),
             WhereTokens(condition), OptionalPushed(condition), WhereBound(condition));
  }

  lemma UpdateHeadParses(table: string, sets: seq<Token>, filter: seq<Token>)
    ensures ParseStatement([Word("UPDATE"), Name(table), Word("SET")] + sets + filter)
         == ParseUpdateTail(table, sets + filter)
  {
    var all := [Word("UPDATE"), Name(table), Word("SET")] + sets + filter;
    assert all[3..] == sets + filter;
  }

  /** A row is stamped as deleted by `DeleteQueryBuilder` if and only if the condition is true of it. */
  lemma DeleteMeans(en: Engine, table: string, now: int, condition: Option<Node>)
    requires Plain(table) && OptionalPlain(condition)
    ensures
      var read := ReadStatement(UpdateText(table, Stamp(now), condition),
                                SetValues(Stamp(now)) + OptionalPushed(condition));
      && read.Some? && read.value.Update?
      && read.value.table == table
      && read.value.sets == [("deletedAt", Const(Number(now)))]
      && (read.value.filter.Some? <==> condition.Some?)
      && (condition.Some? ==> (Truly(en, read.value.filter.value) == True <==> Meaning(en, condition.value) == True))
  {
    UpdateMeans(en, table, Stamp(now), condition);
    assert Stamp(now)[1..] == [];
    assert Assignments(Stamp(now)[1..]) == [];
  }
}
