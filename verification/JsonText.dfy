/**
The hand-written JSON parser and printer. Strings are sequences of bytes. The
printer escapes control characters as \u00xx, a form the parser does not know.
*/
module JsonText {
  import opened Wrappers
  import opened OrderedMap
  import Decimal

  datatype Value =
    | Null
    | Bool(b: bool)
    | Number(r: real)
    | Text(s: string)
    | Array(items: seq<Value>)
    | Object(entries: seq<Entry<Value>>)

  const BACKSPACE := '\U{0008}'
  const FORM_FEED := '\U{000C}'

  // ---- the printer ------------------------------------------------------------------------------

  function HexDigit(k: nat): (c: char)
    requires k < 16
    ensures '0' <= c <= '9' || 'a' <= c <= 'f'
  {
    if k < 10 then ('0' as int + k) as char else ('a' as int + k - 10) as char
  }

  function HexPair(c: char): (r: string)
    requires c < ' '
    ensures |r| == 2 && forall h <- r :: '0' <= h <= 'f' && h != '\\'
  {
    [HexDigit(c as int / 16), HexDigit(c as int % 16)]
  }

  predicate Control(c: char) { c < ' ' && c !in ['\n', '\r', '\t', BACKSPACE, FORM_FEED] }

  function Escape(c: char): (r: string)
    ensures r != ""
  {
    if c == '"' then "\\\""
    else if c == '\\' then "\\\\"
    else if c == '\n' then "\\n"
    else if c == '\r' then "\\r"
    else if c == '\t' then "\\t"
    else if c == BACKSPACE then "\\b"
    else if c == FORM_FEED then "\\f"
    else if c < ' ' then "\\u00" + HexPair(c)
    else [c]
  }

  function EscapeAll(s: string): string { if s == "" then "" else Escape(s[0]) + EscapeAll(s[1..]) }

  function QuotedText(s: string): string { "\"" + EscapeAll(s) + "\"" }

  predicate Whole(r: real) { r == r.Floor as real && -1e15 < r < 1e15 }

  /** Numbers that are not whole, or too large, go through the library, here `wide`. */
  function NumberText(r: real, wide: real -> string): string {
    if Whole(r) then Decimal.DecimalText(r.Floor) else wide(r)
  }

  function Printed(v: Value, wide: real -> string): string {
    match v
    case Null => "null"
    case Bool(b) => if b then "true" else "false"
    case Number(r) => NumberText(r, wide)
    case Text(s) => QuotedText(s)
    case Array(items) => "[" + PrintedItems(items, wide) + "]"
    case Object(entries) => "{" + PrintedEntries(entries, wide) + "}"
  }

  function PrintedItems(items: seq<Value>, wide: real -> string): string {
    if items == [] then ""
    else if |items| == 1 then Printed(items[0], wide)
    else Printed(items[0], wide) + "," + PrintedItems(items[1..], wide)
  }

  function PrintedEntry(e: Entry<Value>, wide: real -> string): string {
    QuotedText(e.key) + ":" + Printed(e.value, wide)
  }

  function PrintedEntries(entries: seq<Entry<Value>>, wide: real -> string): string {
    if entries == [] then ""
    else if |entries| == 1 then PrintedEntry(entries[0], wide)
    else PrintedEntry(entries[0], wide) + "," + PrintedEntries(entries[1..], wide)
  }

  const HEX := "0123456789abcdef"

  /** How each byte stands in a printed string: two have a backslash, five a letter, the other controls their number. */
  lemma EscapedCharacter(c: char)
    ensures EscapeAll([c])
         == if c == '"' || c == '\\' then ['\\', c]
            else if c == '\n' then "\\n"
            else if c == '\r' then "\\r"
            else if c == '\t' then "\\t"
            else if c == '\U{0008}' then "\\b"
            else if c == '\U{000C}' then "\\f"
            else if c < ' ' then ['\\', 'u', '0', '0', HEX[c as int / 16], HEX[c as int % 16]]
            else [c]
  {
    assert EscapeAll([c][1..]) == "";
    assert Escape(c) + "" == Escape(c);
    if c < ' ' {
      HexIs(c as int / 16);
      HexIs(c as int % 16);
    }
  }

  lemma HexIs(k: nat)
    requires k < 16
    ensures HexDigit(k) == HEX[k]
  {
    if k < 8 {
      assert HEX[k] == ['0', '1', '2', '3', '4', '5', '6', '7'][k];
    }
  }

  /** Whole numbers below 10^15 in size are printed digit by digit. */
  lemma WholeNumberPrints(n: int, wide: real -> string)
    requires -1_000_000_000_000_000 < n < 1_000_000_000_000_000
    ensures Printed(Number(n as real), wide) == Decimal.DecimalText(n)
  {
    assert (n as real).Floor == n;
  }

  /** All others go through the library. */
  lemma WideNumberPrints(r: real, wide: real -> string)
    requires r != r.Floor as real || r >= 1_000_000_000_000_000.0 || r <= -1_000_000_000_000_000.0
    ensures Printed(Number(r), wide) == wide(r)
  {}

  // ---- the parser -------------------------------------------------------------------------------

  datatype Read<+T> = Got(value: T, next: nat) | Fail

  /** The byte at a position; past the end it reads as NUL. */
  function Peek(s: string, i: nat): char { if i < |s| then s[i] else '\0' }

  predicate Space(c: char) { c == ' ' || '\t' <= c <= '\r' }

  function SkipSpace(s: string, i: nat): (r: nat)
    ensures r >= i
    ensures r < |s| ==> !Space(s[r])
    decreases |s| - i
  {
    if i < |s| && Space(s[i]) then SkipSpace(s, i + 1) else i
  }

  function Unescape(c: char): char {
    if c == 'n' then '\n'
    else if c == 'r' then '\r'
    else if c == 't' then '\t'
    else if c == 'b' then BACKSPACE
    else if c == 'f' then FORM_FEED
    else c
  }

  /** The characters of a string after its opening quote, up to and over the closing one. */
  function ReadChars(s: string, i: nat): (r: Read<string>)
    ensures r.Got? ==> r.next > i
    decreases |s| - i
  {
    if i >= |s| then Fail
    else if s[i] == '"' then Got("", i + 1)
    else
      var escaped := s[i] == '\\';
      var c := if escaped then Unescape(Peek(s, i + 1)) else s[i];
      match ReadChars(s, if escaped then i + 2 else i + 1)
      case Got(text, next) => Got([c] + text, next)
      case Fail => Fail
  }

  function ReadString(s: string, i: nat): (r: Read<string>)
    ensures r.Got? ==> r.next > i
  {
    if Peek(s, i) == '"' then ReadChars(s, i + 1) else Fail
  }

  function DigitsEnd(s: string, i: nat): (r: nat)
    ensures r >= i
    ensures Decimal.IsDigit(Peek(s, i)) ==> r > i
    ensures i <= |s| ==> r <= |s|
    decreases |s| - i
  {
    if i < |s| && Decimal.IsDigit(s[i]) then DigitsEnd(s, i + 1) else i
  }

  function FractionEnd(s: string, i: nat): (r: nat)
    ensures r >= i
    ensures i <= |s| ==> r <= |s|
  {
    if Peek(s, i) == '.' then DigitsEnd(s, i + 1) else i
  }

  function ExponentEnd(s: string, i: nat): (r: nat)
    ensures r >= i
    ensures i <= |s| ==> r <= |s|
  {
    if Peek(s, i) in ['e', 'E'] then
      DigitsEnd(s, if Peek(s, i + 1) in ['+', '-'] then i + 2 else i + 1)
    else i
  }

  function NumberEnd(s: string, i: nat): (r: nat)
    ensures Peek(s, i) == '-' || Decimal.IsDigit(Peek(s, i)) ==> r > i
    ensures i <= |s| ==> r <= |s|
  {
    ExponentEnd(s, FractionEnd(s, DigitsEnd(s, if Peek(s, i) == '-' then i + 1 else i)))
  }

  function Scale(r: real, e: int): real
    decreases if e < 0 then -e else e
  {
    if e == 0 then r else if e > 0 then Scale(r * 10.0, e - 1) else Scale(r / 10.0, e + 1)
  }

  /**
  `stod` without its rounding: the longest prefix that is a number. An exponent
  without digits is not part of it; without any digit before it there is none.
  */
  function ToNumber(t: string): Option<real> {
    var start := if Peek(t, 0) == '-' then 1 else 0;
    var mid := DigitsEnd(t, start);
    var end := FractionEnd(t, mid);
    var whole := t[start..mid];
    var fraction := if end > mid then t[mid + 1..end] else "";
    Assembled(start == 1, whole, fraction, Exponent(t, end))
  }

  function Assembled(minus: bool, whole: string, fraction: string, exponent: int): Option<real> {
    if |whole| + |fraction| == 0 then None
    else
      var magnitude := Scale(Decimal.ValueOf(whole + fraction) as real, exponent - |fraction|);
      Some(if minus then -magnitude else magnitude)
  }

  function Exponent(t: string, i: nat): int
    requires i <= |t|
  {
    if Peek(t, i) !in ['e', 'E'] then 0
    else
      var signed := Peek(t, i + 1) in ['+', '-'];
      var start := if signed then i + 2 else i + 1;
      var end := DigitsEnd(t, start);
      if end == start then 0
      else
        var n: int := Decimal.ValueOf(t[start..end]);
        if signed && t[i + 1] == '-' then -n else n
  }

  function ReadNumber(s: string, i: nat): (r: Read<real>)
    requires i < |s|
    requires s[i] == '-' || Decimal.IsDigit(s[i])
    ensures r.Got? ==> r.next > i
  {
    var end := NumberEnd(s, i);
    match ToNumber(s[i..end])
    case Some(n) => Got(n, end)
    case None => Fail
  }

  function AsText(r: Read<string>): Read<Value> {
    match r
    case Got(x, next) => Got(Text(x), next)
    case Fail => Fail
  }

  function AsNumber(r: Read<real>): Read<Value> {
    match r
    case Got(x, next) => Got(Number(x), next)
    case Fail => Fail
  }

  function AsArray(r: Read<seq<Value>>): Read<Value> {
    match r
    case Got(x, next) => Got(Array(x), next)
    case Fail => Fail
  }

  function AsObject(r: Read<seq<Entry<Value>>>): Read<Value> {
    match r
    case Got(x, next) => Got(Object(x), next)
    case Fail => Fail
  }

  /** The three literals are recognised by their first letter alone. */
  function ReadValue(s: string, i: nat): (r: Read<Value>)
    ensures r.Got? ==> r.next > i
    decreases |s| - i, 2
  {
    var at := SkipSpace(s, i);
    var c := Peek(s, at);
    if c == '"' then AsText(ReadString(s, at))
    else if c == '{' then AsObject(ReadObject(s, at))
    else if c == '[' then AsArray(ReadArray(s, at))
    else if c == 't' then Got(Bool(true), at + 4)
    else if c == 'f' then Got(Bool(false), at + 5)
    else if c == 'n' then Got(Null, at + 4)
    else if c == '-' || Decimal.IsDigit(c) then AsNumber(ReadNumber(s, at))
    else Fail
  }

  function ReadObject(s: string, i: nat): (r: Read<seq<Entry<Value>>>)
    requires Peek(s, i) == '{'
    ensures r.Got? ==> r.next > i
    decreases |s| - i, 1
  {
    var start := SkipSpace(s, i + 1);
    if Peek(s, start) == '}' then Got([], start + 1) else ReadEntries(s, start, [])
  }

  function ReadArray(s: string, i: nat): (r: Read<seq<Value>>)
    requires Peek(s, i) == '['
    ensures r.Got? ==> r.next > i
    decreases |s| - i, 1
  {
    var start := SkipSpace(s, i + 1);
    if Peek(s, start) == ']' then Got([], start + 1) else ReadItems(s, start, [])
  }

  /** One key, its colon and its value. */
  function ReadEntry(s: string, i: nat): (r: Read<Entry<Value>>)
    ensures r.Got? ==> r.next > i
    decreases |s| - i, 3
  {
    match ReadString(s, SkipSpace(s, i))
    case Fail => Fail
    case Got(key, next) =>
      var colon := SkipSpace(s, next);
      if Peek(s, colon) != ':' then Fail
      else
        match ReadValue(s, SkipSpace(s, colon + 1))
        case Got(v, after) => Got(Entry(key, v), after)
        case Fail => Fail
  }

  function ReadEntries(s: string, i: nat, done: seq<Entry<Value>>): (r: Read<seq<Entry<Value>>>)
    ensures r.Got? ==> r.next > i
    decreases |s| - i, 4
  {
    match ReadEntry(s, i)
    case Fail => Fail
    case Got(e, next) =>
      var entries := Put(done, e.key, e.value);
      var at := SkipSpace(s, next);
      if Peek(s, at) == '}' then Got(entries, at + 1)
      else if Peek(s, at) == ',' then ReadEntries(s, at + 1, entries)
      else Fail
  }

  function ReadItems(s: string, i: nat, done: seq<Value>): (r: Read<seq<Value>>)
    ensures r.Got? ==> r.next > i
    decreases |s| - i, 4
  {
    match ReadValue(s, SkipSpace(s, i))
    case Fail => Fail
    case Got(v, next) =>
      var at := SkipSpace(s, next);
      if Peek(s, at) == ']' then Got(done + [v], at + 1)
      else if Peek(s, at) == ',' then ReadItems(s, at + 1, done + [v])
      else Fail
  }

  /** `json::parse`: text after the value is not looked at. */
  function Parse(s: string): Result<Value> {
    match ReadValue(s, 0)
    case Got(v, _) => Ok(v)
    case Fail => Err
  }

  // ---- the parser as it runs --------------------------------------------------------------------

  /** A method's outcome and final position are those of a read. */
  ghost predicate Agrees<T>(r: Result<T>, pos: nat, spec: Read<T>) {
    match spec
    case Got(v, next) => r == Ok(v) && pos == next
    case Fail => r == Err
  }

  class Parser {
    const src: string
    var pos: nat

    constructor (src: string)
      ensures this.src == src && pos == 0
    {
      this.src := src;
      pos := 0;
    }

    method SkipWS()
      modifies this
      ensures pos == SkipSpace(src, old(pos))
    {
      while pos < |src| && Space(src[pos])
        invariant SkipSpace(src, pos) == SkipSpace(src, old(pos))
      {
        pos := pos + 1;
      }
    }

    method Expect(c: char) returns (ok: bool)
      modifies this
      ensures ok == (Peek(src, old(pos)) == c)
      ensures pos == if ok then old(pos) + 1 else old(pos)
    {
      ok := Peek(src, pos) == c;
      if ok { pos := pos + 1; }
    }

    method ParseString() returns (r: Result<string>)
      modifies this
      ensures Agrees(r, pos, ReadString(src, old(pos)))
    {
      var open := Expect('"');
      if !open { return Err; }
      var result := "";
      ghost var start := pos;
      PrefixedNothing(ReadChars(src, start));
      while pos < |src| && src[pos] != '"'
        invariant pos >= start
        invariant ReadChars(src, start) == Prefixed(result, ReadChars(src, pos))
        decreases |src| - pos
      {
        var c := src[pos];
        ghost var rest := ReadChars(src, pos);
        pos := pos + 1;
        if c == '\\' {
          c := Unescape(Peek(src, pos));
          pos := pos + 1;
        }
        PrefixedTwice(result, [c], ReadChars(src, pos));
        assert rest == Prefixed([c], ReadChars(src, pos));
        result := result + [c];
      }
      assert result + "" == result;
      var close := Expect('"');
      return if close then Ok(result) else Err;
    }

    method SkipDigits()
      modifies this
      ensures pos == DigitsEnd(src, old(pos))
    {
      while pos < |src| && Decimal.IsDigit(src[pos])
        invariant DigitsEnd(src, pos) == DigitsEnd(src, old(pos))
      {
        pos := pos + 1;
      }
    }

    method SkipNumber()
      modifies this
      ensures pos == NumberEnd(src, old(pos))
    {
      hide DigitsEnd, FractionEnd, ExponentEnd;
      if Peek(src, pos) == '-' { pos := pos + 1; }
      SkipDigits();
      SkipFraction();
      SkipExponent();
    }

    method SkipFraction()
      modifies this
      ensures pos == FractionEnd(src, old(pos))
    {
      hide DigitsEnd;
      if Peek(src, pos) == '.' {
        pos := pos + 1;
        SkipDigits();
      }
    }

    method SkipExponent()
      modifies this
      ensures pos == ExponentEnd(src, old(pos))
    {
      hide DigitsEnd;
      if Peek(src, pos) in ['e', 'E'] {
        pos := pos + 1;
        if Peek(src, pos) in ['+', '-'] { pos := pos + 1; }
        SkipDigits();
      }
    }

    method ParseNumber() returns (r: Result<real>)
      requires pos < |src| && (src[pos] == '-' || Decimal.IsDigit(src[pos]))
      modifies this
      ensures Agrees(r, pos, ReadNumber(src, old(pos)))
    {
      var start := pos;
      SkipNumber();
      var n := ToNumber(src[start..pos]);
      return if n.Some? then Ok(n.value) else Err;
    }

    method ParseValue() returns (r: Result<Value>)
      modifies this
      ensures Agrees(r, pos, ReadValue(src, old(pos)))
      decreases |src| - pos, 1
    {
      SkipWS();
      var c := Peek(src, pos);
      if c == '"' {
        var text := ParseString();
        return if text.Ok? then Ok(Text(text.value)) else Err;
      } else if c == '{' {
        var entries := ParseObject();
        return if entries.Ok? then Ok(Object(entries.value)) else Err;
      } else if c == '[' {
        var items := ParseArray();
        return if items.Ok? then Ok(Array(items.value)) else Err;
      } else if c == 't' {
        pos := pos + 4;
        return Ok(Bool(true));
      } else if c == 'f' {
        pos := pos + 5;
        return Ok(Bool(false));
      } else if c == 'n' {
        pos := pos + 4;
        return Ok(Null);
      } else if c == '-' || Decimal.IsDigit(c) {
        var n := ParseNumber();
        return if n.Ok? then Ok(Number(n.value)) else Err;
      } else {
        return Err;
      }
    }

    method ParseObject() returns (r: Result<seq<Entry<Value>>>)
      requires Peek(src, pos) == '{'
      modifies this
      ensures Agrees(r, pos, ReadObject(src, old(pos)))
      decreases |src| - pos, 0
    {
      hide Put, ReadEntry, SkipSpace;
      var open := Expect('{');
      var obj := new Ordered<Value>();
      SkipWS();
      if Peek(src, pos) == '}' {
        pos := pos + 1;
        return Ok([]);
      }
      ghost var all := ReadEntries(src, pos, []);
      while true
        invariant pos > old(pos) && fresh(obj)
        invariant ReadEntries(src, pos, obj.entries) == all
        decreases |src| - pos
      {
        var e := ParseEntry();
        if e == Err { return Err; }
        obj.Assign(e.value.key, e.value.value);
        SkipWS();
        if Peek(src, pos) == '}' {
          pos := pos + 1;
          return Ok(obj.entries);
        }
        var comma := Expect(',');
        if !comma { return Err; }
      }
    }

    method ParseEntry() returns (r: Result<Entry<Value>>)
      modifies this
      ensures Agrees(r, pos, ReadEntry(src, old(pos)))
      decreases |src| - pos, 0
    {
      SkipWS();
      var key := ParseString();
      if key == Err { return Err; }
      SkipWS();
      var colon := Expect(':');
      if !colon { return Err; }
      SkipWS();
      var v := ParseValue();
      if v == Err { return Err; }
      return Ok(Entry(key.value, v.value));
    }

    method ParseArray() returns (r: Result<seq<Value>>)
      requires Peek(src, pos) == '['
      modifies this
      ensures Agrees(r, pos, ReadArray(src, old(pos)))
      decreases |src| - pos, 0
    {
      hide ReadValue, SkipSpace;
      var open := Expect('[');
      var items: seq<Value> := [];
      SkipWS();
      if Peek(src, pos) == ']' {
        pos := pos + 1;
        return Ok(items);
      }
      ghost var all := ReadItems(src, pos, []);
      while true
        invariant pos > old(pos)
        invariant ReadItems(src, pos, items) == all
        decreases |src| - pos
      {
        SkipWS();
        var v := ParseValue();
        if v == Err { return Err; }
        items := items + [v.value];
        SkipWS();
        if Peek(src, pos) == ']' {
          pos := pos + 1;
          return Ok(items);
        }
        var comma := Expect(',');
        if !comma { return Err; }
      }
    }
  }

  function Prefixed(done: string, r: Read<string>): Read<string> {
    match r
    case Got(text, next) => Got(done + text, next)
    case Fail => Fail
  }

  lemma PrefixedNothing(r: Read<string>)
    ensures Prefixed("", r) == r
  {
    if r.Got? { assert "" + r.value == r.value; }
  }

  lemma PrefixedTwice(a: string, b: string, r: Read<string>)
    ensures Prefixed(a, Prefixed(b, r)) == Prefixed(a + b, r)
  {
    if r.Got? { assert a + (b + r.value) == a + b + r.value; }
  }

  method ParseText(json: string) returns (r: Result<Value>)
    ensures r == Parse(json)
  {
    var parser := new Parser(json);
    r := parser.ParseValue();
    parser.SkipWS();
  }

  // ---- the printer as it runs -------------------------------------------------------------------

  class Stream {
    var text: string

    constructor ()
      ensures text == ""
    {
      text := "";
    }

    method Append(s: string)
      modifies this
      ensures text == old(text) + s
    {
      text := text + s;
    }
  }

  lemma EscapeAllAppend(s: string, c: char)
    ensures EscapeAll(s + [c]) == EscapeAll(s) + Escape(c)
  {
    if s == "" {
      assert s + [c] == [c];
      assert EscapeAll([c][1..]) == "";
    } else {
      assert (s + [c])[1..] == s[1..] + [c];
      EscapeAllAppend(s[1..], c);
    }
  }

  lemma Cat(a: string, b: string, c: string)
    ensures a + b + c == a + (b + c)
  {}

  method AppendEscape(c: char, out: Stream)
    modifies out
    ensures out.text == old(out.text) + Escape(c)
  {
    out.Append(Escape(c));
  }

  method StringifyString(s: string, out: Stream)
    modifies out
    ensures out.text == old(out.text) + QuotedText(s)
  {
    ghost var before := out.text;
    out.Append("\"");
    Cat(before, "\"", EscapeAll(s[..0]));
    for i := 0 to |s|
      invariant out.text == before + ("\"" + EscapeAll(s[..i]))
    {
      assert s[..i + 1] == s[..i] + [s[i]];
      EscapeAllAppend(s[..i], s[i]);
      AppendEscape(s[i], out);
      Cat(before, "\"" + EscapeAll(s[..i]), Escape(s[i]));
      Cat("\"", EscapeAll(s[..i]), Escape(s[i]));
    }
    assert s[..|s|] == s;
    out.Append("\"");
    Cat(before, "\"" + EscapeAll(s), "\"");
  }

  lemma PrintedItemsAppend(items: seq<Value>, v: Value, wide: real -> string)
    ensures PrintedItems(items + [v], wide)
         == PrintedItems(items, wide) + (if items == [] then "" else ",") + Printed(v, wide)
  {
    if items == [] {
      assert items + [v] == [v];
    } else {
      assert (items + [v])[1..] == items[1..] + [v];
      PrintedItemsAppend(items[1..], v, wide);
    }
  }

  lemma PrintedEntriesAppend(entries: seq<Entry<Value>>, e: Entry<Value>, wide: real -> string)
    ensures PrintedEntries(entries + [e], wide)
         == PrintedEntries(entries, wide) + (if entries == [] then "" else ",") + PrintedEntry(e, wide)
  {
    if entries == [] {
      assert entries + [e] == [e];
    } else {
      assert (entries + [e])[1..] == entries[1..] + [e];
      PrintedEntriesAppend(entries[1..], e, wide);
    }
  }

  method StringifyValue(v: Value, wide: real -> string, out: Stream)
    modifies out
    ensures out.text == old(out.text) + Printed(v, wide)
    decreases v
  {
    match v
    case Null => out.Append("null");
    case Bool(b) => out.Append(if b then "true" else "false");
    case Number(r) => out.Append(NumberText(r, wide));
    case Text(s) => StringifyString(s, out);
    case Array(items) => StringifyArray(items, wide, out);
    case Object(entries) => StringifyObject(entries, wide, out);
  }

  method StringifyArray(items: seq<Value>, wide: real -> string, out: Stream)
    modifies out
    ensures out.text == old(out.text) + ("[" + PrintedItems(items, wide) + "]")
    decreases items, 0
  {
    ghost var before := out.text;
    out.Append("[");
    Cat(before, "[", PrintedItems(items[..0], wide));
    for i := 0 to |items|
      invariant out.text == before + ("[" + PrintedItems(items[..i], wide))
    {
      ghost var comma := if items[..i] == [] then "" else ",";
      ghost var done := "[" + PrintedItems(items[..i], wide);
      assert items[..i + 1] == items[..i] + [items[i]];
      PrintedItemsAppend(items[..i], items[i], wide);
      if i > 0 { out.Append(","); }
      assert out.text == before + done + comma;
      StringifyValue(items[i], wide, out);
      Join4(before, "[", PrintedItems(items[..i], wide), comma, Printed(items[i], wide));
    }
    assert items[..|items|] == items;
    out.Append("]");
    Cat(before, "[" + PrintedItems(items, wide), "]");
  }

  method StringifyObject(entries: seq<Entry<Value>>, wide: real -> string, out: Stream)
    modifies out
    ensures out.text == old(out.text) + ("{" + PrintedEntries(entries, wide) + "}")
    decreases entries, 0
  {
    ghost var before := out.text;
    out.Append("{");
    Cat(before, "{", PrintedEntries(entries[..0], wide));
    for i := 0 to |entries|
      invariant out.text == before + ("{" + PrintedEntries(entries[..i], wide))
    {
      ghost var comma := if entries[..i] == [] then "" else ",";
      ghost var done := "{" + PrintedEntries(entries[..i], wide);
      assert entries[..i + 1] == entries[..i] + [entries[i]];
      PrintedEntriesAppend(entries[..i], entries[i], wide);
      if i > 0 { out.Append(","); }
      ghost var sofar := out.text;
      assert sofar == before + done + comma;
      StringifyString(entries[i].key, out);
      out.Append(":");
      StringifyValue(entries[i].value, wide, out);
      Cat(sofar, QuotedText(entries[i].key), ":");
      Cat(sofar, QuotedText(entries[i].key) + ":", Printed(entries[i].value, wide));
      Join4(before, "{", PrintedEntries(entries[..i], wide), comma, PrintedEntry(entries[i], wide));
    }
    assert entries[..|entries|] == entries;
    out.Append("}");
    Cat(before, "{" + PrintedEntries(entries, wide), "}");
  }

  lemma Join4(a: string, b: string, c: string, d: string, e: string)
    ensures a + (b + c) + d + e == a + (b + (c + d + e))
  {
    Cat(a, b + c, d);
    Cat(a, b + c + d, e);
    Cat(b, c, d);
    Cat(b, c + d, e);
  }

  method Stringify(v: Value, wide: real -> string) returns (text: string)
    ensures text == Printed(v, wide)
  {
    var out := new Stream();
    StringifyValue(v, wide, out);
    assert "" + Printed(v, wide) == Printed(v, wide);
    return out.text;
  }

  // ---- what a trip through text does to a value -------------------------------------------------

  /** A control character comes back as the five characters of its escape. */
  function MangledChar(c: char): string {
    if Control(c) then "u00" + HexPair(c) else [c]
  }

  function Mangled(s: string): string { if s == "" then "" else MangledChar(s[0]) + Mangled(s[1..]) }

  function Mangle(v: Value): Value {
    match v
    case Text(s) => Text(Mangled(s))
    case Array(items) => Array(MangleItems(items))
    case Object(entries) => Object(MangleEntries(entries, []))
    case Null => v
    case Bool(_) => v
    case Number(_) => v
  }

  function MangleItems(items: seq<Value>): seq<Value> {
    if items == [] then [] else [Mangle(items[0])] + MangleItems(items[1..])
  }

  /** Keys that become equal share one entry. */
  function MangleEntries(entries: seq<Entry<Value>>, done: seq<Entry<Value>>): seq<Entry<Value>>
    decreases entries
  {
    if entries == [] then done
    else MangleEntries(entries[1..], Put(done, Mangled(entries[0].key), Mangle(entries[0].value)))
  }

  predicate WholeNumbers(v: Value) {
    match v
    case Number(r) => Whole(r)
    case Array(items) => forall x <- items :: WholeNumbers(x)
    case Object(entries) => forall e <- entries :: WholeNumbers(e.value)
    case _ => true
  }

  /** Every object at every depth has distinct keys, as an ordered map does. */
  predicate Proper(v: Value) {
    match v
    case Array(items) => forall x <- items :: Proper(x)
    case Object(entries) => UniqueKeys(entries) && forall e <- entries :: Proper(e.value)
    case _ => true
  }

  predicate CleanString(s: string) { forall c <- s :: !Control(c) }

  predicate Clean(v: Value) {
    match v
    case Text(s) => CleanString(s)
    case Array(items) => forall x <- items :: Clean(x)
    case Object(entries) => forall e <- entries :: CleanString(e.key) && Clean(e.value)
    case _ => true
  }

  // ---- reading back what was printed ------------------------------------------------------------

  predicate At(t: string, i: nat, w: string) { i + |w| <= |t| && t[i..i + |w|] == w }

  lemma AtSplit(t: string, i: nat, a: string, b: string)
    requires At(t, i, a + b)
    ensures At(t, i, a) && At(t, i + |a|, b)
  {
    assert t[i..i + |a|] == (a + b)[..|a|] == a;
    assert t[i + |a|..i + |a| + |b|] == (a + b)[|a|..] == b;
  }

  lemma AtChar(t: string, i: nat, w: string, k: nat)
    requires At(t, i, w) && k < |w|
    ensures i + k < |t| && t[i + k] == w[k]
  {}

  lemma {:induction false} EscapeReads(t: string, i: nat, c: char)
    requires At(t, i, Escape(c))
    ensures ReadChars(t, i) == Prefixed(MangledChar(c), ReadChars(t, i + |Escape(c)|))
  {
    if Control(c) {
      ControlReads(t, i, HexPair(c));
    } else {
      AtChar(t, i, Escape(c), 0);
      if |Escape(c)| == 2 { AtChar(t, i, Escape(c), 1); }
    }
  }

  /** The six characters of a control character's escape come back as five. */
  lemma {:induction false} ControlReads(t: string, i: nat, pair: string)
    requires |pair| == 2 && forall h <- pair :: '0' <= h <= 'f' && h != '\\'
    requires At(t, i, "\\u00" + pair)
    ensures ReadChars(t, i) == Prefixed("u00" + pair, ReadChars(t, i + 6))
  {
    var e := "\\u00" + pair;
    var rest := ReadChars(t, i + 6);
    AtChar(t, i, e, 0);
    AtChar(t, i, e, 1);
    AtChar(t, i, e, 2);
    AtChar(t, i, e, 3);
    AtChar(t, i, e, 4);
    AtChar(t, i, e, 5);
    assert pair[0] in pair && pair[1] in pair;
    PlainTwice(t, i + 4);
    PlainTwice(t, i + 2);
    PrefixedTwice("00", pair, rest);
    PrefixedTwice("u", "00" + pair, rest);
    assert [t[i + 4]] + [t[i + 5]] == pair;
    assert [t[i + 2]] + [t[i + 3]] == "00";
    assert ReadChars(t, i) == Prefixed("u", ReadChars(t, i + 2));
    assert "u" + ("00" + pair) == "u00" + pair;
  }

  lemma {:induction false} PlainTwice(t: string, i: nat)
    requires i + 1 < |t| && t[i] !in ['"', '\\'] && t[i + 1] !in ['"', '\\']
    ensures ReadChars(t, i) == Prefixed([t[i]] + [t[i + 1]], ReadChars(t, i + 2))
  {
    PlainRead(t, i);
    PlainRead(t, i + 1);
    PrefixedTwice([t[i]], [t[i + 1]], ReadChars(t, i + 2));
  }

  lemma PlainRead(t: string, i: nat)
    requires i < |t| && t[i] != '"' && t[i] != '\\'
    ensures ReadChars(t, i) == Prefixed([t[i]], ReadChars(t, i + 1))
  {}

  lemma {:induction false} CharsRead(t: string, i: nat, s: string)
    requires At(t, i, EscapeAll(s) + "\"")
    ensures ReadChars(t, i) == Got(Mangled(s), i + |EscapeAll(s)| + 1)
    decreases |s|
  {
    hide Escape, At, MangledChar;
    AtSplit(t, i, EscapeAll(s), "\"");
    if s == "" {
      AtChar(t, i, "\"", 0);
    } else {
      var e := Escape(s[0]);
      assert EscapeAll(s) + "\"" == e + (EscapeAll(s[1..]) + "\"");
      AtSplit(t, i, e, EscapeAll(s[1..]) + "\"");
      EscapeReads(t, i, s[0]);
      CharsRead(t, i + |e|, s[1..]);
    }
  }

  lemma StringReads(t: string, i: nat, s: string)
    requires At(t, i, QuotedText(s))
    ensures ReadString(t, i) == Got(Mangled(s), i + |QuotedText(s)|)
    ensures Peek(t, i) == '"'
  {
    assert QuotedText(s) == "\"" + (EscapeAll(s) + "\"");
    AtSplit(t, i, "\"", EscapeAll(s) + "\"");
    AtChar(t, i, "\"", 0);
    CharsRead(t, i + 1, s);
  }

  lemma {:induction false} DigitsEndIs(t: string, i: nat, w: string)
    requires At(t, i, w) && forall c <- w :: Decimal.IsDigit(c)
    requires !Decimal.IsDigit(Peek(t, i + |w|))
    ensures DigitsEnd(t, i) == i + |w|
    decreases |w|
  {
    if w != "" {
      assert [w[0]] + w[1..] == w;
      AtSplit(t, i, [w[0]], w[1..]);
      AtChar(t, i, w, 0);
      DigitsEndIs(t, i + 1, w[1..]);
    }
  }

  /** A character that cannot go on with a number. */
  predicate Stops(c: char) { !Decimal.IsDigit(c) && c !in ['.', 'e', 'E'] }

  lemma NumberEndIs(t: string, i: nat, n: int)
    requires At(t, i, Decimal.DecimalText(n)) && Stops(Peek(t, i + |Decimal.DecimalText(n)|))
    ensures NumberEnd(t, i) == i + |Decimal.DecimalText(n)|
    ensures Peek(t, i) == '-' <==> n < 0
    ensures Peek(t, i) == '-' || Decimal.IsDigit(Peek(t, i))
    ensures n < 0 ==> DigitsEnd(t, i + 1) == i + |Decimal.DecimalText(n)|
    ensures n >= 0 ==> DigitsEnd(t, i) == i + |Decimal.DecimalText(n)|
  {
    var w := Decimal.DecimalText(n);
    AtChar(t, i, w, 0);
    if n < 0 {
      AtSplit(t, i, "-", Decimal.Digits(-n));
      DigitsEndIs(t, i + 1, Decimal.Digits(-n));
    } else {
      assert Decimal.IsDigit(w[0]);
      DigitsEndIs(t, i, w);
    }
  }

  lemma ToNumberOfText(n: int)
    ensures ToNumber(Decimal.DecimalText(n)) == Some(n as real)
  {
    hide Decimal.ValueOf, Decimal.Digits, DigitsEnd, At;
    var w := Decimal.DecimalText(n);
    assert w[0..|w|] == w;
    NumberEndIs(w, 0, n);
    var start := if n < 0 then 1 else 0;
    var digits := Decimal.Digits(if n < 0 then -n else n);
    assert w[start..|w|] == digits;
    assert digits + "" == digits;
    Decimal.ValueOfDigits(if n < 0 then -n else n);
  }

  lemma NumberReads(t: string, i: nat, n: int)
    requires At(t, i, Decimal.DecimalText(n)) && Stops(Peek(t, i + |Decimal.DecimalText(n)|))
    ensures ReadValue(t, i) == Got(Number(n as real), i + |Decimal.DecimalText(n)|)
  {
    hide At, NumberEnd, ToNumber, Decimal.DecimalText;
    NumberEndIs(t, i, n);
    ToNumberOfText(n);
    AtSlice(t, i, Decimal.DecimalText(n));
    TextIsNotEmpty(n);
    assert SkipSpace(t, i) == i;
  }

  lemma AtSlice(t: string, i: nat, w: string)
    requires At(t, i, w)
    ensures i + |w| <= |t| && t[i..i + |w|] == w
  {}

  lemma TextIsNotEmpty(n: int)
    ensures Decimal.DecimalText(n) != ""
  {}

  /** A printed value never begins with a space, so nothing is skipped before it. */
  lemma FirstChar(v: Value, wide: real -> string)
    requires WholeNumbers(v)
    ensures Printed(v, wide) != ""
    ensures !Space(Printed(v, wide)[0]) && Printed(v, wide)[0] !in ['}', ']', ',', ':']
  {
    match v
    case Number(r) => assert r.Floor >= 0 ==> Decimal.IsDigit(Decimal.Digits(r.Floor)[0]);
    case _ =>
  }

  lemma {:induction false} ValueReads(t: string, i: nat, v: Value, wide: real -> string)
    requires WholeNumbers(v)
    requires At(t, i, Printed(v, wide)) && Stops(Peek(t, i + |Printed(v, wide)|))
    ensures ReadValue(t, i) == Got(Mangle(v), i + |Printed(v, wide)|)
    decreases v, 0
  {
    var w := Printed(v, wide);
    FirstChar(v, wide);
    AtChar(t, i, w, 0);
    match v
    case Null =>
    case Bool(_) =>
    case Number(r) => NumberReads(t, i, r.Floor);
    case Text(s) => StringReads(t, i, s);
    case Array(items) => ArrayReads(t, i, items, wide);
    case Object(entries) => ObjectReads(t, i, entries, wide);
  }

  lemma {:induction false} ArrayReads(t: string, i: nat, items: seq<Value>, wide: real -> string)
    requires forall x <- items :: WholeNumbers(x)
    requires At(t, i, "[" + PrintedItems(items, wide) + "]")
    ensures Peek(t, i) == '[' && ReadArray(t, i) == Got(MangleItems(items), i + |PrintedItems(items, wide)| + 2)
    decreases items, 2
  {
    hide ReadItems, At;
    AtOpen(t, i, "[", PrintedItems(items, wide), "]");
    if items == [] {
      AtLast(t, i + 1, "", "]");
    } else {
      ItemsRead(t, i + 1, items, [], wide);
      assert [] + MangleItems(items) == MangleItems(items);
    }
  }

  lemma {:induction false} ObjectReads(t: string, i: nat, entries: seq<Entry<Value>>, wide: real -> string)
    requires forall e <- entries :: WholeNumbers(e.value)
    requires At(t, i, "{" + PrintedEntries(entries, wide) + "}")
    ensures Peek(t, i) == '{'
    ensures ReadObject(t, i) == Got(MangleEntries(entries, []), i + |PrintedEntries(entries, wide)| + 2)
    decreases entries, 2
  {
    hide ReadEntries, At;
    AtOpen(t, i, "{", PrintedEntries(entries, wide), "}");
    if entries == [] {
      AtLast(t, i + 1, "", "}");
    } else {
      EntriesRead(t, i + 1, entries, [], wide);
    }
  }

  lemma {:induction false} ItemsRead(t: string, i: nat, items: seq<Value>, done: seq<Value>, wide: real -> string)
    requires items != [] && forall x <- items :: WholeNumbers(x)
    requires At(t, i, PrintedItems(items, wide) + "]")
    ensures ReadItems(t, i, done) == Got(done + MangleItems(items), i + |PrintedItems(items, wide)| + 1)
    ensures SkipSpace(t, i) == i && Peek(t, i) != ']'
    decreases items, 1
  {
    hide ReadItems, ReadValue, Printed, PrintedItems, At, SkipSpace, Mangle, WholeNumbers;
    var after := i + |Printed(items[0], wide)|;
    var done' := done + [Mangle(items[0])];
    ItemsSplit(t, i, items, wide);
    if |items| > 1 {
      ItemsRead(t, after + 1, items[1..], done', wide);
    } else {
      assert MangleItems(items[1..]) == [] && done' + [] == done';
    }
    FirstIsNoSpace(t, i, items[0], wide);
    ValueReads(t, i, items[0], wide);
    ItemStep(t, i, done, Mangle(items[0]), after);
    assert done' + MangleItems(items[1..]) == done + MangleItems(items);
  }

  lemma ItemsSplit(t: string, i: nat, items: seq<Value>, wide: real -> string)
    requires items != [] && At(t, i, PrintedItems(items, wide) + "]")
    ensures
      var first := Printed(items[0], wide);
      && At(t, i, first)
      && Peek(t, i + |first|) == (if |items| == 1 then ']' else ',')
      && (|items| == 1 ==> |PrintedItems(items, wide)| == |first|)
      && (|items| > 1 ==>
            && At(t, i + |first| + 1, PrintedItems(items[1..], wide) + "]")
            && |PrintedItems(items, wide)| == |first| + 1 + |PrintedItems(items[1..], wide)|)
  {
    hide Printed, At;
    if |items| == 1 {
      AtLast(t, i, Printed(items[0], wide), "]");
    } else {
      AtNext(t, i, Printed(items[0], wide), PrintedItems(items[1..], wide), "]");
    }
  }

  lemma FirstIsNoSpace(t: string, i: nat, v: Value, wide: real -> string)
    requires WholeNumbers(v) && At(t, i, Printed(v, wide))
    ensures SkipSpace(t, i) == i && Peek(t, i) !in ['}', ']', ',', ':']
  {
    FirstChar(v, wide);
    AtChar(t, i, Printed(v, wide), 0);
  }

  lemma AtLast(t: string, i: nat, first: string, close: string)
    requires At(t, i, first + close) && |close| == 1
    ensures At(t, i, first) && Peek(t, i + |first|) == close[0]
  {
    AtSplit(t, i, first, close);
    AtChar(t, i + |first|, close, 0);
  }

  lemma AtOpen(t: string, i: nat, open: string, inner: string, close: string)
    requires At(t, i, open + inner + close) && |open| == 1
    ensures Peek(t, i) == open[0] && At(t, i + 1, inner + close)
  {
    Cat(open, inner, close);
    AtSplit(t, i, open, inner + close);
    AtChar(t, i, open, 0);
  }

  lemma AtNext(t: string, i: nat, first: string, more: string, close: string)
    requires At(t, i, first + "," + more + close)
    ensures At(t, i, first) && Peek(t, i + |first|) == ',' && At(t, i + |first| + 1, more + close)
  {
    Cat(first, ",", more);
    Cat(first, "," + more, close);
    Cat(",", more, close);
    AtSplit(t, i, first, "," + (more + close));
    AtSplit(t, i + |first|, ",", more + close);
    AtChar(t, i + |first|, ",", 0);
  }

  lemma {:induction false} ItemStep(t: string, i: nat, done: seq<Value>, v: Value, next: nat)
    requires SkipSpace(t, i) == i && ReadValue(t, i) == Got(v, next) && Peek(t, next) in [',', ']']
    ensures ReadItems(t, i, done)
         == if Peek(t, next) == ']' then Got(done + [v], next + 1) else ReadItems(t, next + 1, done + [v])
  {
    assert SkipSpace(t, next) == next;
  }

  lemma {:induction false} EntryStep(t: string, i: nat, done: seq<Entry<Value>>, e: Entry<Value>, next: nat)
    requires ReadEntry(t, i) == Got(e, next) && Peek(t, next) in [',', '}']
    ensures
      var entries := Put(done, e.key, e.value);
      ReadEntries(t, i, done)
      == if Peek(t, next) == '}' then Got(entries, next + 1) else ReadEntries(t, next + 1, entries)
  {
    assert SkipSpace(t, next) == next;
  }

  lemma {:induction false} EntryReads(t: string, i: nat, e: Entry<Value>, wide: real -> string)
    requires WholeNumbers(e.value)
    requires At(t, i, PrintedEntry(e, wide)) && Stops(Peek(t, i + |PrintedEntry(e, wide)|))
    ensures ReadEntry(t, i) == Got(Entry(Mangled(e.key), Mangle(e.value)), i + |PrintedEntry(e, wide)|)
    ensures SkipSpace(t, i) == i && Peek(t, i) != '}'
    decreases e, 1
  {
    hide ReadValue, ReadString, ReadEntry, At, Mangle, Mangled;
    var key := QuotedText(e.key);
    var value := Printed(e.value, wide);
    var colon := i + |key|;
    AtEntry(t, i, key, value);
    FirstIsNoSpace(t, colon + 1, e.value, wide);
    StringReads(t, i, e.key);
    ValueReads(t, colon + 1, e.value, wide);
    PartsRead(t, i, Mangled(e.key), colon, Mangle(e.value), colon + 1 + |value|);
  }

  lemma AtEntry(t: string, i: nat, key: string, value: string)
    requires At(t, i, key + ":" + value)
    ensures At(t, i, key) && Peek(t, i + |key|) == ':' && At(t, i + |key| + 1, value)
  {
    Cat(key, ":", value);
    AtSplit(t, i, key, ":" + value);
    AtSplit(t, i + |key|, ":", value);
    AtChar(t, i + |key|, ":", 0);
  }

  lemma {:induction false} PartsRead(t: string, i: nat, key: string, colon: nat, v: Value, next: nat)
    requires Peek(t, i) == '"' && ReadString(t, i) == Got(key, colon) && Peek(t, colon) == ':'
    requires SkipSpace(t, colon + 1) == colon + 1 && ReadValue(t, colon + 1) == Got(v, next)
    ensures ReadEntry(t, i) == Got(Entry(key, v), next) && SkipSpace(t, i) == i
  {
    assert SkipSpace(t, i) == i;
    assert SkipSpace(t, colon) == colon;
  }

  lemma {:induction false} EntriesRead(
      t: string, i: nat, entries: seq<Entry<Value>>, done: seq<Entry<Value>>, wide: real -> string)
    requires entries != [] && forall e <- entries :: WholeNumbers(e.value)
    requires At(t, i, PrintedEntries(entries, wide) + "}")
    ensures ReadEntries(t, i, done) == Got(MangleEntries(entries, done), i + |PrintedEntries(entries, wide)| + 1)
    ensures SkipSpace(t, i) == i && Peek(t, i) != '}'
    decreases entries, 1
  {
    hide ReadEntries, ReadEntry, Put, PrintedEntry, PrintedEntries, At, SkipSpace, Mangle, Mangled;
    var e := Entry(Mangled(entries[0].key), Mangle(entries[0].value));
    var after := i + |PrintedEntry(entries[0], wide)|;
    EntriesSplit(t, i, entries, wide);
    EntryReads(t, i, entries[0], wide);
    EntryStep(t, i, done, e, after);
    if |entries| > 1 {
      EntriesRead(t, after + 1, entries[1..], Put(done, e.key, e.value), wide);
    } else {
      assert MangleEntries(entries[1..], Put(done, e.key, e.value)) == Put(done, e.key, e.value);
    }
  }

  lemma {:induction false} EntriesSplit(t: string, i: nat, entries: seq<Entry<Value>>, wide: real -> string)
    requires entries != [] && At(t, i, PrintedEntries(entries, wide) + "}")
    ensures
      var first := PrintedEntry(entries[0], wide);
      var all := |PrintedEntries(entries, wide)|;
      && At(t, i, first)
      && Peek(t, i + |first|) == (if |entries| == 1 then '}' else ',')
      && (|entries| == 1 ==> all == |first|)
      && (|entries| > 1 ==>
            && At(t, i + |first| + 1, PrintedEntries(entries[1..], wide) + "}")
            && all == |first| + 1 + |PrintedEntries(entries[1..], wide)|)
  {
    hide PrintedEntry, At;
    if |entries| == 1 {
      AtLast(t, i, PrintedEntry(entries[0], wide), "}");
    } else {
      AtNext(t, i, PrintedEntry(entries[0], wide), PrintedEntries(entries[1..], wide), "}");
    }
  }

  lemma PrintedReads(v: Value, wide: real -> string)
    requires WholeNumbers(v)
    ensures Parse(Printed(v, wide)) == Ok(Mangle(v))
  {
    var t := Printed(v, wide);
    assert t[0..|t|] == t;
    ValueReads(t, 0, v, wide);
  }

  // ---- when the trip is exact -------------------------------------------------------------------

  lemma MangledCharIsClean(c: char)
    ensures CleanString(MangledChar(c))
  {
    if Control(c) { assert forall h <- HexPair(c) :: !Control(h); }
  }

  lemma {:induction false} MangledIsClean(s: string)
    ensures CleanString(Mangled(s))
    ensures CleanString(s) ==> Mangled(s) == s
  {
    if s != "" {
      MangledIsClean(s[1..]);
      var h := s[0];
      MangledCharIsClean(h);
      assert s == [h] + s[1..];
      if CleanString(s) { assert h in s && forall c <- s[1..] :: c in s; }
    }
  }

  lemma {:induction false} MangleIsClean(v: Value)
    ensures Clean(Mangle(v))
    decreases v, 0
  {
    match v
    case Text(s) => MangledIsClean(s);
    case Array(items) => MangleItemsAreClean(items);
    case Object(entries) => MangleEntriesAreClean(entries, []);
    case _ =>
  }

  lemma {:induction false} MangleItemsAreClean(items: seq<Value>)
    ensures forall x <- MangleItems(items) :: Clean(x)
    decreases items, 1
  {
    if items != [] {
      MangleIsClean(items[0]);
      MangleItemsAreClean(items[1..]);
    }
  }

  predicate CleanEntries(entries: seq<Entry<Value>>) {
    forall e <- entries :: CleanString(e.key) && Clean(e.value)
  }

  lemma {:induction false} PutMembers(entries: seq<Entry<Value>>, key: string, value: Value)
    ensures forall e <- Put(entries, key, value) :: e == Entry(key, value) || e in entries
  {
    if entries != [] && entries[0].key != key { PutMembers(entries[1..], key, value); }
  }

  lemma {:induction false} MangleEntriesAreClean(entries: seq<Entry<Value>>, done: seq<Entry<Value>>)
    requires CleanEntries(done)
    ensures CleanEntries(MangleEntries(entries, done))
    decreases entries, 1
  {
    if entries != [] {
      MangledIsClean(entries[0].key);
      MangleIsClean(entries[0].value);
      PutMembers(done, Mangled(entries[0].key), Mangle(entries[0].value));
      MangleEntriesAreClean(entries[1..], Put(done, Mangled(entries[0].key), Mangle(entries[0].value)));
    }
  }

  lemma {:induction false} CleanIsKept(v: Value)
    requires Proper(v) && Clean(v)
    ensures Mangle(v) == v
    decreases v, 0
  {
    match v
    case Text(s) => MangledIsClean(s);
    case Array(items) => CleanItemsAreKept(items);
    case Object(entries) =>
      assert [] + entries == entries;
      CleanEntriesAreKept(entries, []);
    case _ =>
  }

  lemma {:induction false} CleanItemsAreKept(items: seq<Value>)
    requires forall x <- items :: Proper(x) && Clean(x)
    ensures MangleItems(items) == items
    decreases items, 1
  {
    if items != [] {
      CleanIsKept(items[0]);
      CleanItemsAreKept(items[1..]);
      assert [items[0]] + items[1..] == items;
    }
  }

  lemma NewKey(done: seq<Entry<Value>>, entries: seq<Entry<Value>>)
    requires UniqueKeys(done + entries) && entries != []
    ensures !HasKey(done, entries[0].key)
  {
    forall j | 0 <= j < |done| ensures done[j].key != entries[0].key {
      assert (done + entries)[j] == done[j] && (done + entries)[|done|] == entries[0];
    }
  }

  lemma {:induction false} CleanEntriesAreKept(entries: seq<Entry<Value>>, done: seq<Entry<Value>>)
    requires UniqueKeys(done + entries) && CleanEntries(entries)
    requires forall e <- entries :: Proper(e.value)
    ensures MangleEntries(entries, done) == done + entries
    decreases entries, 1
  {
    if entries == [] {
      assert done + [] == done;
    } else {
      var e := entries[0];
      MangledIsClean(e.key);
      CleanIsKept(e.value);
      PutKeepsOrder(done, e.key, e.value);
      NewKey(done, entries);
      assert done + [e] + entries[1..] == done + entries;
      CleanEntriesAreKept(entries[1..], done + [e]);
    }
  }

  /**
  Parsing the printed text gives the value back, key order included, exactly
  when no string or key in it holds a control character other than the five
  with an escape of their own.
  */
  lemma RoundTripIff(v: Value, wide: real -> string)
    requires Proper(v) && WholeNumbers(v)
    ensures Parse(Printed(v, wide)) == Ok(v) <==> Clean(v)
  {
    PrintedReads(v, wide);
    MangleIsClean(v);
    if Clean(v) { CleanIsKept(v); }
  }

  // ---- what the parser produces -----------------------------------------------------------------

  lemma {:induction false} ReadIsProper(s: string, i: nat)
    ensures ReadValue(s, i).Got? ==> Proper(ReadValue(s, i).value)
    decreases |s| - i, 2
  {
    var at := SkipSpace(s, i);
    if at < |s| {
      if s[at] == '{' {
        EntriesAreProper(s, SkipSpace(s, at + 1), []);
      } else if s[at] == '[' {
        ItemsAreProper(s, SkipSpace(s, at + 1), []);
      }
    }
  }

  predicate ProperEntries(entries: seq<Entry<Value>>) {
    UniqueKeys(entries) && forall e <- entries :: Proper(e.value)
  }

  lemma {:induction false} EntriesAreProper(s: string, i: nat, done: seq<Entry<Value>>)
    requires ProperEntries(done)
    ensures ReadEntries(s, i, done).Got? ==> ProperEntries(ReadEntries(s, i, done).value)
    decreases |s| - i, 4
  {
    var r := ReadEntry(s, i);
    if r.Got? {
      var key := ReadString(s, SkipSpace(s, i));
      ReadIsProper(s, SkipSpace(s, SkipSpace(s, key.next) + 1));
      var entries := Put(done, r.value.key, r.value.value);
      PutKeepsUnique(done, r.value.key, r.value.value);
      PutMembers(done, r.value.key, r.value.value);
      var at := SkipSpace(s, r.next);
      if Peek(s, at) == ',' { EntriesAreProper(s, at + 1, entries); }
    }
  }

  lemma {:induction false} ItemsAreProper(s: string, i: nat, done: seq<Value>)
    requires forall x <- done :: Proper(x)
    ensures ReadItems(s, i, done).Got? ==> forall x <- ReadItems(s, i, done).value :: Proper(x)
    decreases |s| - i, 4
  {
    var r := ReadValue(s, SkipSpace(s, i));
    ReadIsProper(s, SkipSpace(s, i));
    if r.Got? {
      var at := SkipSpace(s, r.next);
      if Peek(s, at) == ',' { ItemsAreProper(s, at + 1, done + [r.value]); }
    }
  }

  /** Whatever text was parsed, printing the value and parsing again gives it back up to those control characters. */
  lemma ReprintedReads(text: string, v: Value, wide: real -> string)
    requires Parse(text) == Ok(v) && WholeNumbers(v)
    ensures Parse(Printed(v, wide)) == Ok(v) <==> Clean(v)
  {
    ReadIsProper(text, 0);
    RoundTripIff(v, wide);
  }
}
