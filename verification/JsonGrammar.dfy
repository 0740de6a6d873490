/**
The texts the JSON parser accepts and what it makes of them, as a grammar that
knows nothing of the parser. It takes in every text of RFC 8259; but an escape
`\u` stands for its letter, not for a code unit.
*/
module JsonGrammar {
  import opened Wrappers
  import opened OrderedMap
  import opened JsonText
  import Decimal

  // ---- texts ------------------------------------------------------------------------------------

  /** One character of a string: as it is, or after a backslash. */
  datatype Piece = Plain(c: char) | Escaped(c: char)

  datatype Power = Power(mark: char, sign: string, digits: string)

  datatype Doc =
    | Name(letters: string)
    | Figure(minus: bool, whole: string, fraction: Option<string>, power: Option<Power>)
    | Quoted(pieces: seq<Piece>)
    | List(blank: string, items: seq<Item>)
    | Record(blank: string, members: seq<Member>)

  /** A value with the white space around it. */
  datatype Item = Item(before: string, doc: Doc, after: string)

  datatype Member = Member(before: string, key: seq<Piece>, middle: string, item: Item)

  function WrittenPiece(p: Piece): string {
    match p
    case Plain(c) => [c]
    case Escaped(c) => ['\\', c]
  }

  function WrittenPieces(ps: seq<Piece>): string {
    if ps == [] then "" else WrittenPiece(ps[0]) + WrittenPieces(ps[1..])
  }

  function WrittenFraction(fraction: Option<string>): string {
    match fraction
    case None => ""
    case Some(digits) => "." + digits
  }

  function WrittenPower(power: Option<Power>): string {
    match power
    case None => ""
    case Some(p) => [p.mark] + (p.sign + p.digits)
  }

  function Sign(minus: bool): string { if minus then "-" else "" }

  function Written(doc: Doc): string {
    match doc
    case Name(letters) => letters
    case Figure(minus, whole, fraction, power) =>
      Sign(minus) + (whole + (WrittenFraction(fraction) + WrittenPower(power)))
    case Quoted(pieces) => "\"" + (WrittenPieces(pieces) + "\"")
    case List(blank, items) => "[" + ((if items == [] then blank else WrittenItems(items)) + "]")
    case Record(blank, members) => "{" + ((if members == [] then blank else WrittenMembers(members)) + "}")
  }

  function WrittenItem(item: Item): string { item.before + (Written(item.doc) + item.after) }

  function WrittenItems(items: seq<Item>): string {
    if items == [] then ""
    else if |items| == 1 then WrittenItem(items[0])
    else WrittenItem(items[0]) + "," + WrittenItems(items[1..])
  }

  function WrittenMember(m: Member): string {
    m.before + ("\"" + (WrittenPieces(m.key) + ("\"" + (m.middle + (":" + WrittenItem(m.item))))))
  }

  function WrittenMembers(ms: seq<Member>): string {
    if ms == [] then ""
    else if |ms| == 1 then WrittenMember(ms[0])
    else WrittenMember(ms[0]) + "," + WrittenMembers(ms[1..])
  }

  // ---- which of them are meant ------------------------------------------------------------------

  ghost predicate Blank(s: string) { forall i | 0 <= i < |s| :: s[i] == ' ' || '\t' <= s[i] <= '\r' }

  ghost predicate Digits(s: string) { forall i | 0 <= i < |s| :: '0' <= s[i] <= '9' }

  ghost predicate GoodPieces(ps: seq<Piece>) {
    forall i | 0 <= i < |ps| && ps[i].Plain? :: ps[i].c != '"' && ps[i].c != '\\'
  }

  ghost predicate GoodPower(p: Power) {
    (p.mark == 'e' || p.mark == 'E') && (p.sign == "" || p.sign == "+" || p.sign == "-") && Digits(p.digits)
  }

  /** A digit before the exponent, and a digit or '-' to begin with. */
  ghost predicate GoodFigure(minus: bool, whole: string, fraction: Option<string>, power: Option<Power>) {
    && Digits(whole) && (fraction.Some? ==> Digits(fraction.value)) && (power.Some? ==> GoodPower(power.value))
    && (minus || whole != "") && (whole != "" || (fraction.Some? && fraction.value != ""))
  }

  /** Of the three names only the first letter and the length matter. */
  ghost predicate GoodName(letters: string) {
    || (|letters| == 4 && (letters[0] == 't' || letters[0] == 'n'))
    || (|letters| == 5 && letters[0] == 'f')
  }

  ghost predicate Good(doc: Doc) {
    match doc
    case Name(letters) => GoodName(letters)
    case Figure(minus, whole, fraction, power) => GoodFigure(minus, whole, fraction, power)
    case Quoted(pieces) => GoodPieces(pieces)
    case List(blank, items) => Blank(blank) && forall i | 0 <= i < |items| :: GoodItem(items[i])
    case Record(blank, members) => Blank(blank) && forall i | 0 <= i < |members| :: GoodMember(members[i])
  }

  ghost predicate GoodItem(item: Item) { Blank(item.before) && Good(item.doc) && Blank(item.after) }

  ghost predicate GoodMember(m: Member) {
    && Blank(m.before) && GoodPieces(m.key) && Blank(m.middle)
    && Blank(m.item.before) && Good(m.item.doc) && Blank(m.item.after)
  }

  /** A number goes on as long as it can: what comes after a document does not lengthen it. */
  ghost predicate Halts(doc: Doc, c: char) {
    doc.Figure? ==>
      && !('0' <= c <= '9')
      && (doc.power.None? ==> c != 'e' && c != 'E' && (doc.fraction.None? ==> c != '.'))
      && (doc.power.Some? && doc.power.value.sign == "" && doc.power.value.digits == "" ==> c != '+' && c != '-')
  }

  // ---- what they mean ---------------------------------------------------------------------------

  function Unescaped(c: char): char {
    match c
    case 'n' => '\n'
    case 'r' => '\r'
    case 't' => '\t'
    case 'b' => '\U{0008}'
    case 'f' => '\U{000C}'
    case _ => c
  }

  function MeantPiece(p: Piece): char {
    match p
    case Plain(c) => c
    case Escaped(c) => Unescaped(c)
  }

  function MeantText(ps: seq<Piece>): string {
    if ps == [] then "" else [MeantPiece(ps[0])] + MeantText(ps[1..])
  }

  function Ten(n: nat): (r: real)
    ensures r > 0.0
  {
    if n == 0 then 1.0 else 10.0 * Ten(n - 1)
  }

  function Magnitude(whole: string, digits: string): real {
    Decimal.ValueOf(whole) as real + Decimal.ValueOf(digits) as real / Ten(|digits|)
  }

  function Raised(r: real, e: int): real { if e >= 0 then r * Ten(e) else r / Ten(-e) }

  function PowerOf(power: Option<Power>): int
    requires power.Some? ==> GoodPower(power.value)
  {
    match power
    case None => 0
    case Some(p) => if p.sign == "-" then 0 - Decimal.ValueOf(p.digits) else Decimal.ValueOf(p.digits)
  }

  /** Whole part and fraction, times a power of ten. */
  function MeantNumber(minus: bool, whole: string, fraction: Option<string>, power: Option<Power>): real
    requires GoodFigure(minus, whole, fraction, power)
  {
    var scaled := Raised(Magnitude(whole, fraction.GetOr("")), PowerOf(power));
    if minus then -scaled else scaled
  }

  ghost function Meant(doc: Doc): Value
    requires Good(doc)
  {
    match doc
    case Name(letters) => if letters[0] == 't' then Bool(true) else if letters[0] == 'f' then Bool(false) else Null
    case Figure(minus, whole, fraction, power) => Number(MeantNumber(minus, whole, fraction, power))
    case Quoted(pieces) => Text(MeantText(pieces))
    case List(_, items) => Array(MeantItems(items))
    case Record(_, members) => Object(MeantMembers(members, []))
  }

  ghost function MeantItems(items: seq<Item>): seq<Value>
    requires forall i | 0 <= i < |items| :: GoodItem(items[i])
  {
    if items == [] then []
    else
      assert GoodItem(items[0]);
      [Meant(items[0].doc)] + MeantItems(items[1..])
  }

  /** A key that comes again replaces the value and keeps its place. */
  ghost function MeantMembers(ms: seq<Member>, done: seq<Entry<Value>>): seq<Entry<Value>>
    requires forall i | 0 <= i < |ms| :: GoodMember(ms[i])
    decreases ms
  {
    if ms == [] then done
    else
      assert GoodMember(ms[0]);
      MeantMembers(ms[1..], Put(done, MeantText(ms[0].key), Meant(ms[0].item.doc)))
  }

  // ---- the parser reads what is written ---------------------------------------------------------

  lemma AtJoin(t: string, i: nat, a: string, b: string)
    requires At(t, i, a) && At(t, i + |a|, b)
    ensures At(t, i, a + b)
  {}

  lemma {:induction false} BlankIsSkipped(t: string, i: nat, blank: string)
    requires At(t, i, blank) && Blank(blank) && !Space(Peek(t, i + |blank|))
    ensures SkipSpace(t, i) == i + |blank|
    decreases |blank|
  {
    if blank != "" {
      AtChar(t, i, blank, 0);
      assert At(t, i + 1, blank[1..]);
      BlankIsSkipped(t, i + 1, blank[1..]);
    }
  }

  lemma {:induction false} PiecesRead(t: string, i: nat, ps: seq<Piece>)
    requires At(t, i, WrittenPieces(ps) + "\"") && GoodPieces(ps)
    ensures ReadChars(t, i) == JsonText.Got(MeantText(ps), i + |WrittenPieces(ps)| + 1)
    decreases |ps|
  {
    hide At, Unescape, Unescaped;
    AtSplit(t, i, WrittenPieces(ps), "\"");
    if ps == [] {
      AtChar(t, i, "\"", 0);
    } else {
      var w := WrittenPiece(ps[0]);
      assert WrittenPieces(ps) + "\"" == w + (WrittenPieces(ps[1..]) + "\"");
      AtSplit(t, i, w, WrittenPieces(ps[1..]) + "\"");
      AtChar(t, i, w, 0);
      PiecesRead(t, i + |w|, ps[1..]);
      if ps[0].Escaped? {
        AtChar(t, i, w, 1);
        SameLetters(ps[0].c);
      }
    }
  }

  lemma SameLetters(c: char)
    ensures Unescape(c) == Unescaped(c)
  {}

  lemma TextReads(t: string, i: nat, ps: seq<Piece>)
    requires At(t, i, "\"" + (WrittenPieces(ps) + "\"")) && GoodPieces(ps)
    ensures Peek(t, i) == '"' && ReadString(t, i) == JsonText.Got(MeantText(ps), i + |WrittenPieces(ps)| + 2)
  {
    AtSplit(t, i, "\"", WrittenPieces(ps) + "\"");
    AtChar(t, i, "\"", 0);
    PiecesRead(t, i + 1, ps);
  }

  // ---- numbers ----------------------------------------------------------------------------------

  lemma {:induction false} TenAdds(a: nat, b: nat)
    ensures Ten(a + b) == Ten(a) * Ten(b)
  {
    if a > 0 { TenAdds(a - 1, b); }
  }

  lemma {:induction false} ScaleIs(r: real, e: int)
    ensures Scale(r, e) == if e >= 0 then r * Ten(e) else r / Ten(-e)
    decreases if e < 0 then -e else e
  {
    if e > 0 {
      ScaleIs(r * 10.0, e - 1);
    } else if e < 0 {
      ScaleIs(r / 10.0, e + 1);
      DivideTwice(r, 10.0, Ten(-e - 1));
    }
  }

  lemma DivideTwice(r: real, a: real, b: real)
    requires a > 0.0 && b > 0.0
    ensures r / a / b == r / (a * b)
  {
    assert r / a / b * b * a == r;
  }

  lemma {:induction false} ValueAcross(a: string, b: string)
    requires Digits(a) && Digits(b)
    ensures Decimal.ValueOf(a + b) as real == Decimal.ValueOf(a) as real * Ten(|b|) + Decimal.ValueOf(b) as real
    decreases |b|
  {
    hide Decimal.ValueOf;
    if b == "" {
      assert a + b == a;
      EmptyIsZero();
    } else {
      var n := |b| - 1;
      var front, last := b[..n], b[n];
      assert b == front + [last] && a + b == a + front + [last];
      ValueOfLast(a + front, last);
      ValueOfLast(front, last);
      ValueAcross(a, front);
      Distribute(Decimal.ValueOf(a) as real, Decimal.ValueOf(front) as real, Ten(n));
    }
  }

  lemma ValueOfLast(a: string, c: char)
    ensures Decimal.ValueOf(a + [c]) == Decimal.ValueOf(a) * 10 + (c as int - '0' as int)
  {
    assert (a + [c])[..|a|] == a;
  }

  lemma EmptyIsZero()
    ensures Decimal.ValueOf("") == 0
  {}

  lemma Distribute(x: real, y: real, f: real)
    ensures (x * f + y) * 10.0 == x * (10.0 * f) + y * 10.0
  {}

  /** A value with its fraction brought over f. */
  lemma Bring(v: real, w: real, x: real, f: real)
    requires f > 0.0 && v == w * f + x
    ensures v / f == w + x / f
  {
    assert x / f * f == x;
    assert (w + x / f) * f == v;
  }

  lemma Shorten(r: real, a: real, b: real, c: real)
    requires a > 0.0 && b > 0.0 && a * b == c
    ensures r / a == r / c * b
  {
    DivideTwice(r, a, b);
    assert r / a / b * b == r / a;
  }

  lemma Lengthen(r: real, a: real, b: real, c: real)
    requires b > 0.0 && a * b == c
    ensures r * a == r / b * c
  {
    assert r / b * b == r;
    assert r / b * (a * b) == r / b * b * a;
  }

  /** Scaling at once and scaling back come to the same. */
  lemma ScaledBack(v: real, n: nat, e: int)
    ensures Scale(v, e - n) == if e >= 0 then v / Ten(n) * Ten(e) else v / Ten(n) / Ten(-e)
  {
    hide Ten, Scale;
    ScaleIs(v, e - n);
    if e < 0 {
      TenAdds(n, -e);
      assert n + -e == -(e - n);
      DivideTwice(v, Ten(n), Ten(-e));
    } else if e < n {
      TenAdds(n - e, e);
      assert n - e + e == n;
      Shorten(v, Ten(n - e), Ten(e), Ten(n));
    } else {
      TenAdds(e - n, n);
      assert e - n + n == e;
      Lengthen(v, Ten(e - n), Ten(n), Ten(e));
    }
  }

  /** Digits before and after the point, scaled at once or apart. */
  lemma ScaledTogether(whole: string, fraction: string, e: int)
    requires Digits(whole) && Digits(fraction)
    ensures Scale(Decimal.ValueOf(whole + fraction) as real, e - |fraction|) == Raised(Magnitude(whole, fraction), e)
  {
    hide Ten, Scale, Decimal.ValueOf;
    var v := Decimal.ValueOf(whole + fraction) as real;
    ValueAcross(whole, fraction);
    Bring(v, Decimal.ValueOf(whole) as real, Decimal.ValueOf(fraction) as real, Ten(|fraction|));
    ScaledBack(v, |fraction|, e);
  }

  // ---- scanning a number ------------------------------------------------------------------------

  lemma {:induction false} DigitsAreScanned(t: string, i: nat, w: string)
    requires At(t, i, w) && Digits(w) && !Decimal.IsDigit(Peek(t, i + |w|))
    ensures DigitsEnd(t, i) == i + |w|
  {
    forall c <- w ensures Decimal.IsDigit(c) {
      var k :| 0 <= k < |w| && w[k] == c;
    }
    DigitsEndIs(t, i, w);
  }

  lemma FractionIsScanned(t: string, i: nat, fraction: Option<string>)
    requires At(t, i, WrittenFraction(fraction)) && (fraction.Some? ==> Digits(fraction.value))
    requires var c := Peek(t, i + |WrittenFraction(fraction)|); !Decimal.IsDigit(c) && (fraction.None? ==> c != '.')
    ensures FractionEnd(t, i) == i + |WrittenFraction(fraction)|
    ensures !Decimal.IsDigit(Peek(t, i))
  {
    if fraction.Some? {
      AtSplit(t, i, ".", fraction.value);
      AtChar(t, i, ".", 0);
      DigitsAreScanned(t, i + 1, fraction.value);
    }
  }

  lemma PowerIsScanned(t: string, i: nat, p: Power)
    requires At(t, i, [p.mark] + (p.sign + p.digits)) && GoodPower(p)
    requires var c := Peek(t, i + 1 + |p.sign| + |p.digits|);
             !Decimal.IsDigit(c) && (p.sign == "" && p.digits == "" ==> c != '+' && c != '-')
    ensures var end := i + 1 + |p.sign| + |p.digits|;
            && ExponentEnd(t, i) == end && (Peek(t, i) == 'e' || Peek(t, i) == 'E')
            && (Peek(t, i + 1) == '+' || Peek(t, i + 1) == '-' <==> p.sign != "")
            && (Peek(t, i + 1) == '-' <==> p.sign == "-")
            && At(t, i + 1 + |p.sign|, p.digits) && DigitsEnd(t, i + 1 + |p.sign|) == end
  {
    hide At, DigitsEnd;
    AtSplit(t, i, [p.mark], p.sign + p.digits);
    AtChar(t, i, [p.mark], 0);
    AtSplit(t, i + 1, p.sign, p.digits);
    DigitsAreScanned(t, i + 1 + |p.sign|, p.digits);
    if p.sign != "" {
      AtChar(t, i + 1, p.sign, 0);
    } else if p.digits != "" {
      AtChar(t, i + 1, p.digits, 0);
    }
  }

  /** After a number without an exponent there is none to be scanned. */
  lemma TailIsScanned(t: string, i: nat, power: Option<Power>)
    requires At(t, i, WrittenPower(power)) && (power.Some? ==> GoodPower(power.value))
    requires var c := Peek(t, i + |WrittenPower(power)|);
             && !Decimal.IsDigit(c) && (power.None? ==> c != 'e' && c != 'E')
             && (power.Some? && power.value.sign == "" && power.value.digits == "" ==> c != '+' && c != '-')
    ensures ExponentEnd(t, i) == i + |WrittenPower(power)|
    ensures power.Some? ==> Peek(t, i) == 'e' || Peek(t, i) == 'E'
    ensures !Decimal.IsDigit(Peek(t, i))
  {
    hide At, DigitsEnd;
    if power.Some? { PowerIsScanned(t, i, power.value); }
  }

  lemma FirstDigit(w: string)
    requires Digits(w) && w != ""
    ensures Decimal.IsDigit(w[0])
  {}

  lemma FigureParts(t: string, i: nat, minus: bool, whole: string, fraction: Option<string>, power: Option<Power>)
    requires At(t, i, Sign(minus) + (whole + (WrittenFraction(fraction) + WrittenPower(power))))
    ensures
      var start := if minus then i + 1 else i;
      var mid := start + |whole|;
      && (minus ==> Peek(t, i) == '-') && At(t, start, whole) && At(t, mid, WrittenFraction(fraction))
      && At(t, mid + |WrittenFraction(fraction)|, WrittenPower(power))
      && (whole != "" ==> Peek(t, start) == whole[0])
  {
    hide At, WrittenFraction, WrittenPower;
    var start := if minus then i + 1 else i;
    AtSplit(t, i, Sign(minus), whole + (WrittenFraction(fraction) + WrittenPower(power)));
    AtSplit(t, start, whole, WrittenFraction(fraction) + WrittenPower(power));
    AtSplit(t, start + |whole|, WrittenFraction(fraction), WrittenPower(power));
    if minus { AtChar(t, i, "-", 0); }
    if whole != "" { AtChar(t, start, whole, 0); }
  }

  /** Where the parts of a number end. */
  lemma FigureIsScanned(
      t: string, i: nat, minus: bool, whole: string, fraction: Option<string>, power: Option<Power>)
    requires GoodFigure(minus, whole, fraction, power)
    requires At(t, i, Sign(minus) + (whole + (WrittenFraction(fraction) + WrittenPower(power))))
    requires var end := i + |Sign(minus)| + |whole| + |WrittenFraction(fraction)| + |WrittenPower(power)|;
             Halts(Figure(minus, whole, fraction, power), Peek(t, end))
    ensures
      var start := if minus then i + 1 else i;
      var mid := start + |whole|;
      var end := mid + |WrittenFraction(fraction)|;
      && (Peek(t, i) == '-' <==> minus) && (Peek(t, i) == '-' || Decimal.IsDigit(Peek(t, i)))
      && At(t, start, whole) && DigitsEnd(t, start) == mid
      && At(t, mid, WrittenFraction(fraction)) && FractionEnd(t, mid) == end
      && At(t, end, WrittenPower(power)) && ExponentEnd(t, end) == end + |WrittenPower(power)|
  {
    hide At, DigitsEnd, FractionEnd, ExponentEnd, Digits;
    var start := if minus then i + 1 else i;
    var mid := start + |whole|;
    var end := mid + |WrittenFraction(fraction)|;
    FigureParts(t, i, minus, whole, fraction, power);
    TailIsScanned(t, end, power);
    FractionIsScanned(t, mid, fraction);
    DigitsAreScanned(t, start, whole);
    if !minus { FirstDigit(whole); }
  }

  lemma PowerIs(t: string, i: nat, power: Option<Power>)
    requires At(t, i, WrittenPower(power)) && i + |WrittenPower(power)| == |t|
    requires power.Some? ==> GoodPower(power.value)
    ensures Exponent(t, i) == PowerOf(power)
  {
    hide DigitsEnd, At, Decimal.ValueOf;
    if power.Some? {
      var p := power.value;
      PowerIsScanned(t, i, p);
      var start := i + 1 + |p.sign|;
      AtSlice(t, start, p.digits);
      assert t[start..start + |p.digits|] == p.digits;
      if p.digits == "" { assert Decimal.ValueOf("") == 0 by { EmptyIsZero(); } }
    }
  }

  lemma ToNumberOfParts(t: string, minus: bool, whole: string, digits: string, mid: nat, end: nat, e: int)
    requires (Peek(t, 0) == '-' <==> minus) && mid == DigitsEnd(t, if minus then 1 else 0)
    requires end == FractionEnd(t, mid) && end <= |t| && Exponent(t, end) == e
    requires t[(if minus then 1 else 0)..mid] == whole && digits == if end > mid then t[mid + 1..end] else ""
    requires Digits(whole) && Digits(digits) && (whole != "" || digits != "")
    ensures
      var scaled := Raised(Magnitude(whole, digits), e);
      ToNumber(t) == Some(if minus then -scaled else scaled)
  {
    hide DigitsEnd, FractionEnd, Exponent, Assembled, Raised, Magnitude, Digits;
    assert ToNumber(t) == Assembled(minus, whole, digits, e);
    AssembledIs(minus, whole, digits, e);
  }

  lemma AssembledIs(minus: bool, whole: string, digits: string, e: int)
    requires Digits(whole) && Digits(digits) && (whole != "" || digits != "")
    ensures
      var scaled := Raised(Magnitude(whole, digits), e);
      Assembled(minus, whole, digits, e) == Some(if minus then -scaled else scaled)
  {
    hide Scale, Raised, Magnitude, Decimal.ValueOf, Digits;
    ScaledTogether(whole, digits, e);
  }

  lemma ToNumberIs(minus: bool, whole: string, fraction: Option<string>, power: Option<Power>)
    requires GoodFigure(minus, whole, fraction, power)
    ensures ToNumber(Sign(minus) + (whole + (WrittenFraction(fraction) + WrittenPower(power))))
         == Some(MeantNumber(minus, whole, fraction, power))
  {
    hide At, DigitsEnd, FractionEnd, ExponentEnd, Exponent, ToNumber, Raised, Magnitude, Ten, Decimal.ValueOf, Digits;
    hide PowerOf, WrittenFraction, WrittenPower;
    var t := Sign(minus) + (whole + (WrittenFraction(fraction) + WrittenPower(power)));
    var start := if minus then 1 else 0;
    var mid := start + |whole|;
    var end := mid + |WrittenFraction(fraction)|;
    WholeIsAt(t);
    FigureIsScanned(t, 0, minus, whole, fraction, power);
    PowerIs(t, end, power);
    AtSlice(t, start, whole);
    FractionSlice(t, mid, fraction);
    AtEnds(t, end, WrittenPower(power));
    ToNumberOfParts(t, minus, whole, fraction.GetOr(""), mid, end, PowerOf(power));
  }

  lemma AtEnds(t: string, i: nat, w: string)
    requires At(t, i, w)
    ensures i <= |t|
  {}

  lemma FractionSlice(t: string, mid: nat, fraction: Option<string>)
    requires At(t, mid, WrittenFraction(fraction)) && (fraction.Some? ==> Digits(fraction.value))
    ensures var end := mid + |WrittenFraction(fraction)|;
            end <= |t| && fraction.GetOr("") == if end > mid then t[mid + 1..end] else ""
    ensures Digits(fraction.GetOr(""))
  {
    var end := mid + |WrittenFraction(fraction)|;
    if fraction.Some? { assert t[mid..end][1..] == t[mid + 1..end]; }
  }

  lemma WholeIsAt(t: string)
    ensures At(t, 0, t)
  {}

  lemma FigureReads(t: string, i: nat, doc: Doc)
    requires doc.Figure? && Good(doc) && At(t, i, Written(doc)) && Halts(doc, Peek(t, i + |Written(doc)|))
    ensures ReadValue(t, i) == JsonText.Got(Meant(doc), i + |Written(doc)|)
    ensures Peek(t, i) == '-' || Decimal.IsDigit(Peek(t, i))
  {
    hide At, DigitsEnd, FractionEnd, ExponentEnd, ToNumber, MeantNumber, WrittenFraction, WrittenPower, Digits;
    var Figure(minus, whole, fraction, power) := doc;
    FigureIsScanned(t, i, minus, whole, fraction, power);
    ToNumberIs(minus, whole, fraction, power);
    AtSlice(t, i, Written(doc));
    assert SkipSpace(t, i) == i;
    assert NumberEnd(t, i) == i + |Written(doc)|;
  }

  // ---- values -----------------------------------------------------------------------------------

  /** A document never begins with a space. */
  lemma DocBegins(t: string, i: nat, doc: Doc)
    requires Good(doc) && At(t, i, Written(doc))
    ensures i < |t| && !Space(Peek(t, i)) && Peek(t, i) !in ['}', ']', ',', ':']
  {
    AtChar(t, i, Written(doc), 0);
  }

  lemma {:induction false} DocReads(t: string, i: nat, doc: Doc)
    requires Good(doc) && At(t, i, Written(doc)) && Halts(doc, Peek(t, i + |Written(doc)|))
    ensures ReadValue(t, i) == JsonText.Got(Meant(doc), i + |Written(doc)|)
    decreases doc, 0
  {
    DocBegins(t, i, doc);
    match doc
    case Name(letters) => AtChar(t, i, letters, 0);
    case Figure(_, _, _, _) => FigureReads(t, i, doc);
    case Quoted(pieces) => TextReads(t, i, pieces);
    case List(blank, items) => ListReads(t, i, blank, items);
    case Record(blank, members) => RecordReads(t, i, blank, members);
  }

  predicate Stopper(c: char) { c == ',' || c == ']' || c == '}' }

  /** A value with white space around it, in front of what cannot lengthen it. */
  lemma {:induction false} ItemReads(t: string, i: nat, item: Item)
    requires GoodItem(item) && At(t, i, WrittenItem(item)) && Stopper(Peek(t, i + |WrittenItem(item)|))
    ensures SkipSpace(t, i) == i + |item.before| && Peek(t, i + |item.before|) !in ['}', ']', ',', ':']
    ensures var next := i + |item.before| + |Written(item.doc)|;
            && ReadValue(t, i + |item.before|) == JsonText.Got(Meant(item.doc), next)
            && SkipSpace(t, next) == i + |WrittenItem(item)|
    decreases item, 1
  {
    hide At, Written, Meant, ReadValue;
    var at := i + |item.before|;
    AtSplit(t, i, item.before, Written(item.doc) + item.after);
    AtSplit(t, at, Written(item.doc), item.after);
    DocBegins(t, at, item.doc);
    BlankIsSkipped(t, i, item.before);
    BlankIsSkipped(t, at + |Written(item.doc)|, item.after);
    BlankHalts(t, at + |Written(item.doc)|, item.after, item.doc);
    DocReads(t, at, item.doc);
  }

  lemma BlankHalts(t: string, i: nat, blank: string, doc: Doc)
    requires At(t, i, blank) && Blank(blank) && Stopper(Peek(t, i + |blank|))
    ensures Halts(doc, Peek(t, i))
  {
    if blank != "" { AtChar(t, i, blank, 0); }
  }

  lemma {:induction false} ItemsRead(t: string, i: nat, items: seq<Item>, done: seq<Value>)
    requires items != [] && forall k | 0 <= k < |items| :: GoodItem(items[k])
    requires At(t, i, WrittenItems(items) + "]")
    ensures ReadItems(t, i, done) == JsonText.Got(done + MeantItems(items), i + |WrittenItems(items)| + 1)
    ensures Peek(t, SkipSpace(t, i)) != ']'
    decreases items, 2
  {
    hide At, WrittenItem, WrittenItems, Meant, MeantItems, ReadValue, ReadItems, SkipSpace, GoodItem;
    MeantFirst(items);
    ItemsSplit(t, i, items);
    var after := i + |WrittenItem(items[0])|;
    var v := Meant(items[0].doc);
    if |items| > 1 { ItemsRead(t, after + 1, items[1..], done + [v]); }
    ItemReads(t, i, items[0]);
    ItemIsTaken(t, i, done, v, SkipSpace(t, i), i + |items[0].before| + |Written(items[0].doc)|, after);
    assert done + [v] + MeantItems(items[1..]) == done + MeantItems(items);
  }

  lemma MeantFirst(items: seq<Item>)
    requires items != [] && forall k | 0 <= k < |items| :: GoodItem(items[k])
    ensures Good(items[0].doc) && MeantItems(items) == [Meant(items[0].doc)] + MeantItems(items[1..])
    ensures |items| == 1 ==> MeantItems(items) == [Meant(items[0].doc)]
  {
    assert GoodItem(items[0]);
  }

  lemma ItemsSplit(t: string, i: nat, items: seq<Item>)
    requires items != [] && At(t, i, WrittenItems(items) + "]")
    ensures
      var first := WrittenItem(items[0]);
      && At(t, i, first)
      && Peek(t, i + |first|) == (if |items| == 1 then ']' else ',')
      && (|items| == 1 ==> |WrittenItems(items)| == |first|)
      && (|items| > 1 ==>
            && At(t, i + |first| + 1, WrittenItems(items[1..]) + "]")
            && |WrittenItems(items)| == |first| + 1 + |WrittenItems(items[1..])|)
  {
    hide At, WrittenItem;
    if |items| == 1 {
      AtLast(t, i, WrittenItem(items[0]), "]");
    } else {
      AtNext(t, i, WrittenItem(items[0]), WrittenItems(items[1..]), "]");
    }
  }

  lemma {:induction false} ItemIsTaken(t: string, i: nat, done: seq<Value>, v: Value, at: nat, next: nat, after: nat)
    requires SkipSpace(t, i) == at && ReadValue(t, at) == JsonText.Got(v, next) && SkipSpace(t, next) == after
    requires Peek(t, after) == ',' || Peek(t, after) == ']'
    ensures ReadItems(t, i, done) == if Peek(t, after) == ']' then JsonText.Got(done + [v], after + 1)
                                     else ReadItems(t, after + 1, done + [v])
  {
  }

  lemma {:induction false} ListReads(t: string, i: nat, blank: string, items: seq<Item>)
    requires Blank(blank) && forall k | 0 <= k < |items| :: GoodItem(items[k])
    requires At(t, i, "[" + ((if items == [] then blank else WrittenItems(items)) + "]"))
    ensures Peek(t, i) == '['
    ensures ReadArray(t, i)
         == JsonText.Got(MeantItems(items), i + |if items == [] then blank else WrittenItems(items)| + 2)
    decreases items, 3
  {
    hide At, ReadItems, WrittenItems, MeantItems, SkipSpace, GoodItem;
    var inner := if items == [] then blank else WrittenItems(items);
    AtSplit(t, i, "[", inner + "]");
    AtChar(t, i, "[", 0);
    if items == [] {
      AtLast(t, i + 1, blank, "]");
      BlankIsSkipped(t, i + 1, blank);
      assert MeantItems([]) == [] by { NoItems(); }
    } else {
      ItemsRead(t, i + 1, items, []);
      ItemsFromBlank(t, i + 1);
      assert [] + MeantItems(items) == MeantItems(items);
    }
  }

  lemma NoItems()
    ensures MeantItems([]) == []
  {}

  lemma {:induction false} SkipTwice(t: string, i: nat)
    ensures SkipSpace(t, SkipSpace(t, i)) == SkipSpace(t, i)
  {}

  lemma {:induction false} ItemsFromBlank(t: string, i: nat)
    ensures ReadItems(t, SkipSpace(t, i), []) == ReadItems(t, i, [])
  {
    SkipTwice(t, i);
  }

  lemma MemberParts(t: string, i: nat, m: Member)
    requires At(t, i, WrittenMember(m))
    ensures
      var quote := i + |m.before|;
      var close := quote + |WrittenPieces(m.key)| + 2;
      var colon := close + |m.middle|;
      && At(t, i, m.before) && At(t, quote, "\"" + (WrittenPieces(m.key) + "\"")) && Peek(t, quote) == '"'
      && At(t, close, m.middle) && Peek(t, colon) == ':'
      && At(t, colon + 1, WrittenItem(m.item)) && colon + 1 + |WrittenItem(m.item)| == i + |WrittenMember(m)|
  {
    hide At, WrittenItem, WrittenPieces;
    var item, key := WrittenItem(m.item), WrittenPieces(m.key);
    var quote := i + |m.before|;
    var tail := m.middle + (":" + item);
    AtSplit(t, i, m.before, "\"" + (key + ("\"" + tail)));
    KeyParts(t, quote, key, tail);
    var close := quote + |key| + 2;
    AtSplit(t, close, m.middle, ":" + item);
    AtSplit(t, close + |m.middle|, ":", item);
    AtChar(t, close + |m.middle|, ":", 0);
  }

  lemma KeyParts(t: string, quote: nat, key: string, tail: string)
    requires At(t, quote, "\"" + (key + ("\"" + tail)))
    ensures Peek(t, quote) == '"' && At(t, quote, "\"" + (key + "\"")) && At(t, quote + |key| + 2, tail)
  {
    hide At;
    AtSplit(t, quote, "\"", key + ("\"" + tail));
    AtChar(t, quote, "\"", 0);
    AtSplit(t, quote + 1, key, "\"" + tail);
    AtSplit(t, quote + 1 + |key|, "\"", tail);
    AtJoin(t, quote + 1, key, "\"");
    AtJoin(t, quote, "\"", key + "\"");
  }

  lemma {:induction false} MemberReads(t: string, i: nat, m: Member)
    requires GoodMember(m) && At(t, i, WrittenMember(m)) && Stopper(Peek(t, i + |WrittenMember(m)|))
    ensures Peek(t, SkipSpace(t, i)) == '"'
    ensures var after := i + |WrittenMember(m)|;
            && ReadEntry(t, i).Got? && ReadEntry(t, i).value == Entry(MeantText(m.key), Meant(m.item.doc))
            && SkipSpace(t, ReadEntry(t, i).next) == after
    decreases m, 1
  {
    hide At, Written, WrittenItem, WrittenMember, WrittenPieces, Meant, ReadValue, ReadEntry, ReadString, SkipSpace;
    hide MeantText, Blank, GoodPieces;
    var quote := i + |m.before|;
    var close := quote + |WrittenPieces(m.key)| + 2;
    var colon := close + |m.middle|;
    MemberParts(t, i, m);
    BlankIsSkipped(t, i, m.before);
    TextReads(t, quote, m.key);
    BlankIsSkipped(t, close, m.middle);
    assert GoodItem(m.item);
    ItemReads(t, colon + 1, m.item);
    EntryIsTaken(t, i, quote, MeantText(m.key), close, colon, SkipSpace(t, colon + 1), Meant(m.item.doc),
                 SkipSpace(t, colon + 1) + |Written(m.item.doc)|);
  }

  lemma EntryIsTaken(
      t: string, i: nat, quote: nat, key: string, close: nat, colon: nat, at: nat, v: Value, next: nat)
    requires SkipSpace(t, i) == quote && ReadString(t, quote) == JsonText.Got(key, close)
    requires SkipSpace(t, close) == colon && Peek(t, colon) == ':'
    requires SkipSpace(t, colon + 1) == at && ReadValue(t, at) == JsonText.Got(v, next)
    ensures ReadEntry(t, i) == JsonText.Got(Entry(key, v), next)
  {
  }

  lemma {:induction false} MembersRead(t: string, i: nat, ms: seq<Member>, done: seq<Entry<Value>>)
    requires ms != [] && forall k | 0 <= k < |ms| :: GoodMember(ms[k])
    requires At(t, i, WrittenMembers(ms) + "}")
    ensures ReadEntries(t, i, done) == JsonText.Got(MeantMembers(ms, done), i + |WrittenMembers(ms)| + 1)
    ensures Peek(t, SkipSpace(t, i)) != '}'
    decreases ms, 2
  {
    hide At, WrittenMember, WrittenMembers, Meant, MeantMembers, ReadEntry, ReadEntries, SkipSpace, Put, MeantText;
    hide GoodMember;
    MeantMember(ms, done);
    MembersSplit(t, i, ms);
    var after := i + |WrittenMember(ms[0])|;
    var key, v := MeantText(ms[0].key), Meant(ms[0].item.doc);
    if |ms| > 1 { MembersRead(t, after + 1, ms[1..], Put(done, key, v)); }
    MemberReads(t, i, ms[0]);
    MemberIsTaken(t, i, done, Entry(key, v), ReadEntry(t, i).next, after);
  }

  lemma MeantMember(ms: seq<Member>, done: seq<Entry<Value>>)
    requires ms != [] && forall k | 0 <= k < |ms| :: GoodMember(ms[k])
    ensures Good(ms[0].item.doc)
    ensures var next := Put(done, MeantText(ms[0].key), Meant(ms[0].item.doc));
            && MeantMembers(ms, done) == MeantMembers(ms[1..], next)
            && (|ms| == 1 ==> MeantMembers(ms[1..], next) == next)
  {
    assert GoodMember(ms[0]);
  }

  lemma MembersSplit(t: string, i: nat, ms: seq<Member>)
    requires ms != [] && At(t, i, WrittenMembers(ms) + "}")
    ensures
      var first := WrittenMember(ms[0]);
      && At(t, i, first)
      && Peek(t, i + |first|) == (if |ms| == 1 then '}' else ',')
      && (|ms| == 1 ==> |WrittenMembers(ms)| == |first|)
      && (|ms| > 1 ==>
            && At(t, i + |first| + 1, WrittenMembers(ms[1..]) + "}")
            && |WrittenMembers(ms)| == |first| + 1 + |WrittenMembers(ms[1..])|)
  {
    hide At, WrittenMember;
    if |ms| == 1 {
      AtLast(t, i, WrittenMember(ms[0]), "}");
    } else {
      AtNext(t, i, WrittenMember(ms[0]), WrittenMembers(ms[1..]), "}");
    }
  }

  lemma {:induction false} MemberIsTaken(
      t: string, i: nat, done: seq<Entry<Value>>, e: Entry<Value>, next: nat, after: nat)
    requires ReadEntry(t, i) == JsonText.Got(e, next) && SkipSpace(t, next) == after
    requires Peek(t, after) == ',' || Peek(t, after) == '}'
    ensures ReadEntries(t, i, done)
         == if Peek(t, after) == '}' then JsonText.Got(Put(done, e.key, e.value), after + 1)
            else ReadEntries(t, after + 1, Put(done, e.key, e.value))
  {
  }

  lemma {:induction false} RecordReads(t: string, i: nat, blank: string, ms: seq<Member>)
    requires Blank(blank) && forall k | 0 <= k < |ms| :: GoodMember(ms[k])
    requires At(t, i, "{" + ((if ms == [] then blank else WrittenMembers(ms)) + "}"))
    ensures Peek(t, i) == '{'
    ensures ReadObject(t, i)
         == JsonText.Got(MeantMembers(ms, []), i + |if ms == [] then blank else WrittenMembers(ms)| + 2)
    decreases ms, 3
  {
    hide At, ReadEntries, WrittenMembers, SkipSpace, GoodMember;
    var inner := if ms == [] then blank else WrittenMembers(ms);
    AtSplit(t, i, "{", inner + "}");
    AtChar(t, i, "{", 0);
    if ms == [] {
      AtLast(t, i + 1, blank, "}");
      BlankIsSkipped(t, i + 1, blank);
    } else {
      MembersRead(t, i + 1, ms, []);
      EntriesFromBlank(t, i + 1);
    }
  }

  lemma {:induction false} EntriesFromBlank(t: string, i: nat)
    ensures ReadEntries(t, SkipSpace(t, i), []) == ReadEntries(t, i, [])
  {
    SkipTwice(t, i);
    assert ReadEntry(t, SkipSpace(t, i)) == ReadEntry(t, i);
  }

  // ---- and it reads nothing else ----------------------------------------------------------------

  lemma {:induction false} BlankHere(t: string, i: nat) returns (blank: string)
    requires i <= |t|
    ensures At(t, i, blank) && Blank(blank) && SkipSpace(t, i) == i + |blank| && !Space(Peek(t, i + |blank|))
    decreases |t| - i
  {
    if i < |t| && Space(t[i]) {
      var rest := BlankHere(t, i + 1);
      blank := [t[i]] + rest;
    } else {
      blank := "";
    }
  }

  lemma {:induction false} DigitsHere(t: string, i: nat) returns (digits: string)
    requires i <= |t|
    ensures At(t, i, digits) && Digits(digits) && DigitsEnd(t, i) == i + |digits|
    ensures !Decimal.IsDigit(Peek(t, i + |digits|))
    decreases |t| - i
  {
    if i < |t| && Decimal.IsDigit(t[i]) {
      var rest := DigitsHere(t, i + 1);
      digits := [t[i]] + rest;
    } else {
      digits := "";
    }
  }

  lemma {:induction false} CharsAreWritten(t: string, i: nat) returns (ps: seq<Piece>)
    requires ReadChars(t, i).Got?
    ensures GoodPieces(ps) && At(t, i, WrittenPieces(ps) + "\"")
    ensures ReadChars(t, i).next == i + |WrittenPieces(ps)| + 1
    decreases |t| - i
  {
    hide At;
    if t[i] == '"' {
      ps := [];
      AtOne(t, i);
      assert WrittenPieces(ps) + "\"" == "\"";
    } else {
      var escaped := t[i] == '\\';
      var p := if escaped then Escaped(Peek(t, i + 1)) else Plain(t[i]);
      var rest := CharsAreWritten(t, if escaped then i + 2 else i + 1);
      ps := [p] + rest;
      assert ps[1..] == rest;
      AtWithin(t, if escaped then i + 2 else i + 1, WrittenPieces(rest) + "\"");
      AtPiece(t, i, p);
      AtJoin(t, i, WrittenPiece(p), WrittenPieces(rest) + "\"");
      assert WrittenPieces(ps) + "\"" == WrittenPiece(p) + (WrittenPieces(rest) + "\"");
    }
  }

  lemma AtPiece(t: string, i: nat, p: Piece)
    requires p.Plain? ==> i < |t| && t[i] == p.c
    requires p.Escaped? ==> i + 1 < |t| && t[i] == '\\' && t[i + 1] == p.c
    ensures At(t, i, WrittenPiece(p))
  {}

  lemma TextIsWritten(t: string, i: nat) returns (ps: seq<Piece>)
    requires ReadString(t, i).Got?
    ensures GoodPieces(ps) && At(t, i, "\"" + (WrittenPieces(ps) + "\""))
    ensures ReadString(t, i).next == i + |WrittenPieces(ps)| + 2 && ReadString(t, i).next <= |t|
  {
    hide ReadChars, WrittenPieces;
    ps := CharsAreWritten(t, i + 1);
    assert At(t, i, "\"");
    AtJoin(t, i, "\"", WrittenPieces(ps) + "\"");
  }

  lemma FractionHere(t: string, i: nat) returns (fraction: Option<string>)
    requires i <= |t| && !Decimal.IsDigit(Peek(t, i))
    ensures At(t, i, WrittenFraction(fraction)) && (fraction.Some? ==> Digits(fraction.value))
    ensures FractionEnd(t, i) == i + |WrittenFraction(fraction)|
    ensures var c := Peek(t, FractionEnd(t, i)); !Decimal.IsDigit(c) && (fraction.None? ==> c != '.')
  {
    hide DigitsEnd;
    if Peek(t, i) == '.' {
      var digits := DigitsHere(t, i + 1);
      AtJoin(t, i, ".", digits);
      fraction := Some(digits);
    } else {
      fraction := None;
    }
  }

  lemma PowerHere(t: string, i: nat) returns (power: Option<Power>)
    requires i <= |t| && !Decimal.IsDigit(Peek(t, i))
    ensures At(t, i, WrittenPower(power)) && (power.Some? ==> GoodPower(power.value))
    ensures ExponentEnd(t, i) == i + |WrittenPower(power)|
    ensures power.None? ==> Peek(t, i) != 'e' && Peek(t, i) != 'E'
    ensures var c := Peek(t, ExponentEnd(t, i));
            && !Decimal.IsDigit(c)
            && (power.Some? && power.value.sign == "" && power.value.digits == "" ==> c != '+' && c != '-')
  {
    hide DigitsEnd, ExponentEnd, At, Digits, WrittenPower;
    ExponentUnfolds(t, i);
    if Peek(t, i) == 'e' || Peek(t, i) == 'E' {
      var sign := SignHere(t, i + 1);
      var digits := DigitsHere(t, i + 1 + |sign|);
      power := Some(Power(t[i], sign, digits));
      PowerFits(t, i, sign, digits);
    } else {
      power := None;
      NothingWritten();
      AtNothing(t, i);
    }
  }

  lemma PowerFits(t: string, i: nat, sign: string, digits: string)
    requires i < |t| && At(t, i + 1, sign) && At(t, i + 1 + |sign|, digits)
    ensures At(t, i, WrittenPower(Some(Power(t[i], sign, digits))))
    ensures |WrittenPower(Some(Power(t[i], sign, digits)))| == 1 + |sign| + |digits|
  {
    hide At;
    AtOne(t, i);
    AtJoin(t, i + 1, sign, digits);
    AtJoin(t, i, [t[i]], sign + digits);
  }

  lemma ExponentUnfolds(t: string, i: nat)
    ensures ExponentEnd(t, i)
         == if Peek(t, i) != 'e' && Peek(t, i) != 'E' then i
            else DigitsEnd(t, if Peek(t, i + 1) == '+' || Peek(t, i + 1) == '-' then i + 2 else i + 1)
  {
    hide DigitsEnd;
  }

  lemma SignHere(t: string, i: nat) returns (sign: string)
    requires i <= |t|
    ensures At(t, i, sign) && (sign == "" || sign == "+" || sign == "-") && i + |sign| <= |t|
    ensures sign == "" <==> Peek(t, i) != '+' && Peek(t, i) != '-'
  {
    sign := if Peek(t, i) == '+' || Peek(t, i) == '-' then [t[i]] else "";
  }

  lemma AtNothing(t: string, i: nat)
    requires i <= |t|
    ensures At(t, i, "")
  {}

  lemma FigureHere(t: string, i: nat)
      returns (minus: bool, whole: string, fraction: Option<string>, power: Option<Power>)
    requires i < |t| && (t[i] == '-' || Decimal.IsDigit(t[i]))
    ensures At(t, i, Sign(minus) + (whole + (WrittenFraction(fraction) + WrittenPower(power))))
    ensures NumberEnd(t, i) == i + |Sign(minus)| + |whole| + |WrittenFraction(fraction)| + |WrittenPower(power)|
    ensures Digits(whole) && (fraction.Some? ==> Digits(fraction.value)) && (power.Some? ==> GoodPower(power.value))
    ensures minus || whole != ""
    ensures Halts(Figure(minus, whole, fraction, power), Peek(t, NumberEnd(t, i)))
  {
    hide DigitsEnd, FractionEnd, ExponentEnd, At, Digits, WrittenFraction, WrittenPower, GoodPower;
    minus := t[i] == '-';
    var start := if minus then i + 1 else i;
    whole := DigitsHere(t, start);
    var mid := start + |whole|;
    AtEnds(t, start, whole);
    AtWithin(t, start, whole);
    fraction := FractionHere(t, mid);
    var end := mid + |WrittenFraction(fraction)|;
    AtWithin(t, mid, WrittenFraction(fraction));
    power := PowerHere(t, end);
    AtJoin(t, mid, WrittenFraction(fraction), WrittenPower(power));
    AtJoin(t, start, whole, WrittenFraction(fraction) + WrittenPower(power));
    AtSign(t, i, minus);
    AtJoin(t, i, Sign(minus), whole + (WrittenFraction(fraction) + WrittenPower(power)));
    if !minus { NoDigitNoStart(t, i, whole); }
    NothingWritten();
  }

  lemma AtWithin(t: string, i: nat, w: string)
    requires At(t, i, w)
    ensures i + |w| <= |t|
  {}

  lemma AtSign(t: string, i: nat, minus: bool)
    requires i < |t| && (minus ==> t[i] == '-')
    ensures At(t, i, Sign(minus))
  {}

  lemma NoDigitNoStart(t: string, i: nat, whole: string)
    requires i < |t| && Decimal.IsDigit(t[i]) && DigitsEnd(t, i) == i + |whole|
    ensures whole != ""
  {}

  lemma NothingWritten()
    ensures WrittenFraction(None) == "" && WrittenPower(None) == ""
  {}

  /** A sign, a point and an exponent are no number without a digit. */
  lemma NoDigitNoNumber(fraction: Option<string>, power: Option<Power>)
    requires fraction.GetOr("") == "" && (power.Some? ==> GoodPower(power.value))
    ensures ToNumber("-" + ("" + (WrittenFraction(fraction) + WrittenPower(power)))) == None
  {
    hide Exponent, Scale;
    var t := "-" + ("" + (WrittenFraction(fraction) + WrittenPower(power)));
    assert DigitsEnd(t, 1) == 1;
    if fraction.Some? {
      assert t[1] == '.';
      assert DigitsEnd(t, 2) == 2;
    }
  }

  lemma FigureIsWritten(t: string, i: nat) returns (doc: Doc)
    requires i < |t| && (t[i] == '-' || Decimal.IsDigit(t[i])) && ReadNumber(t, i).Got?
    ensures Good(doc) && At(t, i, Written(doc)) && Halts(doc, Peek(t, i + |Written(doc)|))
    ensures ReadNumber(t, i).next == i + |Written(doc)| && i + |Written(doc)| <= |t|
  {
    hide At, NumberEnd, ToNumber, Digits, GoodPower, WrittenFraction, WrittenPower;
    var minus, whole, fraction, power := FigureHere(t, i);
    doc := Figure(minus, whole, fraction, power);
    AtSlice(t, i, Written(doc));
    if whole == "" && fraction.GetOr("") == "" {
      NoDigitNoNumber(fraction, power);
      assert false;
    }
  }

  lemma NameIsWritten(t: string, i: nat) returns (doc: Doc)
    requires Peek(t, i) in ['t', 'f', 'n'] && i + (if Peek(t, i) == 'f' then 5 else 4) <= |t|
    ensures Good(doc) && At(t, i, Written(doc)) && (forall c :: Halts(doc, c))
    ensures |Written(doc)| == if Peek(t, i) == 'f' then 5 else 4
  {
    doc := Name(t[i..i + if Peek(t, i) == 'f' then 5 else 4]);
  }

  lemma {:induction false} ValueIsWritten(t: string, i: nat) returns (before: string, doc: Doc)
    requires ReadValue(t, i).Got? && i <= |t| && ReadValue(t, i).next <= |t|
    ensures Blank(before) && Good(doc) && At(t, i, before) && At(t, i + |before|, Written(doc))
    ensures ReadValue(t, i).next == i + |before| + |Written(doc)| && Halts(doc, Peek(t, ReadValue(t, i).next))
    ensures SkipSpace(t, i) == i + |before|
    decreases |t| - i, 2
  {
    hide At, Written, ReadNumber, ReadString, Digits, Blank;
    before := BlankHere(t, i);
    var at := i + |before|;
    var c := Peek(t, at);
    if c == '"' {
      var ps := TextIsWritten(t, at);
      doc := Quoted(ps);
      QuotedIs(ps);
    } else if c == '{' {
      var blank, ms := RecordIsWritten(t, at);
      doc := Record(blank, ms);
      RecordIs(blank, ms);
    } else if c == '[' {
      var blank, items := ListIsWritten(t, at);
      doc := List(blank, items);
      ListIs(blank, items);
    } else if c == 't' || c == 'f' || c == 'n' {
      doc := NameIsWritten(t, at);
    } else {
      doc := FigureIsWritten(t, at);
    }
  }

  lemma QuotedIs(ps: seq<Piece>)
    ensures Written(Quoted(ps)) == "\"" + (WrittenPieces(ps) + "\"")
    ensures |Written(Quoted(ps))| == |WrittenPieces(ps)| + 2
  {}

  lemma ListIs(blank: string, items: seq<Item>)
    ensures Written(List(blank, items)) == "[" + ((if items == [] then blank else WrittenItems(items)) + "]")
  {}

  lemma RecordIs(blank: string, ms: seq<Member>)
    ensures Written(Record(blank, ms)) == "{" + ((if ms == [] then blank else WrittenMembers(ms)) + "}")
  {}

  lemma {:induction false} ListIsWritten(t: string, i: nat) returns (blank: string, items: seq<Item>)
    requires Peek(t, i) == '[' && ReadArray(t, i).Got?
    ensures Blank(blank) && forall k | 0 <= k < |items| :: GoodItem(items[k])
    ensures var inner := if items == [] then blank else WrittenItems(items);
            At(t, i, "[" + (inner + "]")) && ReadArray(t, i).next == i + |inner| + 2 <= |t|
    decreases |t| - i, 1
  {
    hide ReadItems, WrittenItems, At, GoodItem;
    assert At(t, i, "[") by { AtOne(t, i); }
    blank := BlankHere(t, i + 1);
    var start := SkipSpace(t, i + 1);
    if Peek(t, start) == ']' {
      items := [];
      AtOne(t, start);
      AtJoin(t, i + 1, blank, "]");
      AtJoin(t, i, "[", blank + "]");
    } else {
      ItemsFromBlank(t, i + 1);
      items := ItemsAreWritten(t, i + 1, []);
      AtJoin(t, i, "[", WrittenItems(items) + "]");
      AtWithin(t, i + 1, WrittenItems(items) + "]");
    }
  }

  lemma AtOne(t: string, i: nat)
    requires i < |t|
    ensures At(t, i, [t[i]])
  {}

  lemma {:induction false} ItemsAreWritten(t: string, i: nat, done: seq<Value>) returns (items: seq<Item>)
    requires i <= |t| && ReadItems(t, i, done).Got?
    ensures items != [] && forall k | 0 <= k < |items| :: GoodItem(items[k])
    ensures At(t, i, WrittenItems(items) + "]") && ReadItems(t, i, done).next == i + |WrittenItems(items)| + 1
    decreases |t| - i, 4
  {
    hide At, Written, WrittenItem, WrittenItems, SkipSpace, ReadValue, ReadItems, Good, Blank;
    ItemsUnfold(t, i, done);
    var at := SkipSpace(t, i);
    var next := ReadValue(t, at).next;
    var end := SkipSpace(t, next);
    var item := ItemIsWritten(t, i);
    if Peek(t, end) == ']' {
      items := [item];
      JoinLast(t, i, item);
    } else {
      var rest := ItemsAreWritten(t, end + 1, done + [ReadValue(t, at).value]);
      items := [item] + rest;
      JoinItems(t, i, item, rest);
      assert forall k | 0 <= k < |items| :: items[k] == if k == 0 then item else rest[k - 1];
    }
  }

  lemma ItemsUnfold(t: string, i: nat, done: seq<Value>)
    requires ReadItems(t, i, done).Got?
    ensures
      var at := SkipSpace(t, i);
      && ReadValue(t, at).Got?
      && var end := SkipSpace(t, ReadValue(t, at).next);
         && end < |t| && (Peek(t, end) == ']' || Peek(t, end) == ',')
         && ReadItems(t, i, done) == if Peek(t, end) == ']' then JsonText.Got(done + [ReadValue(t, at).value], end + 1)
                                     else ReadItems(t, end + 1, done + [ReadValue(t, at).value])
  {
    hide ReadValue, SkipSpace;
  }

  lemma {:induction false} ItemIsWritten(t: string, i: nat) returns (item: Item)
    requires i <= |t| && ReadValue(t, SkipSpace(t, i)).Got?
    requires SkipSpace(t, ReadValue(t, SkipSpace(t, i)).next) < |t|
    ensures GoodItem(item) && At(t, i, WrittenItem(item))
    ensures SkipSpace(t, ReadValue(t, SkipSpace(t, i)).next) == i + |WrittenItem(item)|
    decreases |t| - i, 3
  {
    hide At, Written, SkipSpace, ReadValue, Good, Blank;
    var before := BlankHere(t, i);
    var at := i + |before|;
    AtWithin(t, i, before);
    var next := ReadValue(t, at).next;
    NextWithin(t, next);
    var none, doc := ValueIsWritten(t, at);
    SkipTwice(t, i);
    assert none == "";
    var after := BlankHere(t, next);
    item := Item(before, doc, after);
    AtJoin(t, at, Written(doc), after);
    AtJoin(t, i, before, Written(doc) + after);
  }

  lemma JoinLast(t: string, i: nat, item: Item)
    requires At(t, i, WrittenItem(item)) && i + |WrittenItem(item)| < |t| && t[i + |WrittenItem(item)|] == ']'
    ensures At(t, i, WrittenItems([item]) + "]") && |WrittenItems([item])| == |WrittenItem(item)|
  {
    hide At, WrittenItem;
    AtOne(t, i + |WrittenItem(item)|);
    AtJoin(t, i, WrittenItem(item), "]");
  }

  lemma JoinItems(t: string, i: nat, item: Item, rest: seq<Item>)
    requires At(t, i, WrittenItem(item)) && i + |WrittenItem(item)| < |t| && t[i + |WrittenItem(item)|] == ','
    requires rest != [] && At(t, i + |WrittenItem(item)| + 1, WrittenItems(rest) + "]")
    ensures At(t, i, WrittenItems([item] + rest) + "]")
    ensures |WrittenItems([item] + rest)| == |WrittenItem(item)| + 1 + |WrittenItems(rest)|
  {
    hide At, WrittenItem;
    var end := i + |WrittenItem(item)|;
    assert ([item] + rest)[1..] == rest;
    AtOne(t, end);
    AtJoin(t, end, ",", WrittenItems(rest) + "]");
    AtJoin(t, i, WrittenItem(item), "," + (WrittenItems(rest) + "]"));
    Cat(WrittenItem(item), ",", WrittenItems(rest));
    Cat(WrittenItem(item), "," + WrittenItems(rest), "]");
    Cat(",", WrittenItems(rest), "]");
  }

  lemma PeekWithin(t: string, i: nat)
    requires Peek(t, i) in [',', ']', '}', ':']
    ensures i < |t|
  {}

  lemma {:induction false} NextWithin(t: string, i: nat)
    requires SkipSpace(t, i) <= |t|
    ensures i <= |t|
  {}

  lemma {:induction false} RecordIsWritten(t: string, i: nat) returns (blank: string, ms: seq<Member>)
    requires Peek(t, i) == '{' && ReadObject(t, i).Got?
    ensures Blank(blank) && forall k | 0 <= k < |ms| :: GoodMember(ms[k])
    ensures var inner := if ms == [] then blank else WrittenMembers(ms);
            At(t, i, "{" + (inner + "}")) && ReadObject(t, i).next == i + |inner| + 2 <= |t|
    decreases |t| - i, 1
  {
    hide ReadEntries, WrittenMembers, At, GoodMember;
    assert At(t, i, "{") by { AtOne(t, i); }
    blank := BlankHere(t, i + 1);
    var start := SkipSpace(t, i + 1);
    if Peek(t, start) == '}' {
      ms := [];
      AtOne(t, start);
      AtJoin(t, i + 1, blank, "}");
      AtJoin(t, i, "{", blank + "}");
    } else {
      EntriesFromBlank(t, i + 1);
      ms := MembersAreWritten(t, i + 1, []);
      AtJoin(t, i, "{", WrittenMembers(ms) + "}");
      AtWithin(t, i + 1, WrittenMembers(ms) + "}");
    }
  }

  lemma {:induction false} MembersAreWritten(t: string, i: nat, done: seq<Entry<Value>>) returns (ms: seq<Member>)
    requires i <= |t| && ReadEntries(t, i, done).Got?
    ensures ms != [] && forall k | 0 <= k < |ms| :: GoodMember(ms[k])
    ensures At(t, i, WrittenMembers(ms) + "}") && ReadEntries(t, i, done).next == i + |WrittenMembers(ms)| + 1
    decreases |t| - i, 4
  {
    hide At, SkipSpace, ReadEntry, ReadEntries, WrittenMember, WrittenMembers, GoodMember, Put;
    MembersUnfold(t, i, done);
    var end := SkipSpace(t, ReadEntry(t, i).next);
    var m := MemberIsWritten(t, i);
    if Peek(t, end) == '}' {
      ms := [m];
      JoinLastMember(t, i, m);
    } else {
      var rest := MembersAreWritten(t, end + 1, Put(done, ReadEntry(t, i).value.key, ReadEntry(t, i).value.value));
      ms := [m] + rest;
      JoinMembers(t, i, m, rest);
      assert forall k | 0 <= k < |ms| :: ms[k] == if k == 0 then m else rest[k - 1];
    }
  }

  lemma MembersUnfold(t: string, i: nat, done: seq<Entry<Value>>)
    requires ReadEntries(t, i, done).Got?
    ensures
      && ReadEntry(t, i).Got?
      && var e, end := ReadEntry(t, i).value, SkipSpace(t, ReadEntry(t, i).next);
         && end < |t| && (Peek(t, end) == '}' || Peek(t, end) == ',')
         && ReadEntries(t, i, done) == if Peek(t, end) == '}' then JsonText.Got(Put(done, e.key, e.value), end + 1)
                                       else ReadEntries(t, end + 1, Put(done, e.key, e.value))
  {
    hide ReadEntry, SkipSpace, Put;
  }

  lemma JoinLastMember(t: string, i: nat, m: Member)
    requires At(t, i, WrittenMember(m)) && i + |WrittenMember(m)| < |t| && t[i + |WrittenMember(m)|] == '}'
    ensures At(t, i, WrittenMembers([m]) + "}") && |WrittenMembers([m])| == |WrittenMember(m)|
  {
    hide At, WrittenMember;
    AtOne(t, i + |WrittenMember(m)|);
    AtJoin(t, i, WrittenMember(m), "}");
  }

  lemma JoinMembers(t: string, i: nat, m: Member, rest: seq<Member>)
    requires At(t, i, WrittenMember(m)) && i + |WrittenMember(m)| < |t| && t[i + |WrittenMember(m)|] == ','
    requires rest != [] && At(t, i + |WrittenMember(m)| + 1, WrittenMembers(rest) + "}")
    ensures At(t, i, WrittenMembers([m] + rest) + "}")
    ensures |WrittenMembers([m] + rest)| == |WrittenMember(m)| + 1 + |WrittenMembers(rest)|
  {
    hide At, WrittenMember;
    var end := i + |WrittenMember(m)|;
    assert ([m] + rest)[1..] == rest;
    AtOne(t, end);
    AtJoin(t, end, ",", WrittenMembers(rest) + "}");
    AtJoin(t, i, WrittenMember(m), "," + (WrittenMembers(rest) + "}"));
    Cat(WrittenMember(m), ",", WrittenMembers(rest));
    Cat(WrittenMember(m), "," + WrittenMembers(rest), "}");
    Cat(",", WrittenMembers(rest), "}");
  }

  lemma {:induction false} MemberIsWritten(t: string, i: nat) returns (m: Member)
    requires i <= |t| && ReadEntry(t, i).Got? && SkipSpace(t, ReadEntry(t, i).next) < |t|
    ensures GoodMember(m) && At(t, i, WrittenMember(m))
    ensures SkipSpace(t, ReadEntry(t, i).next) == i + |WrittenMember(m)|
    decreases |t| - i, 3
  {
    hide At, WrittenItem, SkipSpace, ReadValue, ReadString, Good, Blank, GoodPieces, WrittenPieces;
    var before := BlankHere(t, i);
    var quote := i + |before|;
    AtWithin(t, i, before);
    var key := TextIsWritten(t, quote);
    var close := quote + |WrittenPieces(key)| + 2;
    var middle := BlankHere(t, close);
    var colon := close + |middle|;
    PeekWithin(t, colon);
    AtOne(t, colon);
    var item := ItemIsWritten(t, colon + 1);
    m := Member(before, key, middle, item);
    JoinMember(t, i, m);
  }

  lemma JoinMember(t: string, i: nat, m: Member)
    requires At(t, i, m.before)
    requires At(t, i + |m.before|, "\"" + (WrittenPieces(m.key) + "\""))
    requires At(t, i + |m.before| + |WrittenPieces(m.key)| + 2, m.middle)
    requires At(t, i + |m.before| + |WrittenPieces(m.key)| + 2 + |m.middle|, ":")
    requires At(t, i + |m.before| + |WrittenPieces(m.key)| + 3 + |m.middle|, WrittenItem(m.item))
    ensures At(t, i, WrittenMember(m))
    ensures |WrittenMember(m)| == |m.before| + |WrittenPieces(m.key)| + 3 + |m.middle| + |WrittenItem(m.item)|
  {
    hide At, WrittenItem, WrittenPieces;
    var item, key := WrittenItem(m.item), WrittenPieces(m.key);
    var quote := i + |m.before|;
    var close := quote + |key| + 2;
    var colon := close + |m.middle|;
    AtJoin(t, colon, ":", item);
    AtJoin(t, close, m.middle, ":" + item);
    AtJoin(t, quote, "\"" + (key + "\""), m.middle + (":" + item));
    Cat("\"", key + "\"", m.middle + (":" + item));
    Cat(key, "\"", m.middle + (":" + item));
    AtJoin(t, i, m.before, "\"" + (key + "\"") + (m.middle + (":" + item)));
  }

  // ---- the theorem ------------------------------------------------------------------------------

  /** A whole name, or the start of one that the text ends with. */
  ghost predicate CutShort(w: string, v: Value) {
    || (0 < |w| < 4 && w[0] == 't' && v == Bool(true))
    || (0 < |w| < 5 && w[0] == 'f' && v == Bool(false))
    || (0 < |w| < 4 && w[0] == 'n' && v == Null)
  }

  ghost predicate SpelledBy(s: string, v: Value, before: string, doc: Doc, rest: string) {
    && Blank(before) && Good(doc) && s == before + (Written(doc) + rest) && Halts(doc, Peek(rest, 0)) && Meant(doc) == v
  }

  ghost predicate CutBy(s: string, v: Value, before: string, w: string) {
    Blank(before) && s == before + w && CutShort(w, v)
  }

  /**
  What the parser makes of any text at all: it gives a value exactly when the
  text begins, after white space, with a document that means this value, or ends
  in the middle of a name. What follows the document is not looked at.
  */
  lemma ParsesIff(s: string, v: Value)
    ensures Parse(s) == Ok(v) <==>
              || (exists before, doc, rest :: SpelledBy(s, v, before, doc, rest))
              || (exists before, w :: CutBy(s, v, before, w))
  {
    if before, doc, rest :| SpelledBy(s, v, before, doc, rest) {
      SpelledParses(s, v, before, doc, rest);
    }
    if before, w :| CutBy(s, v, before, w) {
      CutParses(s, v, before, w);
    }
    if Parse(s) == Ok(v) {
      ParsedIsSpelled(s, v);
    }
  }

  lemma SpelledParses(s: string, v: Value, before: string, doc: Doc, rest: string)
    requires SpelledBy(s, v, before, doc, rest)
    ensures Parse(s) == Ok(v)
  {
    hide At, Written, Good, Blank, Meant, ReadValue, Halts;
    WholeIsAt(s);
    AtSplit(s, 0, before, Written(doc) + rest);
    AtSplit(s, |before|, Written(doc), rest);
    assert Peek(rest, 0) == Peek(s, |before| + |Written(doc)|);
    DocBegins(s, |before|, doc);
    BlankIsSkipped(s, 0, before);
    DocReads(s, |before|, doc);
    ValueFromBlank(s, 0);
  }

  lemma ValueFromBlank(t: string, i: nat)
    ensures ReadValue(t, SkipSpace(t, i)) == ReadValue(t, i)
  {
    SkipTwice(t, i);
  }

  lemma CutParses(s: string, v: Value, before: string, w: string)
    requires CutBy(s, v, before, w)
    ensures Parse(s) == Ok(v)
  {
    WholeIsAt(s);
    AtSplit(s, 0, before, w);
    AtChar(s, |before|, w, 0);
    BlankIsSkipped(s, 0, before);
  }

  lemma ParsedIsSpelled(s: string, v: Value)
    requires Parse(s) == Ok(v)
    ensures (exists before, doc, rest :: SpelledBy(s, v, before, doc, rest)) ||
            (exists before, w :: CutBy(s, v, before, w))
  {
    hide ReadValue, SpelledBy, CutBy;
    if ReadValue(s, 0).next <= |s| {
      var before, doc, rest := ReadIsSpelled(s, v);
    } else {
      var before, w := ReadIsCut(s, v);
    }
  }

  lemma ReadIsSpelled(s: string, v: Value) returns (before: string, doc: Doc, rest: string)
    requires Parse(s) == Ok(v) && ReadValue(s, 0).next <= |s|
    ensures SpelledBy(s, v, before, doc, rest)
  {
    hide Written, Meant, ReadValue, At, Good, Halts, Blank;
    before, doc := ValueIsWritten(s, 0);
    var end := |before| + |Written(doc)|;
    rest := s[end..];
    SplitAt(s, before, Written(doc));
    DocReads(s, |before|, doc);
    ValueFromBlank(s, 0);
  }

  lemma SplitAt(s: string, a: string, b: string)
    requires At(s, 0, a) && At(s, |a|, b)
    ensures |a| + |b| <= |s| && s == a + (b + s[|a| + |b|..]) && Peek(s[|a| + |b|..], 0) == Peek(s, |a| + |b|)
  {}

  lemma ReadIsCut(s: string, v: Value) returns (before: string, w: string)
    requires Parse(s) == Ok(v) && ReadValue(s, 0).next > |s|
    ensures CutBy(s, v, before, w)
  {
    hide ReadChars, ReadNumber, ReadItems, ReadEntries, ReadString, Blank;
    before := BlankHere(s, 0);
    NamesAlone(s);
    w := s[|before|..];
    assert s == before + w;
  }

  lemma NamesAlone(s: string)
    requires ReadValue(s, 0).Got? && ReadValue(s, 0).next > |s|
    ensures var at := SkipSpace(s, 0);
            at < |s| && Peek(s, at) in ['t', 'f', 'n'] && ReadValue(s, 0).next == at + if s[at] == 'f' then 5 else 4
  {
    hide ReadChars, ReadNumber, ReadItems, ReadEntries;
    var at := SkipSpace(s, 0);
    var c := Peek(s, at);
    if c == '"' {
      var ps := TextIsWritten(s, at);
    } else if c == '{' {
      var blank, ms := RecordIsWritten(s, at);
    } else if c == '[' {
      var blank, items := ListIsWritten(s, at);
    } else if c == '-' || Decimal.IsDigit(c) {
      var doc := FigureIsWritten(s, at);
    }
  }

  // ---- standard texts ---------------------------------------------------------------------------

  /** White space of section 2 of RFC 8259. */
  ghost predicate Gap(s: string) {
    forall i | 0 <= i < |s| :: s[i] == ' ' || s[i] == '\t' || s[i] == '\n' || s[i] == '\r'
  }

  /** Characters of section 7, all but the escapes by code unit. */
  ghost predicate StandardPieces(ps: seq<Piece>) {
    forall i | 0 <= i < |ps| ::
      match ps[i]
      case Plain(c) => c >= ' ' && c != '"' && c != '\\'
      case Escaped(c) => c in ['"', '\\', '/', 'b', 'f', 'n', 'r', 't']
  }

  /** Numbers of section 6. */
  ghost predicate StandardFigure(whole: string, fraction: Option<string>, power: Option<Power>) {
    && Digits(whole) && whole != "" && (whole[0] == '0' ==> whole == "0")
    && (fraction.Some? ==> Digits(fraction.value) && fraction.value != "")
    && (power.Some? ==> GoodPower(power.value) && power.value.digits != "")
  }

  /** A value of section 3. */
  ghost predicate Standard(doc: Doc) {
    match doc
    case Name(letters) => letters == "true" || letters == "false" || letters == "null"
    case Figure(_, whole, fraction, power) => StandardFigure(whole, fraction, power)
    case Quoted(pieces) => StandardPieces(pieces)
    case List(blank, items) => Gap(blank) && forall i | 0 <= i < |items| :: StandardItem(items[i])
    case Record(blank, members) =>
      && Gap(blank)
      && forall i | 0 <= i < |members| ::
           && Gap(members[i].before) && StandardPieces(members[i].key) && Gap(members[i].middle)
           && StandardItem(members[i].item)
  }

  ghost predicate StandardItem(item: Item) { Gap(item.before) && Standard(item.doc) && Gap(item.after) }

  lemma {:induction false} StandardIsGood(doc: Doc)
    requires Standard(doc)
    ensures Good(doc)
    decreases doc
  {
    match doc
    case Name(_) =>
    case Figure(_, _, _, _) =>
    case Quoted(pieces) => StandardPiecesAreGood(pieces);
    case List(blank, items) =>
      forall i | 0 <= i < |items| ensures GoodItem(items[i]) {
        assert StandardItem(items[i]);
        StandardIsGood(items[i].doc);
      }
    case Record(blank, members) =>
      forall i | 0 <= i < |members| ensures GoodMember(members[i]) {
        assert StandardItem(members[i].item);
        StandardIsGood(members[i].item.doc);
        StandardPiecesAreGood(members[i].key);
      }
  }

  lemma StandardPiecesAreGood(ps: seq<Piece>)
    requires StandardPieces(ps)
    ensures GoodPieces(ps)
  {
    forall i | 0 <= i < |ps| && ps[i].Plain? ensures ps[i].c != '"' && ps[i].c != '\\' {
      assert match ps[i] case Plain(c) => c >= ' ' && c != '"' && c != '\\' case Escaped(c) => true;
    }
  }

  /** Every text of RFC 8259 without escapes by code unit parses to what it means. */
  lemma StandardParses(before: string, doc: Doc, after: string)
    requires Gap(before) && Standard(doc) && Gap(after)
    ensures Good(doc) && Parse(before + (Written(doc) + after)) == Ok(Meant(doc))
  {
    hide Written, Standard, Good, Meant, ReadValue;
    StandardIsGood(doc);
    assert SpelledBy(before + (Written(doc) + after), Meant(doc), before, doc, after);
    SpelledParses(before + (Written(doc) + after), Meant(doc), before, doc, after);
  }
}
