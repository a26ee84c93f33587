/** The normal form of filter expressions that is hashed into pagination cursors. */
module FilterNormalForm {
  import opened Seqs
  import opened Strings
  import opened Decimals

  datatype CompareOperator = Eq | Ne | Gt | Ge | Lt | Le

  datatype Value =
    | Null
    | Bool(b: bool)
    | Number(n: Decimal)
    | Uuid(u: nat)
    | DateTime(dt: int)
    | Date(d: int)
    | Time(t: nat)
    | String(s: string)

  datatype Expr =
    | And(left: Expr, right: Expr)
    | Or(left: Expr, right: Expr)
    | Not(inner: Expr)
    | Compare(lhs: Expr, op: CompareOperator, rhs: Expr)
    | In(subject: Expr, list: seq<Expr>)
    | Function(fn: string, args: seq<Expr>)
    | Identifier(name: string)
    | Value(value: Value)

  /** How the libraries print: lower-casing, and the text of each kind of library value. */
  datatype Printer = Printer(
    lower: string -> string, number: Decimal -> string, uuid: nat -> string,
    dateTime: int -> string, date: int -> string, time: nat -> string)
  {
    /**
     * Distinct values have distinct texts; of decimals only normalised ones are printed, and only for those is it
     * asked.
     */
    ghost predicate Faithful() {
      && (forall a, b :: number(Normalized(a)) == number(Normalized(b)) ==> Normalized(a) == Normalized(b))
      && (forall a, b :: uuid(a) == uuid(b) ==> a == b)
      && (forall a, b :: dateTime(a) == dateTime(b) ==> a == b)
      && (forall a, b :: date(a) == date(b) ==> a == b)
      && (forall a, b :: time(a) == time(b) ==> a == b)
    }
  }

  function OperatorText(op: CompareOperator): string {
    match op
    case Eq => "EQ"
    case Ne => "NE"
    case Gt => "GT"
    case Ge => "GE"
    case Lt => "LT"
    case Le => "LE"
  }

  function Tag(e: Expr): string {
    match e
    case And(_, _) => "AND"
    case Or(_, _) => "OR"
    case Not(_) => "NOT"
    case Compare(_, _, _) => "CMP"
    case In(_, _) => "IN"
    case Function(_, _) => "FN"
    case Identifier(_) => "ID"
    case Value(v) =>
      match v
      case Null => "NULL"
      case Bool(_) => "BOOL"
      case Number(_) => "NUM"
      case Uuid(_) => "UUID"
      case DateTime(_) => "DATETIME"
      case Date(_) => "DATE"
      case Time(_) => "TIME"
      case String(_) => "STR"
  }

  /** The text of a value other than null. */
  function ValueText(p: Printer, v: Value): string {
    match v
    case Null => ""
    case Bool(b) => if b then "true" else "false"
    case Number(n) => p.number(Normalized(n))
    case Uuid(u) => p.uuid(u)
    case DateTime(dt) => p.dateTime(dt)
    case Date(d) => p.date(d)
    case Time(t) => p.time(t)
    case String(s) => s
  }

  function Normalize(p: Printer, e: Expr): string
    decreases e, 1
  {
    Tag(e) + Body(p, e)
  }

  function Body(p: Printer, e: Expr): string
    decreases e, 0
  {
    match e
    case And(l, r) => "(" + (Normalize(p, l) + ("," + (Normalize(p, r) + ")")))
    case Or(l, r) => "(" + (Normalize(p, l) + ("," + (Normalize(p, r) + ")")))
    case Not(x) => "(" + (Normalize(p, x) + ")")
    case Compare(l, op, r) => "(" + (Normalize(p, l) + ("," + (OperatorText(op) + ("," + (Normalize(p, r) + ")")))))
    case In(x, list) => "(" + (Normalize(p, x) + ("," + (NormalizeList(p, list) + ")")))
    case Function(fn, args) => "(" + (p.lower(fn) + ("," + (NormalizeList(p, args) + ")")))
    case Identifier(name) => "(" + (p.lower(name) + ")")
    case Value(v) => if v.Null? then "" else "(" + (ValueText(p, v) + ")")
  }

  /** The normal forms joined with commas. */
  function NormalizeList(p: Printer, list: seq<Expr>): string
    decreases list
  {
    if list == [] then "" else Normalize(p, list[0]) + JoinTail(p, list[1..])
  }

  function JoinTail(p: Printer, list: seq<Expr>): string
    decreases list
  {
    if list == [] then "" else "," + (Normalize(p, list[0]) + JoinTail(p, list[1..]))
  }

  /** The form of each operator, as in the source. */
  lemma OperatorForms()
    ensures OperatorText(Eq) == "EQ" && OperatorText(Ne) == "NE" && OperatorText(Gt) == "GT"
    ensures OperatorText(Ge) == "GE" && OperatorText(Lt) == "LT" && OperatorText(Le) == "LE"
  {
  }

  /** The form of each compound expression, given the forms of its parts. */
  lemma LogicalForms(p: Printer, l: Expr, r: Expr)
    ensures Normalize(p, And(l, r)) == "AND" + ("(" + (Normalize(p, l) + ("," + (Normalize(p, r) + ")"))))
    ensures Normalize(p, Or(l, r)) == "OR" + ("(" + (Normalize(p, l) + ("," + (Normalize(p, r) + ")"))))
    ensures Normalize(p, Not(l)) == "NOT" + ("(" + (Normalize(p, l) + ")"))
  {
  }

  lemma CompareForm(p: Printer, l: Expr, op: CompareOperator, r: Expr)
    ensures Normalize(p, Compare(l, op, r)) ==
            "CMP" + ("(" + (Normalize(p, l) + ("," + (OperatorText(op) + ("," + (Normalize(p, r) + ")"))))))
  {
  }

  lemma ListedForms(p: Printer, e: Expr, name: string, list: seq<Expr>)
    ensures Normalize(p, In(e, list)) == "IN" + ("(" + (Normalize(p, e) + ("," + (NormalizeList(p, list) + ")"))))
    ensures Normalize(p, Function(name, list)) == "FN" + ("(" + (p.lower(name) + ("," + (NormalizeList(p, list) + ")"))))
    ensures Normalize(p, Identifier(name)) == "ID" + ("(" + (p.lower(name) + ")"))
  {
  }

  lemma ValueForms(p: Printer, b: bool, n: Decimal, u: nat, t: int, d: int, h: nat, s: string)
    ensures Normalize(p, Value(Bool(b))) == "BOOL" + ("(" + ((if b then "true" else "false") + ")"))
    ensures Normalize(p, Value(Number(n))) == "NUM" + ("(" + (p.number(Normalized(n)) + ")"))
    ensures Normalize(p, Value(Uuid(u))) == "UUID" + ("(" + (p.uuid(u) + ")"))
    ensures Normalize(p, Value(DateTime(t))) == "DATETIME" + ("(" + (p.dateTime(t) + ")"))
    ensures Normalize(p, Value(Date(d))) == "DATE" + ("(" + (p.date(d) + ")"))
    ensures Normalize(p, Value(Time(h))) == "TIME" + ("(" + (p.time(h) + ")"))
    ensures Normalize(p, Value(String(s))) == "STR" + ("(" + (s + ")"))
  {
  }

  lemma NullForm(p: Printer)
    ensures Normalize(p, Value(Null)) == "NULL"
  {
  }

  /** The forms of a list are joined with commas. */
  lemma {:induction false} ListForms(p: Printer, list: seq<Expr>)
    ensures NormalizeList(p, list) == Join(Forms(p, list), ',')
    ensures list != [] ==> JoinTail(p, list) == [','] + Join(Forms(p, list), ',')
  {
    if list != [] {
      ListForms(p, list[1..]);
      assert Forms(p, list)[1..] == Forms(p, list[1..]);
      if |list| == 1 { assert Normalize(p, list[0]) + "" == Normalize(p, list[0]); }
    }
  }

  function Forms(p: Printer, list: seq<Expr>): seq<string> {
    seq(|list|, i requires 0 <= i < |list| => Normalize(p, list[i]))
  }

  // ---- What the normal form is meant to identify ----

  ghost predicate SameValueUpToNumber(a: Value, b: Value) {
    a == b || (a.Number? && b.Number? && SameNumber(a.n, b.n))
  }

  /** Equal up to the case of identifiers and function names and up to numeric normalisation. */
  ghost predicate Equivalent(p: Printer, a: Expr, b: Expr)
    decreases a
  {
    match (a, b)
    case (And(l, r), And(l', r')) => Equivalent(p, l, l') && Equivalent(p, r, r')
    case (Or(l, r), Or(l', r')) => Equivalent(p, l, l') && Equivalent(p, r, r')
    case (Not(x), Not(x')) => Equivalent(p, x, x')
    case (Compare(l, op, r), Compare(l', op', r')) => op == op' && Equivalent(p, l, l') && Equivalent(p, r, r')
    case (In(x, list), In(x', list')) => Equivalent(p, x, x') && EquivalentLists(p, list, list')
    case (Function(fn, args), Function(fn', args')) => p.lower(fn) == p.lower(fn') && EquivalentLists(p, args, args')
    case (Identifier(n), Identifier(n')) => p.lower(n) == p.lower(n')
    case (Value(v), Value(v')) => SameValueUpToNumber(v, v')
    case _ => false
  }

  ghost predicate EquivalentLists(p: Printer, a: seq<Expr>, b: seq<Expr>)
    decreases a
  {
    && |a| == |b|
    && (a != [] ==> Equivalent(p, a[0], b[0]) && EquivalentLists(p, a[1..], b[1..]))
  }

  // ---- Delimiters ----

  predicate Delimiter(c: char) { c == '(' || c == ')' || c == ',' }

  ghost predicate DelimiterFree(s: string) { forall i :: 0 <= i < |s| ==> !Delimiter(s[i]) }

  ghost predicate Delimited(s: string) { s == "" || Delimiter(s[0]) }

  predicate Upper(c: char) { 'A' <= c <= 'Z' }

  ghost predicate NoUpper(s: string) { forall i :: 0 <= i < |s| ==> !Upper(s[i]) }

  /**
   * Where the name of a function ends can be seen: it has no comma; or no closing parenthesis and, being in lower case,
   * no letter with which a normal form begins.
   */
  ghost predicate NameEndsClearly(name: string) { Free(name, ',') || (Free(name, ')') && NoUpper(name)) }

  /** Identifiers and rendered values contain no closing parenthesis, and function names end clearly. */
  ghost predicate Plain(p: Printer, e: Expr)
    decreases e
  {
    match e
    case And(l, r) => Plain(p, l) && Plain(p, r)
    case Or(l, r) => Plain(p, l) && Plain(p, r)
    case Not(x) => Plain(p, x)
    case Compare(l, _, r) => Plain(p, l) && Plain(p, r)
    case In(x, list) => Plain(p, x) && PlainList(p, list)
    case Function(fn, args) => NameEndsClearly(p.lower(fn)) && PlainList(p, args)
    case Identifier(name) => Free(p.lower(name), ')')
    case Value(v) => Free(ValueText(p, v), ')')
  }

  ghost predicate PlainList(p: Printer, list: seq<Expr>)
    decreases list
  {
    list != [] ==> Plain(p, list[0]) && PlainList(p, list[1..])
  }

  ghost function PlainPrefix(s: string): nat {
    if s == "" || Delimiter(s[0]) then 0 else 1 + PlainPrefix(s[1..])
  }

  lemma {:induction false} PlainPrefixLength(a: string, x: string)
    requires DelimiterFree(a) && Delimited(x)
    ensures PlainPrefix(a + x) == |a|
  {
    if a == "" {
      assert a + x == x;
    } else {
      assert (a + x)[1..] == a[1..] + x;
      PlainPrefixLength(a[1..], x);
    }
  }

  /** A delimiter-free prefix ends exactly where the first delimiter stands. */
  lemma SplitAtDelimiter(a: string, b: string, x: string, y: string)
    requires DelimiterFree(a) && DelimiterFree(b) && Delimited(x) && Delimited(y)
    requires a + x == b + y
    ensures a == b && x == y
  {
    PlainPrefixLength(a, x);
    PlainPrefixLength(b, y);
    assert a == (a + x)[..|a|] && b == (b + y)[..|b|];
    assert x == (a + x)[|a|..] && y == (b + y)[|b|..];
  }

  /** A prefix without the character `c` ends exactly where the first `c` stands. */
  lemma {:induction false} SplitAtChar(c: char, a: string, b: string, x: string, y: string)
    requires Free(a, c) && Free(b, c) && a + ([c] + x) == b + ([c] + y)
    ensures a == b && x == y
  {
    SplitFirst(a, x, c);
    SplitFirst(b, y, c);
    assert a == ([a] + Split(x, c))[0] && b == ([b] + Split(y, c))[0];
    assert x == (a + ([c] + x))[|a| + 1..] && y == (b + ([c] + y))[|b| + 1..];
  }

  lemma DropFirst(c: char, x: string, y: string)
    requires [c] + x == [c] + y
    ensures x == y
  {
    assert x == ([c] + x)[1..] && y == ([c] + y)[1..];
  }

  lemma TagIsPlain(p: Printer, e: Expr)
    ensures DelimiterFree(Tag(e)) && |Tag(e)| > 0 && Delimited(Body(p, e))
  {
  }

  lemma TagsSeparate(a: Expr, b: Expr)
    requires Tag(a) == Tag(b)
    ensures match (a, b)
            case (And(_, _), And(_, _)) => true
            case (Or(_, _), Or(_, _)) => true
            case (Not(_), Not(_)) => true
            case (Compare(_, _, _), Compare(_, _, _)) => true
            case (In(_, _), In(_, _)) => true
            case (Function(_, _), Function(_, _)) => true
            case (Identifier(_), Identifier(_)) => true
            case (Value(v), Value(w)) =>
              (v.Null? <==> w.Null?) && (v.Bool? <==> w.Bool?) && (v.Number? <==> w.Number?) && (v.Uuid? <==> w.Uuid?)
              && (v.DateTime? <==> w.DateTime?) && (v.Date? <==> w.Date?) && (v.Time? <==> w.Time?)
            case _ => false
  {
    assert |Tag(a)| == |Tag(b)| && Tag(a)[0] == Tag(b)[0] && Tag(a)[1] == Tag(b)[1];
  }

  lemma OperatorsSeparate(a: CompareOperator, b: CompareOperator)
    requires OperatorText(a) == OperatorText(b)
    ensures a == b
  {
    assert OperatorText(a)[0] == OperatorText(b)[0] && OperatorText(a)[1] == OperatorText(b)[1];
  }

  lemma ValuesSeparate(p: Printer, v: Value, w: Value)
    requires p.Faithful() && Tag(Value(v)) == Tag(Value(w)) && ValueText(p, v) == ValueText(p, w)
    ensures SameValueUpToNumber(v, w)
  {
    TagsSeparate(Value(v), Value(w));
    if v.Number? { NormalizedDecides(v.n, w.n); }
    if v.Bool? { assert |"true"| != |"false"|; }
  }

  lemma RegroupOne(m: string, x: string)
    ensures ("(" + (m + ")")) + x == ['('] + (m + ([')'] + x))
  {
  }

  /** `(m)` in front of anything determines `m` and what follows. */
  lemma ReadBackAtom(m: string, n: string, x: string, y: string)
    requires Free(m, ')') && Free(n, ')') && ("(" + (m + ")")) + x == ("(" + (n + ")")) + y
    ensures m == n && x == y
  {
    RegroupOne(m, x);
    RegroupOne(n, y);
    DropFirst('(', m + ([')'] + x), n + ([')'] + y));
    SplitAtChar(')', m, n, x, y);
  }

  lemma RegroupTwo(m: string, n: string, x: string)
    ensures (m + n) + x == m + (n + x)
  {
  }

  lemma RegroupTriple(m: string, op: string, n: string, x: string)
    ensures ("(" + (m + ("," + (op + ("," + (n + ")")))))) + x
         == ['('] + (m + ([','] + (op + ([','] + (n + ([')'] + x))))))
  {
    RegroupPair(m, op + ("," + n), x);
    assert op + ("," + (n + ")")) == (op + ("," + n)) + ")";
    assert (op + ("," + n)) + ([')'] + x) == op + ([','] + (n + ([')'] + x)));
  }

  lemma RegroupPair(m: string, n: string, x: string)
    ensures ("(" + (m + ("," + (n + ")")))) + x == ['('] + (m + ([','] + (n + ([')'] + x))))
  {
  }

  /** Unique readability: a normal form followed by a delimiter or nothing can be read in one way only. */
  lemma {:induction false} ReadBack(p: Printer, a: Expr, b: Expr, x: string, y: string)
    requires p.Faithful() && Plain(p, a) && Plain(p, b) && Delimited(x) && Delimited(y)
    requires Normalize(p, a) + x == Normalize(p, b) + y
    ensures Equivalent(p, a, b) && x == y
    decreases a, 2
  {
    TagIsPlain(p, a);
    TagIsPlain(p, b);
    RegroupTwo(Tag(a), Body(p, a), x);
    RegroupTwo(Tag(b), Body(p, b), y);
    SplitAtDelimiter(Tag(a), Tag(b), Body(p, a) + x, Body(p, b) + y);
    ReadBackBody(p, a, b, x, y);
  }

  lemma {:induction false} ReadBackBody(p: Printer, a: Expr, b: Expr, x: string, y: string)
    requires p.Faithful() && Plain(p, a) && Plain(p, b) && Delimited(x) && Delimited(y)
    requires Tag(a) == Tag(b) && Body(p, a) + x == Body(p, b) + y
    ensures Equivalent(p, a, b) && x == y
    decreases a, 1
  {
    TagsSeparate(a, b);
    match a
    case And(_, _) => ReadBackPair(p, a, b, x, y);
    case Or(_, _) => ReadBackPair(p, a, b, x, y);
    case Not(_) => ReadBackNot(p, a, b, x, y);
    case Compare(_, _, _) => ReadBackCompare(p, a, b, x, y);
    case In(_, _) => ReadBackIn(p, a, b, x, y);
    case Function(_, _) => ReadBackFunction(p, a, b, x, y);
    case Identifier(n) => ReadBackAtom(p.lower(n), p.lower(b.name), x, y);
    case Value(v) =>
      if v.Null? {
        assert Body(p, a) + x == x && Body(p, b) + y == y;
      } else {
        ReadBackAtom(ValueText(p, v), ValueText(p, b.value), x, y);
        ValuesSeparate(p, v, b.value);
      }
  }

  lemma {:induction false} ReadBackPair(p: Printer, a: Expr, b: Expr, x: string, y: string)
    requires p.Faithful() && Plain(p, a) && Plain(p, b) && ((a.And? && b.And?) || (a.Or? && b.Or?))
    requires Body(p, a) + x == Body(p, b) + y
    ensures Equivalent(p, a, b) && x == y
    decreases a, 0
  {
    var m, n := Normalize(p, a.right), Normalize(p, b.right);
    RegroupPair(Normalize(p, a.left), m, x);
    RegroupPair(Normalize(p, b.left), n, y);
    DropFirst('(', Normalize(p, a.left) + ([','] + (m + ([')'] + x))), Normalize(p, b.left) + ([','] + (n + ([')'] + y))));
    ReadBack(p, a.left, b.left, [','] + (m + ([')'] + x)), [','] + (n + ([')'] + y)));
    DropFirst(',', m + ([')'] + x), n + ([')'] + y));
    ReadBack(p, a.right, b.right, [')'] + x, [')'] + y);
    DropFirst(')', x, y);
  }

  lemma {:induction false} ReadBackNot(p: Printer, a: Expr, b: Expr, x: string, y: string)
    requires p.Faithful() && Plain(p, a) && Plain(p, b) && a.Not? && b.Not?
    requires Body(p, a) + x == Body(p, b) + y
    ensures Equivalent(p, a, b) && x == y
    decreases a, 0
  {
    var m, n := Normalize(p, a.inner), Normalize(p, b.inner);
    RegroupOne(m, x);
    RegroupOne(n, y);
    DropFirst('(', m + ([')'] + x), n + ([')'] + y));
    ReadBack(p, a.inner, b.inner, [')'] + x, [')'] + y);
    DropFirst(')', x, y);
  }

  lemma {:induction false} ReadBackCompare(p: Printer, a: Expr, b: Expr, x: string, y: string)
    requires p.Faithful() && Plain(p, a) && Plain(p, b) && a.Compare? && b.Compare?
    requires Body(p, a) + x == Body(p, b) + y
    ensures Equivalent(p, a, b) && x == y
    decreases a, 0
  {
    var m, n := Normalize(p, a.rhs) + ([')'] + x), Normalize(p, b.rhs) + ([')'] + y);
    var s, t := OperatorText(a.op) + ([','] + m), OperatorText(b.op) + ([','] + n);
    RegroupTriple(Normalize(p, a.lhs), OperatorText(a.op), Normalize(p, a.rhs), x);
    RegroupTriple(Normalize(p, b.lhs), OperatorText(b.op), Normalize(p, b.rhs), y);
    DropFirst('(', Normalize(p, a.lhs) + ([','] + s), Normalize(p, b.lhs) + ([','] + t));
    ReadBack(p, a.lhs, b.lhs, [','] + s, [','] + t);
    DropFirst(',', s, t);
    ReadBackOperator(a.op, b.op, m, n);
    ReadBack(p, a.rhs, b.rhs, [')'] + x, [')'] + y);
    DropFirst(')', x, y);
  }

  lemma ReadBackOperator(a: CompareOperator, b: CompareOperator, m: string, n: string)
    requires OperatorText(a) + ([','] + m) == OperatorText(b) + ([','] + n)
    ensures a == b && m == n
  {
    SplitAtDelimiter(OperatorText(a), OperatorText(b), [','] + m, [','] + n);
    OperatorsSeparate(a, b);
    DropFirst(',', m, n);
  }

  lemma {:induction false} ReadBackIn(p: Printer, a: Expr, b: Expr, x: string, y: string)
    requires p.Faithful() && Plain(p, a) && Plain(p, b) && a.In? && b.In?
    requires Body(p, a) + x == Body(p, b) + y
    ensures Equivalent(p, a, b) && x == y
    decreases a, 0
  {
    var m, n := NormalizeList(p, a.list), NormalizeList(p, b.list);
    RegroupPair(Normalize(p, a.subject), m, x);
    RegroupPair(Normalize(p, b.subject), n, y);
    DropFirst('(', Normalize(p, a.subject) + ([','] + (m + ([')'] + x))), Normalize(p, b.subject) + ([','] + (n + ([')'] + y))));
    ReadBack(p, a.subject, b.subject, [','] + (m + ([')'] + x)), [','] + (n + ([')'] + y)));
    DropFirst(',', m + ([')'] + x), n + ([')'] + y));
    ReadBackList(p, a.list, b.list, x, y);
  }

  lemma {:induction false} ReadBackFunction(p: Printer, a: Expr, b: Expr, x: string, y: string)
    requires p.Faithful() && Plain(p, a) && Plain(p, b) && a.Function? && b.Function?
    requires Body(p, a) + x == Body(p, b) + y
    ensures Equivalent(p, a, b) && x == y
    decreases a, 0
  {
    var m, n := NormalizeList(p, a.args) + ([')'] + x), NormalizeList(p, b.args) + ([')'] + y);
    RegroupPair(p.lower(a.fn), NormalizeList(p, a.args), x);
    RegroupPair(p.lower(b.fn), NormalizeList(p, b.args), y);
    DropFirst('(', p.lower(a.fn) + ([','] + m), p.lower(b.fn) + ([','] + n));
    ListBegins(p, a.args, x);
    ListBegins(p, b.args, y);
    ReadBackName(p.lower(a.fn), p.lower(b.fn), m, n);
    ReadBackList(p, a.args, b.args, x, y);
  }

  /** A closed list begins with a capital letter or, if it is empty, with the closing parenthesis. */
  lemma ListBegins(p: Printer, list: seq<Expr>, x: string)
    ensures var m := NormalizeList(p, list) + ([')'] + x); m != "" && (Upper(m[0]) || m[0] == ')')
  {
    if list != [] {
      TagBegins(list[0]);
      assert NormalizeList(p, list)[0] == Tag(list[0])[0];
    }
  }

  lemma TagBegins(e: Expr)
    ensures |Tag(e)| > 0 && Upper(Tag(e)[0])
  {
  }

  /** A name that ends clearly is not continued: what follows its comma begins with no character of such a name. */
  lemma NameStops(a: string, b: string, m: string, n: string)
    requires NameEndsClearly(b) && a + ([','] + m) == b + ([','] + n)
    requires m != "" && (Upper(m[0]) || m[0] == ')')
    ensures |a| >= |b|
  {
    var s := a + ([','] + m);
    assert s[|a|] == ',' && s[|a| + 1] == m[0];
    assert s[|b|] == ',' && forall i :: 0 <= i < |b| ==> s[i] == b[i];
  }

  lemma ReadBackName(a: string, b: string, m: string, n: string)
    requires NameEndsClearly(a) && NameEndsClearly(b) && a + ([','] + m) == b + ([','] + n)
    requires m != "" && (Upper(m[0]) || m[0] == ')') && n != "" && (Upper(n[0]) || n[0] == ')')
    ensures a == b && m == n
  {
    NameStops(a, b, m, n);
    NameStops(b, a, n, m);
    var s := a + ([','] + m);
    assert a == s[..|a|] && b == s[..|b|] && m == s[|a| + 1..] && n == s[|b| + 1..];
  }

  /** A list, closed by a parenthesis, is read back element by element; an empty list is told from any other. */
  lemma {:induction false} ReadBackList(p: Printer, a: seq<Expr>, b: seq<Expr>, x: string, y: string)
    requires p.Faithful() && PlainList(p, a) && PlainList(p, b)
    requires NormalizeList(p, a) + ([')'] + x) == NormalizeList(p, b) + ([')'] + y)
    ensures EquivalentLists(p, a, b) && x == y
    decreases a, 1
  {
    EmptyListSeparates(p, a, b, x, y);
    if a == [] {
      assert NormalizeList(p, a) + ([')'] + x) == [')'] + x && NormalizeList(p, b) + ([')'] + y) == [')'] + y;
      DropFirst(')', x, y);
    } else {
      var m, n := JoinTail(p, a[1..]) + ([')'] + x), JoinTail(p, b[1..]) + ([')'] + y);
      assert NormalizeList(p, a) + ([')'] + x) == Normalize(p, a[0]) + m;
      assert NormalizeList(p, b) + ([')'] + y) == Normalize(p, b[0]) + n;
      ReadBack(p, a[0], b[0], m, n);
      ReadBackTail(p, a[1..], b[1..], x, y);
    }
  }

  lemma EmptyListSeparates(p: Printer, a: seq<Expr>, b: seq<Expr>, x: string, y: string)
    requires NormalizeList(p, a) + ([')'] + x) == NormalizeList(p, b) + ([')'] + y)
    ensures a == [] <==> b == []
  {
    ListStart(p, a, x);
    ListStart(p, b, y);
  }

  lemma ListStart(p: Printer, a: seq<Expr>, x: string)
    ensures |NormalizeList(p, a) + ([')'] + x)| > 0
    ensures (NormalizeList(p, a) + ([')'] + x))[0] == ')' <==> a == []
  {
    if a != [] {
      TagIsPlain(p, a[0]);
      RegroupTwo(Tag(a[0]), Body(p, a[0]), JoinTail(p, a[1..]));
      RegroupTwo(Tag(a[0]), Body(p, a[0]) + JoinTail(p, a[1..]), [')'] + x);
      assert !Delimiter(Tag(a[0])[0]);
    }
  }

  lemma {:induction false} ReadBackTail(p: Printer, a: seq<Expr>, b: seq<Expr>, x: string, y: string)
    requires p.Faithful() && PlainList(p, a) && PlainList(p, b)
    requires JoinTail(p, a) + ([')'] + x) == JoinTail(p, b) + ([')'] + y)
    ensures EquivalentLists(p, a, b) && x == y
    decreases a, 0
  {
    TailStart(p, a, x);
    TailStart(p, b, y);
    if a == [] {
      assert JoinTail(p, a) + ([')'] + x) == [')'] + x && JoinTail(p, b) + ([')'] + y) == [')'] + y;
      DropFirst(')', x, y);
    } else {
      var m, n := JoinTail(p, a[1..]) + ([')'] + x), JoinTail(p, b[1..]) + ([')'] + y);
      assert JoinTail(p, a) + ([')'] + x) == [','] + (Normalize(p, a[0]) + m);
      assert JoinTail(p, b) + ([')'] + y) == [','] + (Normalize(p, b[0]) + n);
      DropFirst(',', Normalize(p, a[0]) + m, Normalize(p, b[0]) + n);
      TailStart(p, a[1..], x);
      TailStart(p, b[1..], y);
      ReadBack(p, a[0], b[0], m, n);
      ReadBackTail(p, a[1..], b[1..], x, y);
    }
  }

  lemma TailStart(p: Printer, a: seq<Expr>, x: string)
    ensures Delimited(JoinTail(p, a) + ([')'] + x))
    ensures |JoinTail(p, a) + ([')'] + x)| > 0
    ensures (JoinTail(p, a) + ([')'] + x))[0] == ')' <==> a == []
  {
  }

  lemma {:induction false} EquivalentSameForm(p: Printer, a: Expr, b: Expr)
    requires Equivalent(p, a, b)
    ensures Normalize(p, a) == Normalize(p, b)
    decreases a
  {
    match a
    case And(l, r) => EquivalentSameForm(p, l, b.left); EquivalentSameForm(p, r, b.right);
    case Or(l, r) => EquivalentSameForm(p, l, b.left); EquivalentSameForm(p, r, b.right);
    case Not(i) => EquivalentSameForm(p, i, b.inner);
    case Compare(l, _, r) => EquivalentSameForm(p, l, b.lhs); EquivalentSameForm(p, r, b.rhs);
    case In(s, list) => EquivalentSameForm(p, s, b.subject); EquivalentSameList(p, list, b.list);
    case Function(_, args) => EquivalentSameList(p, args, b.args);
    case Identifier(_) =>
    case Value(v) => if v.Number? { NormalizedDecides(v.n, b.value.n); }
  }

  lemma {:induction false} EquivalentSameList(p: Printer, a: seq<Expr>, b: seq<Expr>)
    requires EquivalentLists(p, a, b)
    ensures NormalizeList(p, a) == NormalizeList(p, b) && JoinTail(p, a) == JoinTail(p, b)
    decreases a
  {
    if a != [] {
      EquivalentSameForm(p, a[0], b[0]);
      EquivalentSameList(p, a[1..], b[1..]);
    }
  }

  /** The normal form identifies exactly the equivalent filters. */
  lemma NormalFormFaithful(p: Printer, a: Expr, b: Expr)
    requires p.Faithful() && Plain(p, a) && Plain(p, b)
    ensures Normalize(p, a) == Normalize(p, b) <==> Equivalent(p, a, b)
  {
    if Normalize(p, a) == Normalize(p, b) {
      ReadBack(p, a, b, "", "");
    }
    if Equivalent(p, a, b) { EquivalentSameForm(p, a, b); }
  }

  /** Without the premise it fails: a string value that imitates a list has the normal form of that list. */
  lemma ParenthesesCollide(p: Printer)
    ensures var x := Identifier("x");
            var two := In(x, [Value(String("a")), Value(String("b"))]);
            var one := In(x, [Value(String("a),STR(b"))]);
            Normalize(p, two) == Normalize(p, one) && !Equivalent(p, two, one)
  {
    var l2 := [Value(String("a")), Value(String("b"))];
    var l1 := [Value(String("a),STR(b"))];
    assert l2[1..] == [Value(String("b"))] && l1[1..] == [];
    assert l2[1..][1..] == [];
    assert NormalizeList(p, l2) == "STR(a),STR(b)";
    assert NormalizeList(p, l1) == "STR(a),STR(b)";
  }

  // ---- How far the premise can be relaxed ----

  /** Which characters may occur in string values, in lower-cased identifiers and in lower-cased function names. */
  datatype Charset = Charset(inString: char -> bool, inIdentifier: char -> bool, inFunction: char -> bool) {
    /** A closing parenthesis only in function names, and there not together with a comma. */
    ghost predicate Safe() {
      !inString(')') && !inIdentifier(')') && !(inFunction(',') && inFunction(')'))
    }
  }

  ghost predicate All(ok: char -> bool, s: string) { forall i :: 0 <= i < |s| ==> ok(s[i]) }

  /** The filter is written with these characters; other values than strings have no closing parenthesis. */
  ghost predicate Drawn(p: Printer, cs: Charset, e: Expr)
    decreases e
  {
    match e
    case And(l, r) => Drawn(p, cs, l) && Drawn(p, cs, r)
    case Or(l, r) => Drawn(p, cs, l) && Drawn(p, cs, r)
    case Not(x) => Drawn(p, cs, x)
    case Compare(l, _, r) => Drawn(p, cs, l) && Drawn(p, cs, r)
    case In(x, list) => Drawn(p, cs, x) && DrawnList(p, cs, list)
    case Function(fn, args) => All(cs.inFunction, p.lower(fn)) && DrawnList(p, cs, args)
    case Identifier(name) => All(cs.inIdentifier, p.lower(name))
    case Value(v) => if v.String? then All(cs.inString, v.s) else Free(ValueText(p, v), ')')
  }

  ghost predicate DrawnList(p: Printer, cs: Charset, list: seq<Expr>)
    decreases list
  {
    list != [] ==> Drawn(p, cs, list[0]) && DrawnList(p, cs, list[1..])
  }

  ghost predicate OnlyDelimiters(s: string) { forall i :: 0 <= i < |s| ==> Delimiter(s[i]) }

  /** Lower-casing leaves no capital letter and does not touch parentheses and commas. */
  ghost predicate LowersCase(p: Printer) {
    (forall s :: NoUpper(p.lower(s))) && (forall s :: OnlyDelimiters(s) ==> p.lower(s) == s)
  }

  lemma AllIsFree(ok: char -> bool, s: string, c: char)
    requires All(ok, s) && !ok(c)
    ensures Free(s, c)
  {
  }

  lemma {:induction false} SafeIsPlain(p: Printer, cs: Charset, e: Expr)
    requires LowersCase(p) && cs.Safe() && Drawn(p, cs, e)
    ensures Plain(p, e)
    decreases e
  {
    match e
    case And(l, r) => SafeIsPlain(p, cs, l); SafeIsPlain(p, cs, r);
    case Or(l, r) => SafeIsPlain(p, cs, l); SafeIsPlain(p, cs, r);
    case Not(x) => SafeIsPlain(p, cs, x);
    case Compare(l, _, r) => SafeIsPlain(p, cs, l); SafeIsPlain(p, cs, r);
    case In(x, list) => SafeIsPlain(p, cs, x); SafeListIsPlain(p, cs, list);
    case Function(fn, args) =>
      SafeListIsPlain(p, cs, args);
      AllIsFree(cs.inFunction, p.lower(fn), if cs.inFunction(',') then ')' else ',');
    case Identifier(name) => AllIsFree(cs.inIdentifier, p.lower(name), ')');
    case Value(v) => if v.String? { AllIsFree(cs.inString, v.s, ')'); }
  }

  lemma {:induction false} SafeListIsPlain(p: Printer, cs: Charset, list: seq<Expr>)
    requires LowersCase(p) && cs.Safe() && DrawnList(p, cs, list)
    ensures PlainList(p, list)
    decreases list
  {
    if list != [] {
      SafeIsPlain(p, cs, list[0]);
      SafeListIsPlain(p, cs, list[1..]);
    }
  }

  const NoValue: Expr := Value(Null)

  lemma LastInList(p: Printer, a: Expr)
    ensures JoinTail(p, [a]) == "," + Normalize(p, a)
  {
    assert [a][1..] == [] && JoinTail(p, []) == "";
    assert Normalize(p, a) + "" == Normalize(p, a);
  }

  lemma TwoInList(p: Printer, a: Expr, b: Expr)
    ensures NormalizeList(p, [a, b]) == Normalize(p, a) + ("," + Normalize(p, b))
  {
    assert [a, b][1..] == [b];
    LastInList(p, b);
  }

  lemma OneInList(p: Printer, a: Expr)
    ensures NormalizeList(p, [a]) == Normalize(p, a)
  {
    assert [a][1..] == [];
  }

  /** Lists of lists that differ in where the inner list ends. */
  ghost function Outside(list: seq<Expr>, b: Expr): Expr { In(NoValue, [In(NoValue, list), b]) }
  ghost function Inside(list: seq<Expr>): Expr { In(NoValue, [In(NoValue, list)]) }

  const Head: string := "IN" + ("(" + ("NULL" + ","))

  lemma Reassociate(a: string, b: string, c: string, d: string, x: string)
    ensures a + (b + (c + (d + x))) == (a + (b + (c + d))) + x
  {
  }

  lemma ListText(p: Printer, list: seq<Expr>)
    ensures Normalize(p, In(NoValue, list)) == Head + (NormalizeList(p, list) + [')'])
  {
    NullForm(p);
    ListedForms(p, NoValue, "", list);
    Reassociate("IN", "(", "NULL", ",", NormalizeList(p, list) + ")");
  }

  lemma OutsideText(p: Printer, list: seq<Expr>, b: Expr)
    ensures Normalize(p, Outside(list, b)) ==
            Head + (((Head + (NormalizeList(p, list) + [')'])) + ([','] + Normalize(p, b))) + [')'])
  {
    ListText(p, list);
    TwoInList(p, In(NoValue, list), b);
    ListText(p, [In(NoValue, list), b]);
  }

  lemma InsideText(p: Printer, list: seq<Expr>)
    ensures Normalize(p, Inside(list)) == Head + ((Head + (NormalizeList(p, list) + [')'])) + [')'])
  {
    ListText(p, list);
    OneInList(p, In(NoValue, list));
    ListText(p, [In(NoValue, list)]);
  }

  lemma CloseTwice(h: string, x: string)
    ensures ((h + (x + [')'])) + ([','] + (x + [')']))) + [')'] == (h + (((x + [')']) + ([','] + x)) + [')'])) + [')']
  {
  }

  /** If `b` reads like the whole list `x` and a closing parenthesis, it can stand before or behind the end of a list. */
  lemma EndsCollide(p: Printer, list: seq<Expr>, b: Expr, longer: seq<Expr>)
    requires Normalize(p, b) == NormalizeList(p, list) + [')']
    requires NormalizeList(p, longer) == Normalize(p, b) + ([','] + NormalizeList(p, list))
    ensures Normalize(p, Outside(list, b)) == Normalize(p, Inside(longer))
    ensures !Equivalent(p, Outside(list, b), Inside(longer))
  {
    OutsideText(p, list, b);
    InsideText(p, longer);
    CloseTwice(Head, NormalizeList(p, list));
  }

  /** Two atoms, one of them with a closing parenthesis more. */
  lemma AtomsCollide(p: Printer, bare: Expr, closing: Expr)
    requires Normalize(p, closing) == Normalize(p, bare) + [')']
    ensures Normalize(p, Outside([bare], closing)) == Normalize(p, Inside([closing, bare]))
    ensures !Equivalent(p, Outside([bare], closing), Inside([closing, bare]))
  {
    OneInList(p, bare);
    TwoInList(p, closing, bare);
    EndsCollide(p, [bare], closing, [closing, bare]);
  }

  lemma StringsCollide(p: Printer)
    ensures var bare, closing := Value(String("")), Value(String(")"));
            && Normalize(p, Outside([bare], closing)) == Normalize(p, Inside([closing, bare]))
            && !Equivalent(p, Outside([bare], closing), Inside([closing, bare]))
  {
    AtomsCollide(p, Value(String("")), Value(String(")")));
  }

  lemma IdentifiersCollide(p: Printer)
    requires LowersCase(p)
    ensures var bare, closing := Identifier(""), Identifier(")");
            && Normalize(p, Outside([bare], closing)) == Normalize(p, Inside([closing, bare]))
            && !Equivalent(p, Outside([bare], closing), Inside([closing, bare]))
  {
    assert OnlyDelimiters("") && OnlyDelimiters(")");
    AtomsCollide(p, Identifier(""), Identifier(")"));
  }

  ghost function Bare(): Expr { Function("", []) }
  ghost function Odd(arg: Expr): Expr { Function(",)", [arg]) }

  /** The function named `,)` looks like a call of the nameless function, closed, with a comma behind it. */
  lemma FunctionTexts(p: Printer)
    requires LowersCase(p)
    ensures Normalize(p, Bare()) == "FN(,)" && Normalize(p, Odd(NoValue)) == "FN(,),NULL)"
  {
    assert OnlyDelimiters("") && OnlyDelimiters(",)");
    OneInList(p, NoValue);
  }

  ghost function OddOutside(): Expr { Outside([Bare(), NoValue], Odd(NoValue)) }
  ghost function OddInside(): Expr { Inside([Odd(NoValue), Bare(), NoValue]) }

  lemma FunctionsCollide(p: Printer)
    requires LowersCase(p)
    ensures Normalize(p, OddOutside()) == Normalize(p, OddInside()) && !Equivalent(p, OddOutside(), OddInside())
  {
    FunctionTexts(p);
    TwoInList(p, Bare(), NoValue);
    assert Normalize(p, NoValue) == "NULL";
    var three := [Odd(NoValue), Bare(), NoValue];
    assert three[1..] == [Bare(), NoValue];
    assert JoinTail(p, three[1..]) == [','] + NormalizeList(p, three[1..]);
    EndsCollide(p, [Bare(), NoValue], Odd(NoValue), three);
  }

  /** The form identifies exactly the equivalent filters among those written with these characters. */
  ghost predicate FaithfulOn(p: Printer, cs: Charset) {
    forall a, b :: Drawn(p, cs, a) && Drawn(p, cs, b) ==> (Normalize(p, a) == Normalize(p, b) <==> Equivalent(p, a, b))
  }

  lemma DrawnTwo(p: Printer, cs: Charset, a: Expr, b: Expr)
    requires Drawn(p, cs, a) && Drawn(p, cs, b)
    ensures DrawnList(p, cs, [a]) && DrawnList(p, cs, [a, b])
  {
    assert [a][1..] == [] && [a, b][1..] == [b] && [b][1..] == [];
  }

  lemma DrawnIn(p: Printer, cs: Charset, list: seq<Expr>)
    requires DrawnList(p, cs, list)
    ensures Drawn(p, cs, NoValue) && Drawn(p, cs, In(NoValue, list))
  {
    assert ValueText(p, Null) == "";
  }

  lemma DrawnAround(p: Printer, cs: Charset, list: seq<Expr>, b: Expr)
    requires DrawnList(p, cs, list) && Drawn(p, cs, b)
    ensures Drawn(p, cs, Outside(list, b)) && Drawn(p, cs, Inside(list))
  {
    DrawnIn(p, cs, list);
    DrawnTwo(p, cs, In(NoValue, list), b);
    DrawnIn(p, cs, [In(NoValue, list)]);
    DrawnIn(p, cs, [In(NoValue, list), b]);
  }

  lemma AtomsDrawn(p: Printer, cs: Charset, bare: Expr, closing: Expr)
    requires Drawn(p, cs, bare) && Drawn(p, cs, closing)
    ensures Drawn(p, cs, Outside([bare], closing)) && Drawn(p, cs, Inside([closing, bare]))
  {
    DrawnTwo(p, cs, bare, closing);
    DrawnTwo(p, cs, closing, bare);
    DrawnAround(p, cs, [bare], closing);
    DrawnAround(p, cs, [closing, bare], bare);
  }

  lemma OddIsDrawn(p: Printer, cs: Charset)
    requires LowersCase(p) && cs.inFunction(',') && cs.inFunction(')')
    ensures Drawn(p, cs, OddOutside()) && Drawn(p, cs, OddInside())
  {
    assert OnlyDelimiters("") && OnlyDelimiters(",)");
    DrawnIn(p, cs, []);
    DrawnTwo(p, cs, NoValue, NoValue);
    assert Drawn(p, cs, Odd(NoValue)) && Drawn(p, cs, Bare());
    DrawnTwo(p, cs, Bare(), NoValue);
    DrawnAround(p, cs, [Bare(), NoValue], Odd(NoValue));
    var three := [Odd(NoValue), Bare(), NoValue];
    assert three[1..] == [Bare(), NoValue];
    DrawnAround(p, cs, three, NoValue);
  }

  /**
   * Exactly the safe character sets keep the normal form faithful: a closing parenthesis in a string value or an
   * identifier, or together with a comma in function names, lets two different filters collide; nothing else does.
   */
  lemma FaithfulIffSafe(p: Printer, cs: Charset)
    requires p.Faithful() && LowersCase(p)
    ensures FaithfulOn(p, cs) <==> cs.Safe()
  {
    if cs.Safe() {
      forall a, b | Drawn(p, cs, a) && Drawn(p, cs, b)
        ensures Normalize(p, a) == Normalize(p, b) <==> Equivalent(p, a, b)
      {
        SafeIsPlain(p, cs, a);
        SafeIsPlain(p, cs, b);
        NormalFormFaithful(p, a, b);
      }
    } else {
      UnsafeCollides(p, cs);
    }
  }

  lemma UnsafeCollides(p: Printer, cs: Charset)
    requires LowersCase(p) && !cs.Safe()
    ensures !FaithfulOn(p, cs)
  {
    assert OnlyDelimiters("") && OnlyDelimiters(")");
    if cs.inString(')') {
      StringsCollide(p);
      AtomsDrawn(p, cs, Value(String("")), Value(String(")")));
    } else if cs.inIdentifier(')') {
      IdentifiersCollide(p);
      AtomsDrawn(p, cs, Identifier(""), Identifier(")"));
    } else {
      FunctionsCollide(p);
      OddIsDrawn(p, cs);
    }
  }

  /** The digest kept in the cursor, if there is a filter. */
  function ShortFilterHash(p: Printer, digest: string -> string, filter: Option<Expr>): Option<string> {
    if filter.Some? then Some(digest(Normalize(p, filter.value))) else None
  }

  /** Equivalent filters have the same digest, an absent filter has none, and a digest means that there is a filter. */
  lemma EquivalentSameHash(p: Printer, digest: string -> string, a: Option<Expr>, b: Option<Expr>)
    requires a.Some? <==> b.Some?
    requires a.Some? ==> Equivalent(p, a.value, b.value)
    ensures ShortFilterHash(p, digest, a) == ShortFilterHash(p, digest, b)
    ensures ShortFilterHash(p, digest, a).Some? <==> a.Some?
  {
    if a.Some? { EquivalentSameForm(p, a.value, b.value); }
  }
}
