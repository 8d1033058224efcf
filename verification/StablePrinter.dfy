/** The text whose digest identifies a set of operator targets: when two values print alike. */
module StablePrinter {
  import opened Json

  // ----- Printing -----

  function Hex(n: nat): char
    requires n < 16
  {
    if n < 10 then ('0' as int + n) as char else ('a' as int + n - 10) as char
  }

  function Escape(c: char): string {
    if c == '\"' then "\\\""
    else if c == '\\' then "\\\\"
    else if c == '\n' then "\\n"
    else if c == '\r' then "\\r"
    else if c == '\t' then "\\t"
    else if c == '\U{8}' then "\\b"
    else if c == '\U{c}' then "\\f"
    else if c < ' ' then "\\u00" + [Hex(c as int / 16), Hex(c as int % 16)]
    else [c]
  }

  function Escaped(s: string): string { if s == [] then [] else Escape(s[0]) + Escaped(s[1..]) }

  function Quote(s: string): string { "\"" + Escaped(s) + "\"" }

  function Digits(n: nat): string {
    if n < 10 then [Hex(n)] else Digits(n / 10) + [Hex(n % 10)]
  }

  function NumberText(n: int): string { if n < 0 then "-" + Digits(-n) else Digits(n) }

  /** An undefined value prints as nothing. */
  function Text(v: Value): string
    decreases v, 1
  {
    match v
    case Undefined => ""
    case Null => "null"
    case Bool(b) => if b then "true" else "false"
    case Number(n) => NumberText(n)
    case Text(s) => Quote(s)
    case Array(items) => "[" + ItemsText(items) + "]"
    case Object(fields) => "{" + FieldsText(fields) + "}"
  }

  function ItemsText(items: seq<Value>): string
    decreases items, 0
  {
    if items == [] then ""
    else if |items| == 1 then Text(items[0])
    else Text(items[0]) + "," + ItemsText(items[1..])
  }

  function FieldsText(fields: seq<Field>): string
    decreases fields, 0
  {
    if fields == [] then ""
    else
      var first := Quote(fields[0].key) + ":" + Text(fields[0].value);
      if |fields| == 1 then first else first + "," + FieldsText(fields[1..])
  }

  /** Members sorted by name, undefined ones left out, at every depth. */
  function StableJson(v: Value): string { Text(Canonical(v)) }

  // ----- Printing is unambiguous, one construct at a time -----

  /** What may follow a value: the end, or a character no value starts with. */
  predicate Stop(r: string) { r == [] || r[0] == ',' || r[0] == ']' || r[0] == '}' }

  predicate IsDigit(c: char) { '0' <= c <= '9' }

  lemma Rest(p: string, r: string)
    ensures |p + r| == |p| + |r| && (p + r)[|p|..] == r && (p + r)[..|p|] == p
  {}

  lemma Regroup(p: string, q: string, r: string)
    ensures (p + q) + r == p + (q + r)
  {}

  /** What is between the brackets, and what follows them. */
  lemma Inside(open: char, inner: string, close: char, r: string)
    ensures ([open] + inner + [close] + r)[1..] == inner + [close] + r
  {}

  lemma Head(p: string, r: string)
    requires p != []
    ensures p + r != [] && (p + r)[0] == p[0]
  {}

  lemma Regroup3(p: string, q: string, r: string, s: string)
    ensures p + q + r + s == p + (q + r + s)
  {}

  lemma Regroup4(p: string, q: string, r: string, s: string, t: string)
    ensures p + q + r + s + t == p + (q + r + s + t)
  {}

  lemma Regroup6(k: string, c: string, v: string, r: string, s: string, t: string, x: string)
    ensures k + c + v + r + s + t + x == k + (c + (v + (r + s + t + x)))
    ensures k + c + v + r + s + t + x == (k + c + v + r + s) + t + x
  {}

  function HexValue(c: char): int { if c <= '9' then c as int - '0' as int else c as int - 'a' as int + 10 }

  /** The character a two-character escape stands for. */
  function Unescaped(c: char): char {
    if c == 'n' then '\n' else if c == 'r' then '\r' else if c == 't' then '\t'
    else if c == 'b' then '\U{8}' else if c == 'f' then '\U{c}' else c
  }

  /** The start of an escape tells its length, and the escape tells the character. */
  lemma EscapeShape(c: char)
    ensures var e := Escape(c);
      && e != []
      && (e[0] != '\\' ==> e == [c] && c != '\"')
      && (e[0] == '\\' ==> |e| >= 2 && (if e[1] == 'u' then |e| == 6 &&
        HexValue(e[4]) * 16 + HexValue(e[5]) == c as int else |e| == 2 && c == Unescaped(e[1])))
  {
    if c < ' ' {
      HexDigit(c as int / 16);
      HexDigit(c as int % 16);
    }
  }

  lemma HexDigit(n: nat)
    requires n < 16
    ensures HexValue(Hex(n)) == n
  {}

  lemma SamePrefix(a: string, b: string, x: string, y: string)
    requires a + x == b + y && |a| == |b|
    ensures a == b && x == y
  {
    Rest(a, x);
    Rest(b, y);
  }

  lemma EscapeUnambiguous(c: char, d: char, x: string, y: string)
    requires Escape(c) + x == Escape(d) + y
    ensures c == d && x == y
  {
    EscapeShape(c);
    EscapeShape(d);
    var a, b := Escape(c), Escape(d);
    assert (a + x)[0] == a[0] && (b + y)[0] == b[0];
    if a[0] == '\\' { assert (a + x)[1] == a[1] && (b + y)[1] == b[1]; }
    SamePrefix(a, b, x, y);
  }

  lemma EscapedStep(s: string, x: string)
    requires s != []
    ensures Escaped(s) + "\"" + x == Escape(s[0]) + (Escaped(s[1..]) + "\"" + x)
    ensures (Escaped(s) + "\"" + x)[0] == Escape(s[0])[0] != '\"'
  {
    Regroup3(Escape(s[0]), Escaped(s[1..]), "\"", x);
    EscapeShape(s[0]);
    Head(Escape(s[0]), Escaped(s[1..]) + "\"" + x);
  }

  /** A quoted text starts with the quote exactly when there is nothing before it. */
  lemma EscapedStart(s: string, x: string)
    ensures (Escaped(s) + "\"" + x)[0] == '\"' <==> s == []
    ensures s == [] ==> (Escaped(s) + "\"" + x)[1..] == x
  {
    if s == [] { Rest("\"", x); } else { EscapedStep(s, x); }
  }

  lemma {:induction false} EscapedUnambiguous(s: string, t: string, x: string, y: string)
    requires Escaped(s) + "\"" + x == Escaped(t) + "\"" + y
    ensures s == t && x == y
  {
    EscapedStart(s, x);
    EscapedStart(t, y);
    if s != [] {
      EscapedStep(s, x);
      EscapedStep(t, y);
      EscapeUnambiguous(s[0], t[0], Escaped(s[1..]) + "\"" + x, Escaped(t[1..]) + "\"" + y);
      EscapedUnambiguous(s[1..], t[1..], x, y);
      assert s == [s[0]] + s[1..] && t == [t[0]] + t[1..];
    }
  }

  lemma QuoteUnambiguous(s: string, t: string, x: string, y: string)
    requires Quote(s) + x == Quote(t) + y
    ensures s == t && x == y
  {
    Inside('\"', Escaped(s), '\"', x);
    Inside('\"', Escaped(t), '\"', y);
    EscapedUnambiguous(s, t, x, y);
  }

  lemma {:induction false} DigitsAreDigits(n: nat)
    ensures |Digits(n)| > 0 && forall i :: 0 <= i < |Digits(n)| ==> IsDigit(Digits(n)[i])
  {
    if n >= 10 { DigitsAreDigits(n / 10); }
  }

  lemma LastDigit(n: nat)
    ensures Digits(n) != [] && HexValue(Digits(n)[|Digits(n)| - 1]) == n % 10
    ensures |Digits(n)| == 1 <==> n < 10
    ensures n >= 10 ==> Digits(n)[..|Digits(n)| - 1] == Digits(n / 10)
  {
    DigitsAreDigits(n / 10);
    if n >= 10 { Rest(Digits(n / 10), [Hex(n % 10)]); }
  }

  lemma {:induction false} DigitsInjective(n: nat, m: nat)
    requires Digits(n) == Digits(m)
    ensures n == m
  {
    LastDigit(n);
    LastDigit(m);
    if n >= 10 { DigitsInjective(n / 10, m / 10); }
  }

  /** The digits a text starts with end where a number followed by `x` ends. */
  lemma RunEnds(t: string, a: string, x: string)
    requires t == a + x && Stop(x) && forall i :: 0 <= i < |a| ==> IsDigit(a[i])
    ensures |a| <= |t| && a == t[..|a|] && x == t[|a|..]
    ensures forall i :: 0 <= i < |a| ==> IsDigit(t[i])
    ensures |a| < |t| ==> !IsDigit(t[|a|])
  {}

  lemma SameRun(a: string, b: string, x: string, y: string)
    requires a + x == b + y && Stop(x) && Stop(y)
    requires forall i :: 0 <= i < |a| ==> IsDigit(a[i])
    requires forall i :: 0 <= i < |b| ==> IsDigit(b[i])
    ensures a == b && x == y
  {
    RunEnds(a + x, a, x);
    RunEnds(a + x, b, y);
    assert |a| == |b|;
  }

  lemma DigitsUnambiguous(n: nat, m: nat, x: string, y: string)
    requires Digits(n) + x == Digits(m) + y && Stop(x) && Stop(y)
    ensures n == m && x == y
  {
    DigitsAreDigits(n);
    DigitsAreDigits(m);
    SameRun(Digits(n), Digits(m), x, y);
    DigitsInjective(n, m);
  }

  lemma NumberSign(n: int, x: string)
    ensures NumberText(n) + x != [] && ((NumberText(n) + x)[0] == '-' <==> n < 0)
  {
    DigitsAreDigits(if n < 0 then -n else n);
    Head(NumberText(n), x);
  }

  lemma DropMinus(a: string, b: string, x: string, y: string)
    requires "-" + a + x == "-" + b + y
    ensures a + x == b + y
  {
    Regroup("-", a, x);
    Regroup("-", b, y);
    Rest("-", a + x);
    Rest("-", b + y);
  }

  lemma NegativeUnambiguous(n: int, m: int, x: string, y: string)
    requires n < 0 && m < 0 && NumberText(n) + x == NumberText(m) + y && Stop(x) && Stop(y)
    ensures n == m && x == y
  {
    DropMinus(Digits(-n), Digits(-m), x, y);
    DigitsUnambiguous(-n, -m, x, y);
  }

  lemma SameSign(n: int, m: int, x: string, y: string)
    requires NumberText(n) + x == NumberText(m) + y
    ensures n < 0 <==> m < 0
  {
    NumberSign(n, x);
    NumberSign(m, y);
  }

  lemma NumberUnambiguous(n: int, m: int, x: string, y: string)
    requires NumberText(n) + x == NumberText(m) + y && Stop(x) && Stop(y)
    ensures n == m && x == y
  {
    SameSign(n, m, x, y);
    if n < 0 { NegativeUnambiguous(n, m, x, y); } else { DigitsUnambiguous(n, m, x, y); }
  }

  // ----- Values -----

  /** Which kind of value a text starts with. */
  function Kind(t: string): nat {
    if Stop(t) then 0
    else if t[0] == 'n' then 1
    else if t[0] == 't' || t[0] == 'f' then 2
    else if t[0] == '\"' then 4
    else if t[0] == '[' then 5
    else if t[0] == '{' then 6
    else 3
  }

  function KindOf(v: Value): nat {
    match v
    case Undefined => 0
    case Null => 1
    case Bool(_) => 2
    case Number(_) => 3
    case Text(_) => 4
    case Array(_) => 5
    case Object(_) => 6
  }

  lemma TextKind(v: Value, r: string)
    requires Stop(r)
    ensures Kind(Text(v) + r) == KindOf(v)
  {
    match v
    case Undefined => assert Text(v) + r == r;
    case Number(n) =>
      DigitsAreDigits(if n < 0 then -n else n);
      assert (Text(v) + r)[0] == Text(v)[0];
    case _ => assert (Text(v) + r)[0] == Text(v)[0];
  }

  /** A list that holds one undefined value prints like the empty list; nothing else is lost. */
  function Collapse(v: Value): Value
    decreases v, 1
  {
    match v
    case Array(items) => if items == [Undefined] then Array([]) else Array(CollapseItems(items))
    case Object(fields) => Object(CollapseFields(fields))
    case _ => v
  }

  function CollapseItems(items: seq<Value>): (r: seq<Value>)
    ensures |r| == |items|
    decreases items, 0
  {
    if items == [] then [] else [Collapse(items[0])] + CollapseItems(items[1..])
  }

  function CollapseFields(fields: seq<Field>): (r: seq<Field>)
    ensures |r| == |fields|
    decreases fields, 0
  {
    if fields == [] then [] else [Field(fields[0].key, Collapse(fields[0].value))] + CollapseFields(fields[1..])
  }

  lemma WordUnambiguous(v: Value, w: Value, x: string, y: string)
    requires Text(v) + x == Text(w) + y && KindOf(v) == KindOf(w) && KindOf(v) <= 2
    ensures v == w && x == y
  {
    Rest(Text(v), x);
    Rest(Text(w), y);
    if v.Bool? { assert (Text(v) + x)[0] == Text(v)[0] && (Text(w) + y)[0] == Text(w)[0]; }
  }

  /** Two texts that start alike are those of values that differ only as `Collapse` says. */
  lemma {:induction false} TextUnambiguous(v: Value, w: Value, x: string, y: string)
    requires Text(v) + x == Text(w) + y && Stop(x) && Stop(y)
    ensures Collapse(v) == Collapse(w) && x == y
    decreases v, 1
  {
    TextKind(v, x);
    TextKind(w, y);
    match v
    case Number(n) => NumberUnambiguous(n, w.n, x, y);
    case Text(s) => QuoteUnambiguous(s, w.s, x, y);
    case Array(items) =>
      Inside('[', ItemsText(items), ']', x);
      Inside('[', ItemsText(w.items), ']', y);
      ArrayUnambiguous(items, w.items, x, y);
    case Object(fields) =>
      Inside('{', FieldsText(fields), '}', x);
      Inside('{', FieldsText(w.fields), '}', y);
      ObjectUnambiguous(fields, w.fields, x, y);
    case _ => WordUnambiguous(v, w, x, y);
  }

  lemma {:induction false} ArrayUnambiguous(a: seq<Value>, b: seq<Value>, x: string, y: string)
    requires ItemsText(a) + "]" + x == ItemsText(b) + "]" + y && Stop(x) && Stop(y)
    ensures Collapse(Array(a)) == Collapse(Array(b)) && x == y
    decreases a, 1
  {
    var t := ItemsText(a) + "]" + x;
    if a != [] && b != [] {
      ItemsUnambiguous(a, b, x, y);
      assert a == [Undefined] <==> CollapseItems(a) == [Undefined];
      assert b == [Undefined] <==> CollapseItems(b) == [Undefined];
    } else if a != [] {
      OnlyUndefined(a, x, y);
    } else if b != [] {
      OnlyUndefined(b, y, x);
    } else {
      assert x == t[1..] && y == t[1..];
    }
  }

  /** What follows the first item of a non-empty list. */
  function AfterItem(a: seq<Value>, x: string): string
    requires a != []
  {
    if |a| == 1 then "]" + x else "," + ItemsText(a[1..]) + "]" + x
  }

  lemma SplitItems(a: seq<Value>, x: string)
    requires a != []
    ensures ItemsText(a) + "]" + x == Text(a[0]) + AfterItem(a, x)
    ensures Stop(AfterItem(a, x)) && (AfterItem(a, x)[0] == ',' <==> |a| > 1)
    ensures AfterItem(a, x)[1..] == if |a| == 1 then x else ItemsText(a[1..]) + "]" + x
  {
    if |a| > 1 {
      Regroup4(Text(a[0]), ",", ItemsText(a[1..]), "]", x);
      Inside(',', ItemsText(a[1..]), ']', x);
    } else {
      Regroup(Text(a[0]), "]", x);
      Rest("]", x);
    }
  }

  /** Only a single undefined value prints like no value at all. */
  lemma OnlyUndefined(a: seq<Value>, x: string, y: string)
    requires a != [] && Stop(x) && Stop(y) && ItemsText(a) + "]" + x == "]" + y
    ensures a == [Undefined] && x == y
  {
    SplitItems(a, x);
    var rest := AfterItem(a, x);
    TextKind(a[0], rest);
    assert ("]" + y)[0] == ']';
    assert a[0] == Undefined && Text(a[0]) + rest == rest;
    Rest("]", y);
  }

  lemma {:induction false} ItemsUnambiguous(a: seq<Value>, b: seq<Value>, x: string, y: string)
    requires a != [] && b != [] && Stop(x) && Stop(y)
    requires ItemsText(a) + "]" + x == ItemsText(b) + "]" + y
    ensures CollapseItems(a) == CollapseItems(b) && x == y
    decreases a, 0
  {
    SplitItems(a, x);
    SplitItems(b, y);
    TextUnambiguous(a[0], b[0], AfterItem(a, x), AfterItem(b, y));
    if |a| > 1 { ItemsUnambiguous(a[1..], b[1..], x, y); }
  }

  lemma {:induction false} ObjectUnambiguous(a: seq<Field>, b: seq<Field>, x: string, y: string)
    requires FieldsText(a) + "}" + x == FieldsText(b) + "}" + y && Stop(x) && Stop(y)
    ensures CollapseFields(a) == CollapseFields(b) && x == y
    decreases a, 1
  {
    var t, u := FieldsText(a) + "}" + x, FieldsText(b) + "}" + y;
    if a != [] { assert t[0] == '\"'; }
    if b != [] { assert u[0] == '\"'; }
    if a != [] && b != [] {
      FieldsUnambiguous(a, b, x, y);
    } else {
      assert x == t[1..] && y == u[1..];
    }
  }

  /** What follows the first member of a non-empty object. */
  function AfterField(a: seq<Field>, x: string): string
    requires a != []
  {
    if |a| == 1 then "}" + x else "," + FieldsText(a[1..]) + "}" + x
  }

  lemma AfterFieldStarts(a: seq<Field>, x: string)
    requires a != []
    ensures Stop(AfterField(a, x)) && (AfterField(a, x)[0] == ',' <==> |a| > 1)
    ensures AfterField(a, x)[1..] == if |a| == 1 then x else FieldsText(a[1..]) + "}" + x
  {
    if |a| > 1 { Inside(',', FieldsText(a[1..]), '}', x); } else { Rest("}", x); }
  }

  lemma SplitFields(a: seq<Field>, x: string)
    requires a != []
    ensures FieldsText(a) + "}" + x == Quote(a[0].key) + (":" + (Text(a[0].value) + AfterField(a, x)))
  {
    var k, v := Quote(a[0].key), Text(a[0].value);
    if |a| > 1 {
      Regroup6(k, ":", v, ",", FieldsText(a[1..]), "}", x);
    } else {
      Regroup4(k, ":", v, "}", x);
      Regroup3(":", v, "}", x);
    }
  }

  lemma {:induction false} FieldsUnambiguous(a: seq<Field>, b: seq<Field>, x: string, y: string)
    requires a != [] && b != [] && Stop(x) && Stop(y)
    requires FieldsText(a) + "}" + x == FieldsText(b) + "}" + y
    ensures CollapseFields(a) == CollapseFields(b) && x == y
    decreases a, 0
  {
    var va, vb := Text(a[0].value) + AfterField(a, x), Text(b[0].value) + AfterField(b, y);
    SplitFields(a, x);
    SplitFields(b, y);
    AfterFieldStarts(a, x);
    AfterFieldStarts(b, y);
    QuoteUnambiguous(a[0].key, b[0].key, ":" + va, ":" + vb);
    Rest(":", va);
    Rest(":", vb);
    TextUnambiguous(a[0].value, b[0].value, AfterField(a, x), AfterField(b, y));
    if |a| > 1 { FieldsUnambiguous(a[1..], b[1..], x, y); }
  }

  // ----- Values that print alike -----

  lemma {:induction false} TextOfCollapsed(v: Value)
    ensures Text(Collapse(v)) == Text(v)
    decreases v, 1
  {
    match v
    case Array(items) => if items == [Undefined] { assert ItemsText(items) == ""; } else { ItemsOfCollapsed(items); }
    case Object(fields) => FieldsOfCollapsed(fields);
    case _ =>
  }

  lemma {:induction false} ItemsOfCollapsed(items: seq<Value>)
    ensures ItemsText(CollapseItems(items)) == ItemsText(items)
    decreases items, 0
  {
    if items != [] {
      TextOfCollapsed(items[0]);
      ItemsOfCollapsed(items[1..]);
      assert CollapseItems(items)[1..] == CollapseItems(items[1..]);
    }
  }

  lemma {:induction false} FieldsOfCollapsed(fields: seq<Field>)
    ensures FieldsText(CollapseFields(fields)) == FieldsText(fields)
    decreases fields, 0
  {
    if fields != [] {
      TextOfCollapsed(fields[0].value);
      FieldsOfCollapsed(fields[1..]);
      assert CollapseFields(fields)[1..] == CollapseFields(fields[1..]);
    }
  }

  /** Values print alike exactly when, sorted and without undefined members, they are equal but
      for lists of one undefined value, which print like empty lists. */
  lemma PrintsAlikeIff(v: Value, w: Value)
    ensures StableJson(v) == StableJson(w) <==> Collapse(Canonical(v)) == Collapse(Canonical(w))
  {
    TextOfCollapsed(Canonical(v));
    TextOfCollapsed(Canonical(w));
    if StableJson(v) == StableJson(w) {
      Rest(StableJson(v), "");
      TextUnambiguous(Canonical(v), Canonical(w), "", "");
    }
  }
}
