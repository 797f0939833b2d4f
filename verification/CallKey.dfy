// stableStringify and readCallKey: the identity of a read call, which the duplicate-read guard compares.
module CallKey {
  import opened Basics
  import opened Json

  // --- Values ---

  predicate NumberChar(c: char) {
    '0' <= c <= '9' || c == '-' || c == '+' || c == '.' || c == 'e'
  }

  /** The text of a finite JavaScript number. */
  ghost predicate NumberText(s: string) {
    s != [] && ('0' <= s[0] <= '9' || s[0] == '-') && forall i :: 0 <= i < |s| ==> NumberChar(s[i])
  }

  /** What a JavaScript value guarantees: numbers print as numbers, property names are distinct. */
  ghost predicate Proper(j: Json) {
    match j
    case Num(text) => NumberText(text)
    case Arr(items) => forall i :: 0 <= i < |items| ==> Proper(items[i])
    case Obj(fields) => DistinctKeys(fields) && forall i :: 0 <= i < |fields| ==> Proper(fields[i].value)
    case _ => true
  }

  /** Equal, but for the order of object properties at any depth. */
  ghost predicate Same(a: Json, b: Json) {
    match (a, b)
    case (Arr(xs), Arr(ys)) => |xs| == |ys| && forall i :: 0 <= i < |xs| ==> Same(xs[i], ys[i])
    case (Obj(fs), Obj(gs)) =>
      && KeySet(fs) == KeySet(gs)
      && forall f, g :: f in fs && g in gs && f.key == g.key ==> Same(f.value, g.value)
    case (Arr(_), _) => false
    case (Obj(_), _) => false
    case _ => a == b
  }

  // --- Sorting keys ---

  /** Lexicographic order by character. */
  predicate AtMost(a: string, b: string) {
    a == [] || (b != [] && (a[0] < b[0] || (a[0] == b[0] && AtMost(a[1..], b[1..]))))
  }

  lemma {:induction false} AtMostTotal(a: string, b: string)
    ensures AtMost(a, b) || AtMost(b, a)
    ensures AtMost(a, b) && AtMost(b, a) ==> a == b
  {
    if a != [] && b != [] && a[0] == b[0] {
      AtMostTotal(a[1..], b[1..]);
      assert a == [a[0]] + a[1..] && b == [b[0]] + b[1..];
    }
  }

  lemma {:induction false} AtMostTransitive(a: string, b: string, c: string)
    requires AtMost(a, b) && AtMost(b, c)
    ensures AtMost(a, c)
  {
    if a != [] && a[0] == b[0] && b[0] == c[0] { AtMostTransitive(a[1..], b[1..], c[1..]); }
  }

  /** Sorted by key, and no key twice. */
  ghost predicate Ascending(fs: seq<Field>) {
    forall i, j :: 0 <= i < j < |fs| ==> AtMost(fs[i].key, fs[j].key) && fs[i].key != fs[j].key
  }

  function Insert(f: Field, fs: seq<Field>): (r: seq<Field>)
    ensures forall x :: x in r <==> x == f || x in fs
  {
    if fs == [] then [f]
    else if AtMost(f.key, fs[0].key) then [f] + fs
    else
      assert fs == [fs[0]] + fs[1..];
      [fs[0]] + Insert(f, fs[1..])
  }

  function Sort(fs: seq<Field>): (r: seq<Field>)
    ensures forall x :: x in r <==> x in fs
  {
    if fs == [] then []
    else
      assert fs == [fs[0]] + fs[1..];
      Insert(fs[0], Sort(fs[1..]))
  }

  lemma {:induction false} InsertAscending(f: Field, fs: seq<Field>)
    requires Ascending(fs) && f.key !in KeySet(fs)
    ensures Ascending(Insert(f, fs))
  {
    if fs != [] {
      assert fs[0] in fs;
      if AtMost(f.key, fs[0].key) {
        forall j | 0 <= j < |fs| ensures AtMost(f.key, fs[j].key) && f.key != fs[j].key {
          assert fs[j] in fs;
          if j > 0 { AtMostTransitive(f.key, fs[0].key, fs[j].key); }
        }
      } else {
        AtMostTotal(f.key, fs[0].key);
        InsertAscending(f, fs[1..]);
        var r := Insert(f, fs[1..]);
        forall j | 0 <= j < |r| ensures AtMost(fs[0].key, r[j].key) && fs[0].key != r[j].key {
          assert r[j] in r;
        }
      }
    }
  }

  lemma {:induction false} SortAscending(fs: seq<Field>)
    requires DistinctKeys(fs)
    ensures Ascending(Sort(fs))
    ensures KeySet(Sort(fs)) == KeySet(fs)
  {
    if fs != [] {
      SortAscending(fs[1..]);
      InsertAscending(fs[0], Sort(fs[1..]));
    }
  }

  lemma FirstIsLeast(fs: seq<Field>, k: string)
    requires Ascending(fs) && k in KeySet(fs)
    ensures fs != [] && AtMost(fs[0].key, k)
    ensures KeySet(fs[1..]) == KeySet(fs) - {fs[0].key}
  {
    var i :| 0 <= i < |fs| && fs[i].key == k;
    AtMostTotal(k, k);
    assert fs == [fs[0]] + fs[1..];
    forall f | f in fs[1..] ensures f.key != fs[0].key {
      var j :| 0 <= j < |fs[1..]| && fs[1..][j] == f;
      assert fs[j + 1] == f;
    }
  }

  lemma SomeKey(fs: seq<Field>)
    ensures KeySet(fs) == {} <==> fs == []
  {
    if fs != [] { assert fs[0].key in KeySet(fs); }
  }

  lemma {:induction false} AscendingUnique(fs: seq<Field>, gs: seq<Field>)
    requires Ascending(fs) && Ascending(gs) && KeySet(fs) == KeySet(gs)
    ensures |fs| == |gs| && forall i :: 0 <= i < |fs| ==> fs[i].key == gs[i].key
  {
    SomeKey(fs);
    SomeKey(gs);
    if fs != [] {
      assert fs[0].key in KeySet(fs);
      FirstIsLeast(gs, fs[0].key);
      assert gs[0].key in KeySet(gs);
      FirstIsLeast(fs, gs[0].key);
      AtMostTotal(fs[0].key, gs[0].key);
      AscendingUnique(fs[1..], gs[1..]);
      assert forall i :: 1 <= i < |fs| ==> fs[i] == fs[1..][i - 1] && gs[i] == gs[1..][i - 1];
    }
  }

  // --- Printing ---

  const HEX_DIGITS := "0123456789abcdef"

  /** One character inside a JSON string literal, as `JSON.stringify` writes it. */
  function Escape(c: char): string {
    if c == '"' then "\\\""
    else if c == '\\' then "\\\\"
    else if c == '\n' then "\\n"
    else if c == '\r' then "\\r"
    else if c == '\t' then "\\t"
    else if c == '\U{0008}' then "\\b"
    else if c == '\U{000C}' then "\\f"
    else if c < ' ' then "\\u00" + [HEX_DIGITS[c as int / 16], HEX_DIGITS[c as int % 16]]
    else [c]
  }

  function Body(s: string): string {
    if s == [] then [] else Escape(s[0]) + Body(s[1..])
  }

  function Quote(s: string): string {
    ['"'] + Body(s) + ['"']
  }

  /** The recursion of `stableStringify`. */
  function Stringify(j: Json): string
    decreases j, 1
  {
    match j
    case Null => "null"
    case Bool(b) => if b then "true" else "false"
    case Num(text) => text
    case Str(s) => Quote(s)
    case Arr(items) => ['['] + Elements(items) + [']']
    case Obj(fields) => ['{'] + Members(Sort(fields), j) + ['}']
  }

  function Elements(items: seq<Json>): string
    decreases items, 1
  {
    if items == [] then []
    else Stringify(items[0]) + (if |items| == 1 then [] else [','] + Elements(items[1..]))
  }

  /** The fields are some of those of `whole`, in the order to print them. */
  function Members(fields: seq<Field>, ghost whole: Json): string
    requires forall f :: f in fields ==> f.value < whole
    decreases whole, 0, |fields|
  {
    if fields == [] then []
    else
      var rest := if |fields| == 1 then [] else [','] + Members(fields[1..], whole);
      Quote(fields[0].key) + ([':'] + Stringify(fields[0].value)) + rest
  }

  function ReadCallKey(name: string, input: Json): string {
    name + ([':'] + Stringify(input))
  }

  // --- A text determines its value, whatever follows it ---

  /** What can stand after a value inside a larger text. */
  predicate Delimited(x: string) {
    x == [] || x[0] == ',' || x[0] == ']' || x[0] == '}'
  }

  lemma HexDistinct(i: nat, k: nat)
    requires i < 16 && k < 16 && HEX_DIGITS[i] == HEX_DIGITS[k]
    ensures i == k
  {
  }

  lemma HexPrefix(c: char, d: char)
    requires |Escape(c)| == 6 && |Escape(d)| == 6
    requires Escape(c)[4] == Escape(d)[4] && Escape(c)[5] == Escape(d)[5]
    ensures c == d
  {
    HexDistinct(c as int / 16, d as int / 16);
    HexDistinct(c as int % 16, d as int % 16);
  }

  /** The first two characters of an escape tell its length, and all but the control characters. */
  lemma EscapeStart(c: char, d: char)
    requires Escape(c)[0] == Escape(d)[0]
    requires |Escape(c)| > 1 && |Escape(d)| > 1 ==> Escape(c)[1] == Escape(d)[1]
    ensures |Escape(c)| == |Escape(d)| && (c == d || |Escape(c)| == 6)
  {
  }

  lemma EscapePrefix(c: char, d: char, x: string, y: string)
    requires Escape(c) + x == Escape(d) + y
    ensures c == d && x == y
  {
    var l, m := Escape(c), Escape(d);
    forall i | 0 <= i < |l| && i < |m| ensures l[i] == m[i] {
      assert (l + x)[i] == l[i] && (m + y)[i] == m[i];
    }
    EscapeStart(c, d);
    if |l| == 6 { HexPrefix(c, d); }
    Cancel(l, x, y);
  }

  lemma EscapeNoQuote(c: char)
    ensures Escape(c) != [] && Escape(c)[0] != '"'
  {
  }

  lemma Cancel(a: string, l: string, r: string)
    requires a + l == a + r
    ensures l == r
  {
    assert l == (a + l)[|a|..] && r == (a + r)[|a|..];
  }

  lemma BodyStart(s: string, x: string)
    ensures s != [] ==> Body(s) + x == Escape(s[0]) + (Body(s[1..]) + x)
    ensures s == [] ==> Body(s) + x == x
    ensures s == [] <==> (Body(s) + (['"'] + x))[0] == '"'
  {
    if s != [] {
      EscapeNoQuote(s[0]);
      Associative(Escape(s[0]), Body(s[1..]), x);
    }
  }

  lemma {:induction false} BodyPrefix(s: string, t: string, x: string, y: string)
    requires Body(s) + (['"'] + x) == Body(t) + (['"'] + y)
    ensures s == t && x == y
  {
    BodyStart(s, x);
    BodyStart(t, y);
    BodyStart(s, ['"'] + x);
    BodyStart(t, ['"'] + y);
    if s == [] {
      Cancel(['"'], x, y);
    } else {
      EscapePrefix(s[0], t[0], Body(s[1..]) + (['"'] + x), Body(t[1..]) + (['"'] + y));
      BodyPrefix(s[1..], t[1..], x, y);
      assert s == [s[0]] + s[1..] && t == [t[0]] + t[1..];
    }
  }

  lemma QuotePrefix(s: string, t: string, x: string, y: string)
    requires Quote(s) + x == Quote(t) + y
    ensures s == t && x == y
  {
    Wrapped('"', Body(s), '"', x);
    Wrapped('"', Body(t), '"', y);
    Cancel(['"'], Body(s) + (['"'] + x), Body(t) + (['"'] + y));
    BodyPrefix(s, t, x, y);
  }

  lemma Wrapped(open: char, inner: string, close: char, x: string)
    ensures [open] + inner + [close] + x == [open] + (inner + ([close] + x))
  {
  }

  lemma LongerNumber(s: string, t: string, x: string, y: string)
    requires forall i :: 0 <= i < |t| ==> NumberChar(t[i])
    requires Delimited(x) && |s| < |t|
    ensures s + x != t + y
  {
    assert (t + y)[|s|] == t[|s|];
    if x != [] { assert (s + x)[|s|] == x[0]; }
  }

  lemma NumberPrefix(s: string, t: string, x: string, y: string)
    requires forall i :: 0 <= i < |s| ==> NumberChar(s[i])
    requires forall i :: 0 <= i < |t| ==> NumberChar(t[i])
    requires Delimited(x) && Delimited(y) && s + x == t + y
    ensures s == t && x == y
  {
    if |s| < |t| { LongerNumber(s, t, x, y); }
    if |t| < |s| { LongerNumber(t, s, y, x); }
    assert s == (s + x)[..|s|] && t == (t + y)[..|s|];
    Cancel(s, x, y);
  }

  /** The first character tells which kind of value a text is of. */
  function Kind(c: char): nat {
    if c == 'n' then 0 else if c == 't' then 1 else if c == 'f' then 2 else if c == '"' then 4
    else if c == '[' then 5 else if c == '{' then 6 else 3
  }

  function KindOf(j: Json): nat {
    match j
    case Null => 0
    case Bool(b) => if b then 1 else 2
    case Num(_) => 3
    case Str(_) => 4
    case Arr(_) => 5
    case Obj(_) => 6
  }

  lemma FirstChar(j: Json, x: string)
    requires Proper(j)
    ensures Stringify(j) != [] && (Stringify(j) + x)[0] == Stringify(j)[0]
    ensures Kind(Stringify(j)[0]) == KindOf(j)
    ensures Stringify(j)[0] != ']' && Stringify(j)[0] != '}' && Stringify(j)[0] != ','
  {
  }

  lemma {:induction false} StringifyPrefix(a: Json, b: Json, x: string, y: string)
    requires Proper(a) && Proper(b) && Delimited(x) && Delimited(y)
    requires Stringify(a) + x == Stringify(b) + y
    ensures Same(a, b) && x == y
    decreases a, 2
  {
    FirstChar(a, x);
    FirstChar(b, y);
    assert KindOf(a) == KindOf(b);
    if a.Num? {
      NumberPrefix(a.text, b.text, x, y);
    } else if a.Str? {
      QuotePrefix(a.s, b.s, x, y);
    } else if a.Arr? {
      Wrapped('[', Elements(a.items), ']', x);
      Wrapped('[', Elements(b.items), ']', y);
      Cancel(['['], Elements(a.items) + ([']'] + x), Elements(b.items) + ([']'] + y));
      ElementsPrefix(a.items, b.items, x, y);
    } else if a.Obj? {
      ObjectPrefix(a, b, x, y);
    } else {
      assert a == b;
      Cancel(Stringify(a), x, y);
    }
  }

  lemma {:induction false} ObjectPrefix(a: Json, b: Json, x: string, y: string)
    requires a.Obj? && b.Obj? && Proper(a) && Proper(b)
    requires Stringify(a) + x == Stringify(b) + y
    ensures Same(a, b) && x == y
    decreases a, 1
  {
    var fs, gs := Sort(a.fields), Sort(b.fields);
    Wrapped('{', Members(fs, a), '}', x);
    Wrapped('{', Members(gs, b), '}', y);
    Cancel(['{'], Members(fs, a) + (['}'] + x), Members(gs, b) + (['}'] + y));
    MembersPrefix(fs, a, gs, b, x, y);
    SortAscending(a.fields);
    SortAscending(b.fields);
    SameFields(fs, gs);
  }

  lemma SameFields(fs: seq<Field>, gs: seq<Field>)
    requires Ascending(fs) && AllAlike(fs, gs)
    ensures KeySet(fs) == KeySet(gs)
    ensures forall f, g :: f in fs && g in gs && f.key == g.key ==> Same(f.value, g.value)
  {
    forall k | k in KeySet(fs) ensures k in KeySet(gs) {
      var i :| 0 <= i < |fs| && fs[i].key == k;
      assert gs[i] in gs;
    }
    forall k | k in KeySet(gs) ensures k in KeySet(fs) {
      var i :| 0 <= i < |gs| && gs[i].key == k;
      assert fs[i] in fs;
    }
    forall f, g | f in fs && g in gs && f.key == g.key ensures Same(f.value, g.value) {
      var i :| 0 <= i < |fs| && fs[i] == f;
      var j :| 0 <= j < |gs| && gs[j] == g;
      assert i == j;
    }
  }

  function ElementsTail(xs: seq<Json>, x: string): string
    requires xs != []
  {
    if |xs| == 1 then [']'] + x else [','] + (Elements(xs[1..]) + ([']'] + x))
  }

  lemma ElementsStart(xs: seq<Json>, x: string)
    requires forall j :: j in xs ==> Proper(j)
    ensures xs == [] ==> Elements(xs) + ([']'] + x) == [']'] + x
    ensures xs == [] <==> (Elements(xs) + ([']'] + x))[0] == ']'
    ensures xs != [] ==> Elements(xs) + ([']'] + x) == Stringify(xs[0]) + ElementsTail(xs, x)
  {
    if xs != [] {
      assert xs[0] in xs;
      ElementsSplit(xs, x);
      FirstChar(xs[0], ElementsTail(xs, x));
    }
  }

  lemma ElementsSplit(xs: seq<Json>, x: string)
    requires xs != []
    ensures Elements(xs) + ([']'] + x) == Stringify(xs[0]) + ElementsTail(xs, x)
  {
    var v, t := Stringify(xs[0]), if |xs| == 1 then [] else [','] + Elements(xs[1..]);
    assert Elements(xs) == v + t;
    Associative(v, t, [']'] + x);
    if |xs| > 1 { Associative([','], Elements(xs[1..]), [']'] + x); }
  }

  lemma {:induction false} ElementsPrefix(xs: seq<Json>, ys: seq<Json>, x: string, y: string)
    requires (forall j :: j in xs ==> Proper(j)) && (forall j :: j in ys ==> Proper(j))
    requires Elements(xs) + ([']'] + x) == Elements(ys) + ([']'] + y)
    ensures |xs| == |ys| && (forall i :: 0 <= i < |xs| ==> Same(xs[i], ys[i])) && x == y
    decreases xs, 1
  {
    ElementsStart(xs, x);
    ElementsStart(ys, y);
    if xs == [] {
      Cancel([']'], x, y);
    } else {
      assert xs[0] in xs && ys[0] in ys;
      var tx, ty := ElementsTail(xs, x), ElementsTail(ys, y);
      StringifyPrefix(xs[0], ys[0], tx, ty);
      assert tx[0] == ty[0];
      if |xs| == 1 {
        Cancel([']'], x, y);
      } else {
        Cancel([','], Elements(xs[1..]) + ([']'] + x), Elements(ys[1..]) + ([']'] + y));
        ElementsPrefix(xs[1..], ys[1..], x, y);
        assert forall i :: 1 <= i < |xs| ==> xs[i] == xs[1..][i - 1] && ys[i] == ys[1..][i - 1];
      }
    }
  }

  function MembersTail(fields: seq<Field>, ghost whole: Json, x: string): string
    requires fields != [] && forall f :: f in fields ==> f.value < whole
  {
    if |fields| == 1 then ['}'] + x else [','] + (Members(fields[1..], whole) + (['}'] + x))
  }

  lemma MembersStart(fields: seq<Field>, whole: Json, x: string)
    requires forall f :: f in fields ==> f.value < whole
    ensures fields == [] ==> Members(fields, whole) + (['}'] + x) == ['}'] + x
    ensures fields == [] <==> (Members(fields, whole) + (['}'] + x))[0] == '}'
    ensures fields != [] ==>
      Members(fields, whole) + (['}'] + x)
      == Quote(fields[0].key) + ([':'] + (Stringify(fields[0].value) + MembersTail(fields, whole, x)))
  {
    if fields != [] {
      var q, v := Quote(fields[0].key), Stringify(fields[0].value);
      var rest, t := if |fields| == 1 then [] else [','] + Members(fields[1..], whole), MembersTail(fields, whole, x);
      Associative(q + ([':'] + v), rest, ['}'] + x);
      if |fields| > 1 { Associative([','], Members(fields[1..], whole), ['}'] + x); }
      assert rest + (['}'] + x) == t;
      Associative(q, [':'] + v, t);
      Associative([':'], v, t);
    }
  }

  lemma {:induction false} MemberPrefix(k: string, v: Json, h: string, w: Json, x: string, y: string)
    requires Proper(v) && Proper(w) && Delimited(x) && Delimited(y)
    requires Quote(k) + ([':'] + (Stringify(v) + x)) == Quote(h) + ([':'] + (Stringify(w) + y))
    ensures k == h && Same(v, w) && x == y
    decreases v, 3
  {
    QuotePrefix(k, h, [':'] + (Stringify(v) + x), [':'] + (Stringify(w) + y));
    Cancel([':'], Stringify(v) + x, Stringify(w) + y);
    StringifyPrefix(v, w, x, y);
  }

  /** The two properties have one key and values equal up to property order. */
  ghost predicate AlikeFields(f: Field, g: Field) {
    f.key == g.key && Same(f.value, g.value)
  }

  ghost predicate AllAlike(fs: seq<Field>, gs: seq<Field>) {
    |fs| == |gs| && forall i :: 0 <= i < |fs| ==> AlikeFields(fs[i], gs[i])
  }

  lemma AllAlikeCons(fs: seq<Field>, gs: seq<Field>)
    requires fs != [] && gs != [] && AlikeFields(fs[0], gs[0]) && AllAlike(fs[1..], gs[1..])
    ensures AllAlike(fs, gs)
  {
    assert forall i :: 1 <= i < |fs| ==> fs[i] == fs[1..][i - 1] && gs[i] == gs[1..][i - 1];
  }

  lemma {:induction false} MembersPrefix(
      fs: seq<Field>, a: Json, gs: seq<Field>, b: Json, x: string, y: string)
    requires forall f :: f in fs ==> f.value < a && Proper(f.value)
    requires forall g :: g in gs ==> g.value < b && Proper(g.value)
    requires Members(fs, a) + (['}'] + x) == Members(gs, b) + (['}'] + y)
    ensures AllAlike(fs, gs) && x == y
    decreases a, 0, |fs|
  {
    MembersStart(fs, a, x);
    MembersStart(gs, b, y);
    if fs == [] {
      Cancel(['}'], x, y);
    } else {
      assert fs[0] in fs && gs[0] in gs;
      var tx, ty := MembersTail(fs, a, x), MembersTail(gs, b, y);
      MemberPrefix(fs[0].key, fs[0].value, gs[0].key, gs[0].value, tx, ty);
      assert tx[0] == ty[0];
      if |fs| == 1 {
        Cancel(['}'], x, y);
      } else {
        Cancel([','], Members(fs[1..], a) + (['}'] + x), Members(gs[1..], b) + (['}'] + y));
        MembersPrefix(fs[1..], a, gs[1..], b, x, y);
        AllAlikeCons(fs, gs);
      }
    }
  }

  // --- Equal values print alike ---

  lemma {:induction false} SameStringify(a: Json, b: Json)
    requires Proper(a) && Proper(b) && Same(a, b)
    ensures Stringify(a) == Stringify(b)
    decreases a, 2
  {
    if a.Arr? {
      SameElements(a.items, b.items);
    } else if a.Obj? {
      SameObject(a, b);
    }
  }

  lemma {:induction false} SameObject(a: Json, b: Json)
    requires a.Obj? && b.Obj? && Proper(a) && Proper(b) && Same(a, b)
    ensures Stringify(a) == Stringify(b)
    decreases a, 1
  {
    var fs, gs := Sort(a.fields), Sort(b.fields);
    SortAscending(a.fields);
    SortAscending(b.fields);
    AscendingUnique(fs, gs);
    SameInOrder(fs, a.fields, gs, b.fields);
    SameMembers(fs, a, gs, b);
  }

  lemma SameInOrder(fs: seq<Field>, xs: seq<Field>, gs: seq<Field>, ys: seq<Field>)
    requires |fs| == |gs| && forall i :: 0 <= i < |fs| ==> fs[i].key == gs[i].key
    requires (forall f :: f in fs ==> f in xs) && (forall g :: g in gs ==> g in ys)
    requires forall f, g :: f in xs && g in ys && f.key == g.key ==> Same(f.value, g.value)
    ensures AllAlike(fs, gs)
  {
  }

  lemma {:induction false} SameElements(xs: seq<Json>, ys: seq<Json>)
    requires (forall j :: j in xs ==> Proper(j)) && (forall j :: j in ys ==> Proper(j))
    requires |xs| == |ys| && forall i :: 0 <= i < |xs| ==> Same(xs[i], ys[i])
    ensures Elements(xs) == Elements(ys)
    decreases xs, 1
  {
    if xs != [] {
      assert xs[0] in xs && ys[0] in ys;
      SameStringify(xs[0], ys[0]);
      SameElements(xs[1..], ys[1..]);
    }
  }

  lemma {:induction false} SameMembers(fs: seq<Field>, a: Json, gs: seq<Field>, b: Json)
    requires forall f :: f in fs ==> f.value < a && Proper(f.value)
    requires forall g :: g in gs ==> g.value < b && Proper(g.value)
    requires AllAlike(fs, gs)
    ensures Members(fs, a) == Members(gs, b)
    decreases a, 0, |fs|
  {
    if fs != [] {
      assert fs[0] in fs && gs[0] in gs;
      SameStringify(fs[0].value, gs[0].value);
      SameMembers(fs[1..], a, gs[1..], b);
    }
  }

  /** The printer tells two values apart exactly when they differ in more than property order. */
  lemma StringifyTellsApart(a: Json, b: Json)
    requires Proper(a) && Proper(b)
    ensures Stringify(a) == Stringify(b) <==> Same(a, b)
  {
    if Stringify(a) == Stringify(b) {
      assert Stringify(a) + [] == Stringify(b) + [];
      StringifyPrefix(a, b, [], []);
    }
    if Same(a, b) { SameStringify(a, b); }
  }

  // --- A key determines the name and the input, even for names with colons ---

  /** Where a reader of JSON text is: between tokens at a depth, in a string, after a backslash, or lost. */
  datatype Reader = Between(depth: int) | InString(depth: int) | Escaped(depth: int) | Lost

  /** A colon belongs inside an object, a backslash inside a string. */
  function Read(s: Reader, c: char): Reader {
    match s
    case Between(d) =>
      if c == '"' then InString(d)
      else if c == '[' || c == '{' then Between(d + 1)
      else if c == ']' || c == '}' then Between(d - 1)
      else if c == '\\' || (c == ':' && d <= 0) then Lost
      else s
    case InString(d) => if c == '\\' then Escaped(d) else if c == '"' then Between(d) else s
    case Escaped(d) => InString(d)
    case Lost => Lost
  }

  function ReadAll(s: Reader, text: string): Reader
    decreases |text|
  {
    if text == [] then s else ReadAll(Read(s, text[0]), text[1..])
  }

  lemma {:induction false} ReadConcat(s: Reader, a: string, b: string)
    ensures ReadAll(s, a + b) == ReadAll(ReadAll(s, a), b)
    decreases |a|
  {
    if a == [] {
      assert a + b == b;
    } else {
      assert (a + b)[1..] == a[1..] + b;
      ReadConcat(Read(s, a[0]), a[1..], b);
    }
  }

  /**
   * Reading a whole value between tokens leads back to where it began; reading it out of step, from
   * inside a string, leaves the reader lost or inside a string again.
   */
  predicate Settled(s: Reader, s': Reader) {
    && (s.Between? ==> s' == s)
    && (s.Lost? || s.InString? ==> s'.Lost? || s'.InString?)
  }

  lemma {:induction false} StaysLost(text: string)
    ensures ReadAll(Lost, text) == Lost
  {
    if text != [] { StaysLost(text[1..]); }
  }

  lemma {:induction false} ReadPlain(s: Reader, text: string)
    requires forall i :: 0 <= i < |text| ==> NumberChar(text[i]) || 'a' <= text[i] <= 'z'
    requires !s.Escaped?
    ensures ReadAll(s, text) == s
  {
    if text != [] { ReadPlain(s, text[1..]); }
  }

  lemma ReadMark(s: Reader, c: char)
    ensures ReadAll(s, [c]) == Read(s, c)
  {
    assert [c][1..] == [];
  }

  lemma ReadThree(s: Reader, a: string, c: char, b: string)
    ensures ReadAll(s, a + ([c] + b)) == ReadAll(Read(ReadAll(s, a), c), b)
  {
    ReadConcat(s, a, [c] + b);
    ReadConcat(ReadAll(s, a), [c], b);
    ReadMark(ReadAll(s, a), c);
  }

  lemma ReadWrapped(s: Reader, open: char, inner: string, close: char)
    ensures ReadAll(s, [open] + inner + [close]) == Read(ReadAll(Read(s, open), inner), close)
  {
    ReadConcat(s, [open] + inner, [close]);
    ReadConcat(s, [open], inner);
    ReadMark(s, open);
    ReadMark(ReadAll(s, [open] + inner), close);
  }

  lemma ReadEscape(c: char, d: int)
    ensures ReadAll(InString(d), Escape(c)) == InString(d)
    ensures ReadAll(Between(d), Escape(c)).Lost? || ReadAll(Between(d), Escape(c)).Between?
  {
    var e := Escape(c);
    if |e| == 1 {
      ReadMark(InString(d), e[0]);
      ReadMark(Between(d), e[0]);
    } else {
      assert e == [e[0]] + ([e[1]] + e[2..]);
      ReadConcat(InString(d), [e[0]], [e[1]] + e[2..]);
      ReadConcat(Escaped(d), [e[1]], e[2..]);
      ReadMark(InString(d), e[0]);
      ReadMark(Escaped(d), e[1]);
      ReadPlain(InString(d), e[2..]);
      StaysLost(e[1..]);
    }
  }

  lemma {:induction false} ReadBody(s: string, d: int)
    ensures ReadAll(InString(d), Body(s)) == InString(d)
    ensures ReadAll(Between(d), Body(s)).Lost? || ReadAll(Between(d), Body(s)).Between?
  {
    if s != [] {
      ReadEscape(s[0], d);
      ReadConcat(InString(d), Escape(s[0]), Body(s[1..]));
      ReadConcat(Between(d), Escape(s[0]), Body(s[1..]));
      ReadBody(s[1..], d);
      var mid := ReadAll(Between(d), Escape(s[0]));
      if mid.Between? { ReadBody(s[1..], mid.depth); } else { StaysLost(Body(s[1..])); }
    }
  }

  lemma ReadQuote(s: Reader, text: string)
    requires !s.Escaped?
    ensures Settled(s, ReadAll(s, Quote(text)))
  {
    ReadWrapped(s, '"', Body(text), '"');
    if s.Lost? { StaysLost(Body(text)); } else { ReadBody(text, s.depth); }
  }

  /** A reader that may begin to read a value at this depth, or is out of step. */
  predicate Ready(s: Reader, depth: int) {
    !s.Escaped? && (s.Between? ==> s.depth >= depth)
  }

  /** A mark between two texts leaves a settled reader ready for the second one. */
  lemma ReadyAgain(s: Reader, s1: Reader, depth: int, c: char)
    requires depth >= 0 && Ready(s, depth) && Settled(s, s1)
    requires c == ',' || (c == ':' && depth >= 1)
    ensures Ready(Read(s1, c), depth) && Settled(s, Read(s1, c))
  {
  }

  lemma SettleThree(s: Reader, depth: int, a: string, c: char, b: string)
    requires depth >= 0 && Ready(s, depth) && Settled(s, ReadAll(s, a))
    requires c == ',' || (c == ':' && depth >= 1)
    requires var s2 := Read(ReadAll(s, a), c); Settled(s2, ReadAll(s2, b))
    ensures Settled(s, ReadAll(s, a + ([c] + b)))
  {
    ReadThree(s, a, c, b);
    ReadyAgain(s, ReadAll(s, a), depth, c);
  }

  lemma SettleWrapped(s: Reader, open: char, inner: string, close: char)
    requires (open == '[' && close == ']') || (open == '{' && close == '}')
    requires Ready(s, 0) && Settled(Read(s, open), ReadAll(Read(s, open), inner))
    ensures Settled(s, ReadAll(s, [open] + inner + [close]))
  {
    ReadWrapped(s, open, inner, close);
  }

  lemma {:induction false} ReadValue(j: Json, s: Reader)
    requires Proper(j) && Ready(s, 0)
    ensures Settled(s, ReadAll(s, Stringify(j)))
    decreases j, 2
  {
    if j.Str? {
      ReadQuote(s, j.s);
    } else if j.Arr? {
      ReadElements(j.items, Read(s, '['));
      SettleWrapped(s, '[', Elements(j.items), ']');
    } else if j.Obj? {
      ReadMembers(Sort(j.fields), j, Read(s, '{'));
      SettleWrapped(s, '{', Members(Sort(j.fields), j), '}');
    } else {
      ReadPlain(s, Stringify(j));
    }
  }

  lemma {:induction false} ReadElements(items: seq<Json>, s: Reader)
    requires (forall j :: j in items ==> Proper(j)) && Ready(s, 1)
    ensures Settled(s, ReadAll(s, Elements(items)))
    decreases items, 1
  {
    if items != [] {
      assert items[0] in items;
      var first := Stringify(items[0]);
      ReadValue(items[0], s);
      if |items| == 1 {
        assert Elements(items) == first;
      } else {
        ReadyAgain(s, ReadAll(s, first), 1, ',');
        ReadElements(items[1..], Read(ReadAll(s, first), ','));
        SettleThree(s, 1, first, ',', Elements(items[1..]));
      }
    }
  }

  lemma {:induction false} ReadMember(k: string, v: Json, s: Reader)
    requires Proper(v) && Ready(s, 1)
    ensures Settled(s, ReadAll(s, Quote(k) + ([':'] + Stringify(v))))
    decreases v, 3
  {
    ReadQuote(s, k);
    ReadyAgain(s, ReadAll(s, Quote(k)), 1, ':');
    ReadValue(v, Read(ReadAll(s, Quote(k)), ':'));
    SettleThree(s, 1, Quote(k), ':', Stringify(v));
  }

  lemma {:induction false} ReadMembers(fields: seq<Field>, whole: Json, s: Reader)
    requires (forall f :: f in fields ==> f.value < whole && Proper(f.value)) && Ready(s, 1)
    ensures Settled(s, ReadAll(s, Members(fields, whole)))
    decreases whole, 0, |fields|
  {
    if fields != [] {
      assert fields[0] in fields;
      var member := Quote(fields[0].key) + ([':'] + Stringify(fields[0].value));
      ReadMember(fields[0].key, fields[0].value, s);
      if |fields| == 1 {
        assert Members(fields, whole) == member;
      } else {
        ReadyAgain(s, ReadAll(s, member), 1, ',');
        ReadMembers(fields[1..], whole, Read(ReadAll(s, member), ','));
        SettleThree(s, 1, member, ',', Members(fields[1..], whole));
      }
    }
  }

  lemma NeverBack(before: string, b: Json)
    requires Proper(b)
    ensures ReadAll(Between(0), before + ([':'] + Stringify(b))) != Between(0)
  {
    ReadThree(Between(0), before, ':', Stringify(b));
    ReadValue(b, Read(ReadAll(Between(0), before), ':'));
  }

  /** No value's text ends with a colon and another value's text. */
  lemma NoTextAfterColon(a: Json, before: string, b: Json)
    requires Proper(a) && Proper(b)
    ensures Stringify(a) != before + ([':'] + Stringify(b))
  {
    NeverBack(before, b);
    ReadValue(a, Between(0));
  }

  lemma KeyParts(n: string, a: Json)
    ensures var key := ReadCallKey(n, a);
            |key| > |n| && key[..|n|] == n && key[|n|..] == [':'] + Stringify(a)
  {
  }

  /** Two read calls have one key exactly when they are the same tool with the same arguments. */
  lemma KeysTellCallsApart(n: string, a: Json, m: string, b: Json)
    requires Proper(a) && Proper(b)
    ensures ReadCallKey(n, a) == ReadCallKey(m, b) <==> n == m && Same(a, b)
  {
    StringifyTellsApart(a, b);
    if ReadCallKey(n, a) == ReadCallKey(m, b) {
      if |n| < |m| {
        LongerName(n, a, m, b);
      } else if |m| < |n| {
        LongerName(m, b, n, a);
      } else {
        KeyParts(n, a);
        KeyParts(m, b);
        Cancel([':'], Stringify(a), Stringify(b));
      }
    }
  }

  /** What follows the shorter name would be a value's text that ends with a colon and another one. */
  lemma LongerName(n: string, a: Json, m: string, b: Json)
    requires Proper(a) && Proper(b) && |n| < |m|
    ensures ReadCallKey(n, a) != ReadCallKey(m, b)
  {
    var key := ReadCallKey(n, a);
    if key == ReadCallKey(m, b) {
      KeyParts(n, a);
      KeyParts(m, b);
      SliceBetween(key, |n| + 1, |m|);
      assert Stringify(a) == key[|n| + 1..] by { DropMark(key, |n|, Stringify(a)); }
      NoTextAfterColon(a, key[|n| + 1..|m|], b);
    }
  }

  lemma DropMark(key: string, i: nat, text: string)
    requires i < |key| && key[i..] == [':'] + text
    ensures key[i + 1..] == text
  {
    assert key[i + 1..] == key[i..][1..];
  }

  lemma SliceBetween(key: string, i: nat, j: nat)
    requires i <= j <= |key|
    ensures key[i..] == key[i..j] + key[j..]
  {
  }
}
