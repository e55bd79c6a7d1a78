/** Printed payloads can be read back in one way only: the text determines the payload. */
module JsonPrinting {
  import opened StableJson

  /** What may follow a printed value: the end of the text or a structural character. */
  predicate Follows(x: string) {
    x == "" || x[0] in {',', ']', '}'}
  }

  lemma Assoc(a: string, b: string, c: string)
    ensures (a + b) + c == a + (b + c)
  {
  }

  lemma SameFirst(a: string, x: string, b: string, y: string)
    requires a != "" && b != "" && a + x == b + y
    ensures a[0] == b[0]
  {
    assert (a + x)[0] == a[0] && (b + y)[0] == b[0];
  }

  lemma DifferentFirst(a: string, x: string, b: string, y: string)
    requires a != "" && b != "" && a[0] != b[0]
    ensures a + x != b + y
  {
    assert (a + x)[0] == a[0] && (b + y)[0] == b[0];
  }

  lemma Cancel(a: string, x: string, b: string, y: string)
    requires |a| == |b| && a + x == b + y
    ensures a == b && x == y
  {
    assert (a + x)[..|a|] == a && (b + y)[..|b|] == b;
    assert (a + x)[|a|..] == x && (b + y)[|b|..] == y;
  }

  lemma HexUnique(m: nat, n: nat)
    requires m < 16 && n < 16 && Hex(m) == Hex(n)
    ensures m == n
  {
    assert (Hex(m) as int <= '9' as int) == (m < 10);
    assert (Hex(n) as int <= '9' as int) == (n < 10);
  }

  lemma EscapeInjective(c: char, d: char)
    requires Escape(c) == Escape(d)
    ensures c == d
  {
    if |Escape(c)| == 6 {
      assert Escape(c)[4] == Hex(c as nat / 16) && Escape(d)[4] == Hex(d as nat / 16);
      assert Escape(c)[5] == Hex(c as nat % 16) && Escape(d)[5] == Hex(d as nat % 16);
      HexUnique(c as nat / 16, d as nat / 16);
      HexUnique(c as nat % 16, d as nat % 16);
      assert c as int == d as int;
    } else if |Escape(c)| == 2 {
      assert Escape(c)[1] == Short(c) && Escape(d)[1] == Short(d);
    } else {
      assert Escape(c)[0] == c && Escape(d)[0] == d;
    }
  }

  lemma EscapeUnique(c: char, d: char, x: string, y: string)
    requires Escape(c) + x == Escape(d) + y
    ensures c == d && x == y
  {
    SameFirst(Escape(c), x, Escape(d), y);
    if Escape(c)[0] == '\\' {
      assert (Escape(c) + x)[1] == Escape(c)[1] && (Escape(d) + y)[1] == Escape(d)[1];
    }
    assert |Escape(c)| == |Escape(d)|;
    Cancel(Escape(c), x, Escape(d), y);
    EscapeInjective(c, d);
  }

  lemma EscapeStart(c: char)
    ensures Escape(c) != "" && Escape(c)[0] != '\"'
  {
  }

  lemma StrStep(c: char, d: char, s: string, t: string, x: string, y: string)
    requires (Escape(c) + s) + x == (Escape(d) + t) + y
    ensures c == d && s + x == t + y
  {
    Assoc(Escape(c), s, x);
    Assoc(Escape(d), t, y);
    EscapeUnique(c, d, s + x, t + y);
  }

  lemma StrEnd(d: char, t: string, x: string, y: string)
    ensures "\"" + x != (Escape(d) + t) + y
  {
    EscapeStart(d);
    Assoc(Escape(d), t, y);
    DifferentFirst("\"", x, Escape(d), t + y);
  }

  lemma {:induction false} StrTailUnique(s: string, t: string, x: string, y: string)
    requires StrTail(s) + x == StrTail(t) + y
    ensures s == t && x == y
    decreases |s|
  {
    if s == "" && t == "" {
      Cancel("\"", x, "\"", y);
    } else if s == "" {
      StrEnd(t[0], StrTail(t[1..]), x, y);
    } else if t == "" {
      StrEnd(s[0], StrTail(s[1..]), y, x);
    } else {
      StrStep(s[0], t[0], StrTail(s[1..]), StrTail(t[1..]), x, y);
      StrTailUnique(s[1..], t[1..], x, y);
      assert s == [s[0]] + s[1..] && t == [t[0]] + t[1..];
    }
  }

  lemma QuoteUnique(s: string, t: string, x: string, y: string)
    requires Quote(s) + x == Quote(t) + y
    ensures s == t && x == y
  {
    Assoc("\"", StrTail(s), x);
    Assoc("\"", StrTail(t), y);
    Cancel("\"", StrTail(s) + x, "\"", StrTail(t) + y);
    StrTailUnique(s, t, x, y);
  }

  predicate NumberChar(c: char) {
    IsDigit(c) || c in {'-', '+', '.', 'e'}
  }

  lemma NumberEnd(t: string, x: string, y: string)
    requires t != "" && (forall c :: c in t ==> NumberChar(c)) && Follows(x)
    ensures "" + x != t + y
  {
    assert t[0] in t && (t + y)[0] == t[0] && "" + x == x;
  }

  lemma {:induction false} NumberUnique(s: string, t: string, x: string, y: string)
    requires (forall c :: c in s ==> NumberChar(c)) && (forall c :: c in t ==> NumberChar(c))
    requires Follows(x) && Follows(y) && s + x == t + y
    ensures s == t && x == y
    decreases |s|
  {
    if s == "" && t == "" {
      Cancel(s, x, t, y);
    } else if s == "" {
      NumberEnd(t, x, y);
    } else if t == "" {
      NumberEnd(s, y, x);
    } else {
      assert s == [s[0]] + s[1..] && t == [t[0]] + t[1..];
      Assoc([s[0]], s[1..], x);
      Assoc([t[0]], t[1..], y);
      Cancel([s[0]], s[1..] + x, [t[0]], t[1..] + y);
      NumberUnique(s[1..], t[1..], x, y);
    }
  }

  /** The first character of a printed value tells what kind of value it is. */
  predicate Starts(v: Json, c: char) {
    match v
    case Null => c == 'n'
    case Bool(b) => c == if b then 't' else 'f'
    case Num(_) => IsDigit(c) || c == '-'
    case Str(_) => c == '\"'
    case Arr(_) => c == '['
    case Obj(_) => c == '{'
  }

  lemma PrintStart(v: Json)
    requires WellFormed(v)
    ensures Print(v) != "" && Starts(v, Print(v)[0])
  {
  }

  lemma ItemsStart(items: seq<Json>)
    requires items != [] && WellFormed(Arr(items))
    ensures Items(items) != "" && Items(items)[0] !in {']', '}', ','}
  {
    PrintStart(items[0]);
  }

  /** The text between one item and the end of its array. */
  function ItemRest(items: seq<Json>): string {
    if items == [] then "]" else "," + Items(items)
  }

  function EntryRest(fields: seq<Field>): string {
    if fields == [] then "}" else "," + Entries(fields)
  }

  lemma {:induction false} PrintUnique(a: Json, b: Json, x: string, y: string)
    requires WellFormed(a) && WellFormed(b) && Follows(x) && Follows(y)
    requires Print(a) + x == Print(b) + y
    ensures a == b && x == y
    decreases a, 2
  {
    PrintStart(a);
    PrintStart(b);
    SameFirst(Print(a), x, Print(b), y);
    match a
    case Null => Cancel(Print(a), x, Print(b), y);
    case Bool(_) => Cancel(Print(a), x, Print(b), y);
    case Num(_) => NumberUnique(a.text, b.text, x, y);
    case Str(_) => QuoteUnique(a.text, b.text, x, y);
    case Arr(_) =>
      Assoc("[", Items(a.items), x);
      Assoc("[", Items(b.items), y);
      Cancel("[", Items(a.items) + x, "[", Items(b.items) + y);
      ItemsUnique(a.items, b.items, x, y);
    case Obj(_) =>
      Assoc("{", Entries(a.fields), x);
      Assoc("{", Entries(b.fields), y);
      Cancel("{", Entries(a.fields) + x, "{", Entries(b.fields) + y);
      EntriesUnique(a.fields, b.fields, x, y);
  }

  lemma {:induction false} ItemsUnique(xs: seq<Json>, ys: seq<Json>, x: string, y: string)
    requires WellFormed(Arr(xs)) && WellFormed(Arr(ys))
    requires Items(xs) + x == Items(ys) + y
    ensures xs == ys && x == y
    decreases xs, 0
  {
    if xs == [] && ys == [] {
      Cancel("]", x, "]", y);
    } else if xs == [] {
      ItemsStart(ys);
      DifferentFirst("]", x, Items(ys), y);
    } else if ys == [] {
      ItemsStart(xs);
      DifferentFirst("]", y, Items(xs), x);
    } else {
      var p, q := ItemRest(xs[1..]), ItemRest(ys[1..]);
      Assoc(Print(xs[0]), p, x);
      Assoc(Print(ys[0]), q, y);
      PrintUnique(xs[0], ys[0], p + x, q + y);
      ItemRestUnique(xs[1..], ys[1..], x, y);
      assert xs == [xs[0]] + xs[1..] && ys == [ys[0]] + ys[1..];
    }
  }

  lemma {:induction false} ItemRestUnique(xs: seq<Json>, ys: seq<Json>, x: string, y: string)
    requires WellFormed(Arr(xs)) && WellFormed(Arr(ys))
    requires ItemRest(xs) + x == ItemRest(ys) + y
    ensures xs == ys && x == y
    decreases xs, 1
  {
    SameFirst(ItemRest(xs), x, ItemRest(ys), y);
    if xs == [] || ys == [] {
      Cancel("]", x, "]", y);
    } else {
      Assoc(",", Items(xs), x);
      Assoc(",", Items(ys), y);
      Cancel(",", Items(xs) + x, ",", Items(ys) + y);
      ItemsUnique(xs, ys, x, y);
    }
  }

  lemma {:induction false} EntryUnique(f: Field, g: Field, x: string, y: string)
    requires WellFormed(f.value) && WellFormed(g.value) && Follows(x) && Follows(y)
    requires Entry(f) + x == Entry(g) + y
    ensures f == g && x == y
    decreases f, 3
  {
    var p, q := ":" + Print(f.value), ":" + Print(g.value);
    Assoc(Quote(f.key), p, x);
    Assoc(Quote(g.key), q, y);
    QuoteUnique(f.key, g.key, p + x, q + y);
    Assoc(":", Print(f.value), x);
    Assoc(":", Print(g.value), y);
    Cancel(":", Print(f.value) + x, ":", Print(g.value) + y);
    PrintUnique(f.value, g.value, x, y);
  }

  lemma EntriesStart(fields: seq<Field>)
    requires fields != []
    ensures Entries(fields) != "" && Entries(fields)[0] == '\"'
  {
    assert Entry(fields[0])[0] == '\"';
  }

  lemma {:induction false} EntriesUnique(xs: seq<Field>, ys: seq<Field>, x: string, y: string)
    requires (forall f :: f in xs ==> WellFormed(f.value)) && (forall f :: f in ys ==> WellFormed(f.value))
    requires Entries(xs) + x == Entries(ys) + y
    ensures xs == ys && x == y
    decreases xs, 0
  {
    if xs == [] && ys == [] {
      Cancel("}", x, "}", y);
    } else if xs == [] {
      EntriesStart(ys);
      DifferentFirst("}", x, Entries(ys), y);
    } else if ys == [] {
      EntriesStart(xs);
      DifferentFirst("}", y, Entries(xs), x);
    } else {
      var p, q := EntryRest(xs[1..]), EntryRest(ys[1..]);
      Assoc(Entry(xs[0]), p, x);
      Assoc(Entry(ys[0]), q, y);
      EntryUnique(xs[0], ys[0], p + x, q + y);
      EntryRestUnique(xs[1..], ys[1..], x, y);
      assert xs == [xs[0]] + xs[1..] && ys == [ys[0]] + ys[1..];
    }
  }

  lemma {:induction false} EntryRestUnique(xs: seq<Field>, ys: seq<Field>, x: string, y: string)
    requires (forall f :: f in xs ==> WellFormed(f.value)) && (forall f :: f in ys ==> WellFormed(f.value))
    requires EntryRest(xs) + x == EntryRest(ys) + y
    ensures xs == ys && x == y
    decreases xs, 1
  {
    SameFirst(EntryRest(xs), x, EntryRest(ys), y);
    if xs == [] || ys == [] {
      Cancel("}", x, "}", y);
    } else {
      Assoc(",", Entries(xs), x);
      Assoc(",", Entries(ys), y);
      Cancel(",", Entries(xs) + x, ",", Entries(ys) + y);
      EntriesUnique(xs, ys, x, y);
    }
  }

  /** Equal texts come from equal payload trees. */
  lemma PrintInjective(a: Json, b: Json)
    requires WellFormed(a) && WellFormed(b) && Print(a) == Print(b)
    ensures a == b
  {
    assert Print(a) + "" == Print(a) && Print(b) + "" == Print(b);
    PrintUnique(a, b, "", "");
  }
}
