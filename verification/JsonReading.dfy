/**
  What the printed text is, told from the reader's side: string literals decode to their string by the
  rules of section 7 of RFC 8259, arrays and objects are comma-separated lists in brackets and braces,
  and the entries of a rebuilt object come in ascending order.
 */
module JsonReading {
  import opened Outcomes
  import opened StableSort
  import opened StableJson
  import opened JsonPrinting
  import opened JsonCanonical

  // ---------------------------------------------------------------- string literals

  function HexValue(c: char): Option<nat> {
    if '0' <= c <= '9' then Some((c - '0') as nat)
    else if 'a' <= c <= 'f' then Some((c - 'a') as nat + 10)
    else if 'A' <= c <= 'F' then Some((c - 'A') as nat + 10)
    else None
  }

  /** The character a two-character escape stands for. */
  function Named(c: char): Option<char> {
    if c == '\"' || c == '\\' || c == '/' then Some(c)
    else if c == 'b' then Some(8 as char)
    else if c == 't' then Some(9 as char)
    else if c == 'n' then Some(10 as char)
    else if c == 'f' then Some(12 as char)
    else if c == 'r' then Some(13 as char)
    else None
  }

  function Prepend(c: char, rest: Option<string>): Option<string> {
    if rest.Some? then Some([c] + rest.value) else None
  }

  /** The string a literal's body stands for; escapes above the first 256 characters are never printed. */
  function Unescape(body: string): Option<string> {
    if body == "" then Some("")
    else if body[0] == '\\' then
      if |body| >= 2 && Named(body[1]).Some? then Prepend(Named(body[1]).value, Unescape(body[2..]))
      else if |body| >= 6 && body[1..4] == "u00" && HexValue(body[4]).Some? && HexValue(body[5]).Some?
      then Prepend((HexValue(body[4]).value * 16 + HexValue(body[5]).value) as char, Unescape(body[6..]))
      else None
    else if body[0] == '\"' || body[0] as int < 32 then None
    else Prepend(body[0], Unescape(body[1..]))
  }

  /** The body of a printed literal. */
  function Body(s: string): string {
    if s == "" then "" else Escape(s[0]) + Body(s[1..])
  }

  /** Hexadecimal digits are read back, and printed in lower case. */
  lemma HexReads(n: nat)
    requires n < 16
    ensures HexValue(Hex(n)) == Some(n) && ('0' <= Hex(n) <= '9' || 'a' <= Hex(n) <= 'f')
  {
  }

  lemma EscapeReads(c: char, rest: string)
    ensures Unescape(Escape(c) + rest) == Prepend(c, Unescape(rest))
  {
    var text := Escape(c) + rest;
    if c == '\"' || c == '\\' || Short(c) != c {
      assert text[2..] == rest;
      assert Named(Short(c)) == Some(c);
    } else if c as int < 32 {
      HexReads(c as nat / 16);
      HexReads(c as nat % 16);
      assert text[6..] == rest && text[1..4] == "u00";
      assert Named(text[1]) == None;
    } else {
      assert text[1..] == rest;
    }
  }

  lemma {:induction false} TailIsBody(s: string)
    ensures StrTail(s) == Body(s) + "\""
  {
    if s != "" {
      TailIsBody(s[1..]);
      Assoc(Escape(s[0]), Body(s[1..]), "\"");
    }
  }

  /** A printed string is a literal in quotes whose body reads back as the string. */
  lemma {:induction false} StringReads(s: string)
    ensures Quote(s) == "\"" + (Body(s) + "\"")
    ensures Unescape(Body(s)) == Some(s)
  {
    TailIsBody(s);
    if s != "" {
      StringReads(s[1..]);
      EscapeReads(s[0], Body(s[1..]));
      assert [s[0]] + s[1..] == s;
    }
  }

  // ---------------------------------------------------------------- values

  function Joined(parts: seq<string>): string {
    if parts == [] then ""
    else if |parts| == 1 then parts[0]
    else parts[0] + "," + Joined(parts[1..])
  }

  function Texts(items: seq<Json>): seq<string> {
    seq(|items|, i requires 0 <= i < |items| => Print(items[i]))
  }

  function EntryTexts(fields: seq<Field>): seq<string> {
    seq(|fields|, i requires 0 <= i < |fields| => Quote(fields[i].key) + ":" + Print(fields[i].value))
  }

  lemma {:induction false} ItemsJoined(items: seq<Json>)
    ensures Items(items) == Joined(Texts(items)) + "]"
  {
    if |items| > 1 {
      ItemsJoined(items[1..]);
      assert Texts(items)[1..] == Texts(items[1..]);
    }
  }

  lemma {:induction false} EntriesJoined(fields: seq<Field>)
    ensures Entries(fields) == Joined(EntryTexts(fields)) + "}"
  {
    if fields != [] {
      assert Entry(fields[0]) == EntryTexts(fields)[0];
      if |fields| > 1 {
        EntriesJoined(fields[1..]);
        assert EntryTexts(fields)[1..] == EntryTexts(fields[1..]);
      }
    }
  }

  /** The text of every kind of value. */
  lemma PrintedText(v: Json)
    ensures match v
      case Null => Print(v) == "null"
      case Bool(b) => Print(v) == if b then "true" else "false"
      case Num(text) => Print(v) == text
      case Str(text) => Print(v) == "\"" + (Body(text) + "\"")
      case Arr(items) => Print(v) == "[" + (Joined(Texts(items)) + "]")
      case Obj(fields) => Print(v) == "{" + (Joined(EntryTexts(fields)) + "}")
  {
    match v
    case Str(text) => StringReads(text);
    case Arr(items) => ItemsJoined(items);
    case Obj(fields) => EntriesJoined(fields);
    case _ =>
  }

  // ---------------------------------------------------------------- the order of keys

  function DigitOf(n: nat): char
    requires n < 10
  {
    (n + 48) as char
  }

  /** The decimal text of a number, without leading zeros. */
  function Numeral(n: nat): string {
    if n < 10 then [DigitOf(n)] else Numeral(n / 10) + [DigitOf(n % 10)]
  }

  predicate Digits(key: string) {
    forall c :: c in key ==> IsDigit(c)
  }

  lemma DecimalAppend(init: string, c: char)
    requires Digits(init) && IsDigit(c)
    ensures Digits(init + [c]) && Decimal(init + [c]) == Decimal(init) * 10 + DigitValue(c)
  {
    assert (init + [c])[..|init|] == init;
  }

  lemma {:induction false} NumeralReads(n: nat)
    ensures var text := Numeral(n);
      text != "" && Digits(text) && Decimal(text) == n && (text == "0" || text[0] != '0')
    ensures n > 0 ==> Numeral(n)[0] != '0'
  {
    if n < 10 {
      DecimalAppend("", DigitOf(n));
      assert "" + [DigitOf(n)] == Numeral(n);
    } else {
      NumeralReads(n / 10);
      DecimalAppend(Numeral(n / 10), DigitOf(n % 10));
    }
  }

  lemma NumeralAppend(n: nat, d: nat)
    requires n > 0 && d < 10
    ensures Numeral(n * 10 + d) == Numeral(n) + [DigitOf(d)]
  {
    assert (n * 10 + d) / 10 == n && (n * 10 + d) % 10 == d;
  }

  lemma DigitBack(c: char)
    requires IsDigit(c)
    ensures DigitValue(c) < 10 && DigitOf(DigitValue(c)) == c && (c != '0' ==> DigitValue(c) > 0)
  {
    assert DigitValue(c) == c as int - 48;
    assert DigitOf(DigitValue(c)) as int == c as int;
  }

  lemma OneDigit(c: char)
    requires IsDigit(c)
    ensures DigitValue(c) < 10 && DigitOf(DigitValue(c)) == c
    ensures Numeral(DigitValue(c)) == [c] && Decimal([c]) == DigitValue(c) && (c != '0' ==> DigitValue(c) > 0)
  {
    DigitBack(c);
    DecimalAppend("", c);
    assert "" + [c] == [c];
  }

  lemma WriteAppend(init: string, last: char)
    requires Digits(init) && IsDigit(last) && Numeral(Decimal(init)) == init && Decimal(init) > 0
    ensures Numeral(Decimal(init + [last])) == init + [last] && Decimal(init + [last]) > 0
  {
    DecimalAppend(init, last);
    OneDigit(last);
    NumeralAppend(Decimal(init), DigitValue(last));
  }

  lemma {:induction false} DigitsWrite(key: string)
    requires key != "" && Digits(key) && key[0] != '0'
    ensures Numeral(Decimal(key)) == key && Decimal(key) > 0
  {
    var init, last := key[..|key| - 1], key[|key| - 1];
    assert key == init + [last] && last in key;
    if init == "" {
      OneDigit(last);
      assert key == [last];
    } else {
      assert init[0] == key[0] && forall c :: c in init ==> c in key;
      DigitsWrite(init);
      WriteAppend(init, last);
    }
  }

  /** The integer keys are the decimal numerals of the numbers below 4294967295. */
  lemma IndexExactly(key: string)
    ensures IsIndex(key) <==> exists n: nat :: n < 4_294_967_295 && key == Numeral(n)
  {
    if IsIndex(key) {
      if key == "0" { OneDigit('0'); } else { DigitsWrite(key); }
      assert key == Numeral(Decimal(key));
    }
    if n: nat :| n < 4_294_967_295 && key == Numeral(n) {
      NumeralReads(n);
    }
  }

  lemma SlotsAscend(f: Field, g: Field)
    requires Slot(f) <= Slot(g)
    ensures IsIndex(g.key) ==> IsIndex(f.key) && Decimal(f.key) <= Decimal(g.key)
    ensures !IsIndex(f.key) ==> !IsIndex(g.key) && Slot(f) == Slot(g)
  {
  }

  lemma ListingAscends(collate: Collation, le: (Field, Field) -> bool, f: Field, g: Field)
    requires Listing(collate, le)(f, g)
    ensures Slot(f) <= Slot(g) && (Slot(f) == Slot(g) ==> collate(f.key) <= collate(g.key))
  {
    assert ByKey(collate)(f) == collate(f.key) && ByKey(collate)(g) == collate(g.key);
  }

  /**
    In a rebuilt object integer keys come first, in ascending order, and the other keys follow in
    ascending order of the collation.
   */
  lemma ListedAscending(collate: Collation, fields: seq<Field>, i: nat, j: nat)
    requires i < j < |Listed(collate, fields)|
    ensures var f, g := Listed(collate, fields)[i], Listed(collate, fields)[j];
      && (IsIndex(g.key) ==> IsIndex(f.key) && Decimal(f.key) <= Decimal(g.key))
      && (!IsIndex(f.key) ==> !IsIndex(g.key) && collate(f.key) <= collate(g.key))
  {
    var l, any := Listed(collate, fields), JsonCanonical.Any();
    ListedPairwise(collate, fields, any);
    PairRelated(Listing(collate, any), l, i, j);
    ListingAscends(collate, any, l[i], l[j]);
    SlotsAscend(l[i], l[j]);
  }
}
