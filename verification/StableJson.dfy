/**
  Canonical serialisation of a payment payload: object entries are sorted by key at every depth,
  the result is printed, and the text's fingerprint becomes the payment key. The comparison of two
  keys is a collation, which may rank different keys equal.
 */
module StableJson {
  import opened StableSort

  datatype Json =
    | Null
    | Bool(b: bool)
    | Num(text: string)
    | Str(text: string)
    | Arr(items: seq<Json>)
    | Obj(fields: seq<Field>)

  datatype Field = Field(key: string, value: Json)

  type Collation = string -> real

  // ---------------------------------------------------------------- well-formed payloads

  predicate IsDigit(c: char) {
    '0' <= c <= '9'
  }

  predicate NumberText(text: string) {
    && text != "" && (IsDigit(text[0]) || text[0] == '-')
    && forall c :: c in text ==> IsDigit(c) || c in {'-', '+', '.', 'e'}
  }

  predicate DistinctKeys(fields: seq<Field>) {
    forall i, j :: 0 <= i < j < |fields| ==> fields[i].key != fields[j].key
  }

  predicate WellFormed(v: Json)
    decreases v
  {
    match v
    case Num(text) => NumberText(text)
    case Arr(items) => forall i :: 0 <= i < |items| ==> WellFormed(items[i])
    case Obj(fields) => DistinctKeys(fields) && forall i :: 0 <= i < |fields| ==> WellFormed(fields[i].value)
    case _ => true
  }

  // ---------------------------------------------------------------- the serialiser

  function DigitValue(c: char): nat
    requires IsDigit(c)
  {
    (c - '0') as nat
  }

  function Decimal(text: string): nat
    requires forall c :: c in text ==> IsDigit(c)
  {
    if text == "" then 0
    else
      assert text[|text| - 1] in text;
      assert IsDigit(text[|text| - 1]);
      Decimal(text[..|text| - 1]) * 10 + DigitValue(text[|text| - 1])
  }

  const MAX_INDEX: nat := 4_294_967_295

  /** Keys that a rebuilt object lists first, in numeric order. */
  predicate IsIndex(key: string) {
    && key != "" && (forall c :: c in key ==> IsDigit(c)) && (key == "0" || key[0] != '0')
    && Decimal(key) < MAX_INDEX
  }

  function Slot(f: Field): real {
    if IsIndex(f.key) then Decimal(f.key) as real else MAX_INDEX as real
  }

  function ByKey(collate: Collation): Field -> real {
    (f: Field) => collate(f.key)
  }

  /** Entries sorted by collation, then listed as a rebuilt object lists them. */
  function Listed(collate: Collation, fields: seq<Field>): seq<Field> {
    Sort(Slot, Sort(ByKey(collate), fields))
  }

  function CanonicalFields(collate: Collation, fields: seq<Field>): seq<Field>
    decreases fields, 0
  {
    seq(|fields|, i requires 0 <= i < |fields| => Field(fields[i].key, Canonical(collate, fields[i].value)))
  }

  function Canonical(collate: Collation, v: Json): Json
    decreases v, 1
  {
    match v
    case Arr(items) => Arr(seq(|items|, i requires 0 <= i < |items| => Canonical(collate, items[i])))
    case Obj(fields) => Obj(Listed(collate, CanonicalFields(collate, fields)))
    case _ => v
  }

  function Hex(n: nat): char
    requires n < 16
  {
    if n < 10 then '0' + n as char else 'a' + (n - 10) as char
  }

  /** Characters with a two-character escape, and its second character; other characters map to themselves. */
  function Short(c: char): char {
    if c as int == 8 then 'b'
    else if c as int == 9 then 't'
    else if c as int == 10 then 'n'
    else if c as int == 12 then 'f'
    else if c as int == 13 then 'r'
    else c
  }

  function Escape(c: char): string {
    if c == '\"' || c == '\\' || Short(c) != c then ['\\', Short(c)]
    else if c as int < 32 then ['\\', 'u', '0', '0', Hex(c as nat / 16), Hex(c as nat % 16)]
    else [c]
  }

  /** The rest of a string literal, closing quote included. */
  function StrTail(s: string): string {
    if s == "" then "\"" else Escape(s[0]) + StrTail(s[1..])
  }

  function Quote(s: string): string {
    "\"" + StrTail(s)
  }

  /** The items of an array, closing bracket included. */
  function Items(items: seq<Json>): string
    decreases items, 0
  {
    if items == [] then "]"
    else if |items| == 1 then Print(items[0]) + "]"
    else Print(items[0]) + ("," + Items(items[1..]))
  }

  function Entry(f: Field): string
    decreases f, 2
  {
    Quote(f.key) + (":" + Print(f.value))
  }

  /** The entries of an object, closing brace included. */
  function Entries(fields: seq<Field>): string
    decreases fields, 0
  {
    if fields == [] then "}"
    else if |fields| == 1 then Entry(fields[0]) + "}"
    else Entry(fields[0]) + ("," + Entries(fields[1..]))
  }

  function Print(v: Json): string
    decreases v, 1
  {
    match v
    case Null => "null"
    case Bool(b) => if b then "true" else "false"
    case Num(text) => text
    case Str(text) => Quote(text)
    case Arr(items) => "[" + Items(items)
    case Obj(fields) => "{" + Entries(fields)
  }

  function StableText(collate: Collation, v: Json): string {
    Print(Canonical(collate, v))
  }

  // ---------------------------------------------------------------- what a payload means

  /** A payload with the order of object keys forgotten at every depth. */
  datatype Value =
    | VNull
    | VBool(b: bool)
    | VNum(text: string)
    | VStr(text: string)
    | VArr(items: seq<Value>)
    | VObj(fields: map<string, Value>)

  function Keys(fields: seq<Field>): set<string> {
    set f | f in fields :: f.key
  }

  function Find(fields: seq<Field>, key: string): (f: Field)
    requires key in Keys(fields)
    ensures f in fields && f.key == key
  {
    if fields[0].key == key then fields[0]
    else
      assert key in Keys(fields[1..]);
      Find(fields[1..], key)
  }

  function Meaning(v: Json): Value
    decreases v
  {
    match v
    case Null => VNull
    case Bool(b) => VBool(b)
    case Num(text) => VNum(text)
    case Str(text) => VStr(text)
    case Arr(items) => VArr(seq(|items|, i requires 0 <= i < |items| => Meaning(items[i])))
    case Obj(fields) => VObj(map key | key in Keys(fields) :: Meaning(Find(fields, key).value))
  }
}
