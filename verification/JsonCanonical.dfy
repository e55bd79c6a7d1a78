/**
  The serialiser is canonical exactly for payloads in which no object has two keys that the
  collation ranks equal: those, and only those, keep their text when keys are reordered.
 */
module JsonCanonical {
  import opened StableSort
  import opened StableJson
  import opened JsonPrinting

  /** Two different keys that neither pass of the listing can tell apart. */
  predicate Tied(collate: Collation, f: Field, g: Field) {
    f.key != g.key && Slot(f) == Slot(g) && collate(f.key) == collate(g.key)
  }

  predicate Untied(collate: Collation, v: Json)
    decreases v
  {
    match v
    case Arr(items) => forall i :: 0 <= i < |items| ==> Untied(collate, items[i])
    case Obj(fields) =>
      && (forall i, j :: 0 <= i < j < |fields| ==> !Tied(collate, fields[i], fields[j]))
      && forall i :: 0 <= i < |fields| ==> Untied(collate, fields[i].value)
    case _ => true
  }

  // ---------------------------------------------------------------- entries as a set

  lemma FieldIndex(fields: seq<Field>, f: Field) returns (i: nat)
    requires f in fields
    ensures i < |fields| && fields[i] == f
  {
    i :| 0 <= i < |fields| && fields[i] == f;
  }

  lemma {:induction false} CountedOnce(fields: seq<Field>, f: Field)
    requires DistinctKeys(fields)
    ensures multiset(fields)[f] == if f in fields then 1 else 0
  {
    if fields != [] {
      var init, last := fields[..|fields| - 1], fields[|fields| - 1];
      assert fields == init + [last];
      CountedOnce(init, f);
    }
  }

  lemma CountedTwice(fields: seq<Field>, i: nat, j: nat)
    requires i < j < |fields| && fields[i] == fields[j]
    ensures multiset(fields)[fields[i]] >= 2
  {
    assert fields == fields[..j] + fields[j..];
    assert fields[..j][i] == fields[i] && fields[j..][0] == fields[i];
  }

  /** Distinct keys survive any rearrangement. */
  lemma DistinctPermuted(xs: seq<Field>, ys: seq<Field>)
    requires multiset(xs) == multiset(ys) && DistinctKeys(xs)
    ensures DistinctKeys(ys) && forall f :: f in xs <==> f in ys
  {
    forall f ensures f in xs <==> f in ys {
      assert f in multiset(xs) <==> f in multiset(ys);
    }
    forall i, j | 0 <= i < j < |ys| ensures ys[i].key != ys[j].key {
      var p := FieldIndex(xs, ys[i]);
      var q := FieldIndex(xs, ys[j]);
      if p == q {
        CountedOnce(xs, ys[i]);
        CountedTwice(ys, i, j);
      }
    }
  }

  lemma SameEntries(xs: seq<Field>, ys: seq<Field>)
    requires DistinctKeys(xs) && DistinctKeys(ys) && forall f :: f in xs <==> f in ys
    ensures multiset(xs) == multiset(ys)
  {
    forall f ensures multiset(xs)[f] == multiset(ys)[f] {
      CountedOnce(xs, f);
      CountedOnce(ys, f);
    }
  }

  /** The one entry with a given key. */
  lemma FoundEntry(fields: seq<Field>, i: nat)
    requires DistinctKeys(fields) && i < |fields|
    ensures fields[i].key in Keys(fields) && Find(fields, fields[i].key) == fields[i]
  {
    assert fields[i] in fields;
    var j := FieldIndex(fields, Find(fields, fields[i].key));
  }

  // ---------------------------------------------------------------- the listing

  lemma ListedPermutes(collate: Collation, fields: seq<Field>)
    ensures multiset(Listed(collate, fields)) == multiset(fields)
  {
  }

  ghost function Listing(collate: Collation, le: (Field, Field) -> bool): (Field, Field) -> bool {
    Then(Slot, Then(ByKey(collate), le))
  }

  lemma ListedPairwise(collate: Collation, fields: seq<Field>, le: (Field, Field) -> bool)
    requires Pairwise(le, fields)
    ensures Pairwise(Listing(collate, le), Listed(collate, fields))
  {
    SortPairwise(ByKey(collate), le, fields);
    SortPairwise(Slot, Then(ByKey(collate), le), Sort(ByKey(collate), fields));
  }

  ghost function Any(): (Field, Field) -> bool {
    (f, g) => true
  }

  ghost predicate NoTies(collate: Collation, fields: seq<Field>) {
    forall f, g :: f in fields && g in fields ==> !Tied(collate, f, g)
  }

  lemma NoTiesAntisymmetric(collate: Collation, xs: seq<Field>)
    requires DistinctKeys(xs) && NoTies(collate, xs)
    ensures AntisymmetricOn(Listing(collate, Any()), xs)
  {
    var le := Listing(collate, Any());
    forall f, g | f in xs && g in xs && le(f, g) && le(g, f) ensures f == g {
      assert !Tied(collate, f, g);
      var i := FieldIndex(xs, f);
      var j := FieldIndex(xs, g);
    }
  }

  /** Without ties the listing depends only on which entries there are. */
  lemma ListedCanonical(collate: Collation, xs: seq<Field>, ys: seq<Field>)
    requires multiset(xs) == multiset(ys) && DistinctKeys(xs) && NoTies(collate, xs)
    ensures Listed(collate, xs) == Listed(collate, ys)
  {
    var l, r := Listed(collate, xs), Listed(collate, ys);
    ListedPairwise(collate, xs, Any());
    ListedPairwise(collate, ys, Any());
    ListedPermutes(collate, xs);
    ListedPermutes(collate, ys);
    DistinctPermuted(xs, l);
    NoTiesAntisymmetric(collate, l);
    StrictOrderUnique(Listing(collate, Any()), l, r);
  }

  // ---------------------------------------------------------------- canonical form keeps the meaning

  /** Every key of the fields names the entry at its position. */
  lemma KeyIndex(fields: seq<Field>, key: string) returns (i: nat)
    requires key in Keys(fields)
    ensures i < |fields| && fields[i].key == key
  {
    i := FieldIndex(fields, Find(fields, key));
  }

  lemma SameKeys(xs: seq<Field>, ys: seq<Field>)
    requires |xs| == |ys| && forall i :: 0 <= i < |xs| ==> xs[i].key == ys[i].key
    ensures Keys(xs) == Keys(ys)
  {
    forall key ensures key in Keys(xs) <==> key in Keys(ys) {
      if key in Keys(xs) {
        var i := KeyIndex(xs, key);
        assert ys[i] in ys;
      }
      if key in Keys(ys) {
        var i := KeyIndex(ys, key);
        assert xs[i] in xs;
      }
    }
  }

  lemma CanonicalFieldsKeys(collate: Collation, fields: seq<Field>)
    ensures Keys(CanonicalFields(collate, fields)) == Keys(fields)
    ensures DistinctKeys(fields) ==> DistinctKeys(CanonicalFields(collate, fields))
  {
    SameKeys(CanonicalFields(collate, fields), fields);
  }

  lemma KeysPermuted(xs: seq<Field>, ys: seq<Field>)
    requires forall f :: f in xs <==> f in ys
    ensures Keys(xs) == Keys(ys)
  {
  }

  lemma EntriesKept(collate: Collation, fields: seq<Field>)
    requires DistinctKeys(fields)
    ensures var l := Listed(collate, CanonicalFields(collate, fields));
      && DistinctKeys(l) && Keys(l) == Keys(fields)
      && (forall f :: f in l <==> f in CanonicalFields(collate, fields))
      && forall i :: 0 <= i < |fields|
          ==> Find(l, fields[i].key) == Field(fields[i].key, Canonical(collate, fields[i].value))
  {
    var cf := CanonicalFields(collate, fields);
    var l := Listed(collate, cf);
    CanonicalFieldsKeys(collate, fields);
    ListedPermutes(collate, cf);
    DistinctPermuted(cf, l);
    KeysPermuted(cf, l);
    forall i | 0 <= i < |fields| ensures Find(l, fields[i].key) == cf[i] {
      assert cf[i] in cf;
      var j := FieldIndex(l, cf[i]);
      FoundEntry(l, j);
    }
  }

  predicate Kept(collate: Collation, v: Json) {
    WellFormed(Canonical(collate, v)) && Meaning(Canonical(collate, v)) == Meaning(v)
  }

  lemma FieldsWellFormed(collate: Collation, fields: seq<Field>, l: seq<Field>)
    requires DistinctKeys(l) && forall f :: f in l ==> f in CanonicalFields(collate, fields)
    requires forall i :: 0 <= i < |fields| ==> Kept(collate, fields[i].value)
    ensures WellFormed(Obj(l))
  {
    var cf := CanonicalFields(collate, fields);
    forall i | 0 <= i < |l| ensures WellFormed(l[i].value) {
      var j := FieldIndex(cf, l[i]);
      assert Kept(collate, fields[j].value);
    }
  }

  lemma SameFields(xs: seq<Field>, ys: seq<Field>)
    requires Keys(xs) == Keys(ys)
    requires forall key :: key in Keys(ys) ==> Meaning(Find(xs, key).value) == Meaning(Find(ys, key).value)
    ensures Meaning(Obj(xs)) == Meaning(Obj(ys))
  {
    assert Meaning(Obj(xs)).fields == Meaning(Obj(ys)).fields;
  }

  lemma FieldsMeaning(collate: Collation, fields: seq<Field>, l: seq<Field>)
    requires Keys(l) == Keys(fields)
    requires forall i :: 0 <= i < |fields| ==> Kept(collate, fields[i].value)
    requires forall i :: 0 <= i < |fields| ==>
      fields[i].key in Keys(l) && Find(l, fields[i].key).value == Canonical(collate, fields[i].value)
    ensures Meaning(Obj(l)) == Meaning(Obj(fields))
  {
    forall key | key in Keys(fields) ensures Meaning(Find(l, key).value) == Meaning(Find(fields, key).value) {
      var i := FieldIndex(fields, Find(fields, key));
      assert Kept(collate, fields[i].value);
    }
    SameFields(l, fields);
  }

  lemma ObjectKept(collate: Collation, fields: seq<Field>)
    requires DistinctKeys(fields) && forall i :: 0 <= i < |fields| ==> Kept(collate, fields[i].value)
    ensures Kept(collate, Obj(fields))
  {
    var l := Listed(collate, CanonicalFields(collate, fields));
    EntriesKept(collate, fields);
    FieldsWellFormed(collate, fields, l);
    FieldsMeaning(collate, fields, l);
  }

  lemma ArrayKept(collate: Collation, items: seq<Json>)
    requires forall i :: 0 <= i < |items| ==> Kept(collate, items[i])
    ensures Kept(collate, Arr(items))
  {
    var c := Canonical(collate, Arr(items));
    assert forall i :: 0 <= i < |items| ==> c.items[i] == Canonical(collate, items[i]) && Kept(collate, items[i]);
  }

  lemma {:induction false} CanonicalKeepsMeaning(collate: Collation, v: Json)
    requires WellFormed(v)
    ensures Kept(collate, v)
    decreases v
  {
    match v
    case Arr(items) =>
      forall i | 0 <= i < |items| ensures Kept(collate, items[i]) {
        CanonicalKeepsMeaning(collate, items[i]);
      }
      ArrayKept(collate, items);
    case Obj(fields) =>
      forall i | 0 <= i < |fields| ensures Kept(collate, fields[i].value) {
        CanonicalKeepsMeaning(collate, fields[i].value);
      }
      ObjectKept(collate, fields);
    case _ =>
  }

  // ---------------------------------------------------------------- equal meaning, equal text

  lemma MeaningOfField(fields: seq<Field>, i: nat)
    requires DistinctKeys(fields) && i < |fields|
    ensures fields[i].key in Meaning(Obj(fields)).fields
    ensures Meaning(Obj(fields)).fields[fields[i].key] == Meaning(fields[i].value)
  {
    FoundEntry(fields, i);
  }

  /** An entry of one object has a counterpart in any object with the same meaning. */
  lemma Counterpart(xs: seq<Field>, ys: seq<Field>, i: nat) returns (j: nat)
    requires DistinctKeys(xs) && DistinctKeys(ys) && Meaning(Obj(xs)) == Meaning(Obj(ys)) && i < |xs|
    ensures j < |ys| && ys[j].key == xs[i].key && Meaning(ys[j].value) == Meaning(xs[i].value)
  {
    MeaningOfField(xs, i);
    assert xs[i].key in Keys(ys);
    j := FieldIndex(ys, Find(ys, xs[i].key));
    MeaningOfField(ys, j);
  }

  lemma SameFormListed(collate: Collation, xs: seq<Field>, ys: seq<Field>)
    requires DistinctKeys(xs) && DistinctKeys(ys)
    requires forall i, j :: 0 <= i < j < |xs| ==> !Tied(collate, xs[i], xs[j])
    requires forall i :: 0 <= i < |xs| ==> CanonicalFields(collate, xs)[i] in CanonicalFields(collate, ys)
    requires forall j :: 0 <= j < |ys| ==> CanonicalFields(collate, ys)[j] in CanonicalFields(collate, xs)
    ensures Canonical(collate, Obj(xs)) == Canonical(collate, Obj(ys))
  {
    var cx, cy := CanonicalFields(collate, xs), CanonicalFields(collate, ys);
    CanonicalFieldsKeys(collate, xs);
    CanonicalFieldsKeys(collate, ys);
    SameEntries(cx, cy);
    UntiedFields(collate, xs);
    ListedCanonical(collate, cx, cy);
  }

  lemma {:induction false} SameMeaningSameForm(collate: Collation, v: Json, w: Json)
    requires WellFormed(v) && WellFormed(w) && Untied(collate, v) && Meaning(v) == Meaning(w)
    ensures Canonical(collate, v) == Canonical(collate, w)
    decreases v
  {
    match v
    case Arr(items) =>
      forall i | 0 <= i < |items| ensures Canonical(collate, items[i]) == Canonical(collate, w.items[i]) {
        assert Meaning(v).items[i] == Meaning(w).items[i];
        SameMeaningSameForm(collate, items[i], w.items[i]);
      }
    case Obj(xs) =>
      var ys := w.fields;
      var cx, cy := CanonicalFields(collate, xs), CanonicalFields(collate, ys);
      forall i | 0 <= i < |xs| ensures cx[i] in cy {
        var j := Counterpart(xs, ys, i);
        SameMeaningSameForm(collate, xs[i].value, ys[j].value);
        assert cy[j] == cx[i];
      }
      forall j | 0 <= j < |ys| ensures cy[j] in cx {
        var i := Counterpart(ys, xs, j);
        SameMeaningSameForm(collate, xs[i].value, ys[j].value);
        assert cx[i] == cy[j];
      }
      SameFormListed(collate, xs, ys);
    case _ =>
  }

  lemma TiedByKey(collate: Collation, f: Field, g: Field, x: Field, y: Field)
    requires f.key == x.key && g.key == y.key
    ensures Tied(collate, f, g) <==> Tied(collate, x, y)
  {
  }

  lemma TiedSymmetric(collate: Collation, f: Field, g: Field)
    ensures Tied(collate, f, g) <==> Tied(collate, g, f)
  {
  }

  lemma UntiedFields(collate: Collation, xs: seq<Field>)
    requires forall i, j :: 0 <= i < j < |xs| ==> !Tied(collate, xs[i], xs[j])
    ensures NoTies(collate, CanonicalFields(collate, xs))
  {
    var cx := CanonicalFields(collate, xs);
    forall f, g | f in cx && g in cx ensures !Tied(collate, f, g) {
      var i := FieldIndex(cx, f);
      var j := FieldIndex(cx, g);
      TiedByKey(collate, f, g, xs[i], xs[j]);
      TiedSymmetric(collate, xs[i], xs[j]);
    }
  }

  /**
    For payloads without tied keys, two payloads have the same text exactly when they are equal up to
    the order of object keys at every depth; array order is part of what they mean.
   */
  lemma StableTextDecidesMeaning(collate: Collation, v: Json, w: Json)
    requires WellFormed(v) && WellFormed(w) && Untied(collate, v)
    ensures StableText(collate, v) == StableText(collate, w) <==> Meaning(v) == Meaning(w)
  {
    CanonicalKeepsMeaning(collate, v);
    CanonicalKeepsMeaning(collate, w);
    if StableText(collate, v) == StableText(collate, w) {
      PrintInjective(Canonical(collate, v), Canonical(collate, w));
    } else if Meaning(v) == Meaning(w) {
      SameMeaningSameForm(collate, v, w);
    }
  }

  // ---------------------------------------------------------------- ties break it

  ghost function InOrderOf(fields: seq<Field>): (Field, Field) -> bool {
    (f, g) => exists i, j :: 0 <= i < j < |fields| && fields[i] == f && fields[j] == g
  }

  lemma TieDecidedByOrder(collate: Collation, le: (Field, Field) -> bool, f: Field, g: Field)
    requires Tied(collate, f, g) && Listing(collate, le)(f, g)
    ensures le(f, g)
  {
    assert ByKey(collate)(f) == ByKey(collate)(g);
  }

  lemma OrderIsOneWay(fields: seq<Field>, i: nat, j: nat)
    requires DistinctKeys(fields) && i < j < |fields|
    ensures !InOrderOf(fields)(fields[j], fields[i])
  {
  }

  lemma OrderHolds(fields: seq<Field>)
    ensures Pairwise(InOrderOf(fields), fields)
  {
  }

  lemma PairRelated(le: (Field, Field) -> bool, l: seq<Field>, p: nat, q: nat)
    requires Pairwise(le, l) && p < q < |l|
    ensures le(l[p], l[q])
  {
  }

  /** Tied entries are listed in the order in which they came. */
  lemma TiesKeepOrder(collate: Collation, fields: seq<Field>, i: nat, j: nat, p: nat, q: nat)
    requires DistinctKeys(fields) && i < j < |fields| && Tied(collate, fields[i], fields[j])
    requires var l := Listed(collate, fields); p < |l| && q < |l| && l[p] == fields[i] && l[q] == fields[j]
    ensures p < q
  {
    var le := InOrderOf(fields);
    OrderHolds(fields);
    ListedPairwise(collate, fields, le);
    OrderIsOneWay(fields, i, j);
    if q < p {
      PairRelated(Listing(collate, le), Listed(collate, fields), q, p);
      TieDecidedByOrder(collate, le, fields[j], fields[i]);
    }
  }

  function Swap(fields: seq<Field>, i: nat, j: nat): seq<Field>
    requires i < j < |fields|
  {
    fields[i := fields[j]][j := fields[i]]
  }

  lemma Exchanged(a: seq<Field>, f: Field, b: seq<Field>, g: Field, c: seq<Field>)
    ensures multiset(a + [f] + b + [g] + c) == multiset(a + [g] + b + [f] + c)
  {
  }

  lemma SwapEntriesSame(fields: seq<Field>, i: nat, j: nat)
    requires i < j < |fields|
    ensures multiset(Swap(fields, i, j)) == multiset(fields)
  {
    var a, b, c := fields[..i], fields[i + 1..j], fields[j + 1..];
    assert fields == a + [fields[i]] + b + [fields[j]] + c;
    assert Swap(fields, i, j) == a + [fields[j]] + b + [fields[i]] + c;
    Exchanged(a, fields[i], b, fields[j], c);
  }

  lemma FindPermuted(xs: seq<Field>, ys: seq<Field>, key: string)
    requires DistinctKeys(xs) && (forall f :: f in xs <==> f in ys) && key in Keys(xs) && key in Keys(ys)
    ensures Find(xs, key) == Find(ys, key)
  {
    var i := FieldIndex(xs, Find(ys, key));
    FoundEntry(xs, i);
  }

  lemma SwapKeepsMeaning(fields: seq<Field>, i: nat, j: nat)
    requires i < j < |fields| && WellFormed(Obj(fields))
    ensures WellFormed(Obj(Swap(fields, i, j))) && Meaning(Obj(Swap(fields, i, j))) == Meaning(Obj(fields))
  {
    var ys := Swap(fields, i, j);
    SwapEntriesSame(fields, i, j);
    DistinctPermuted(fields, ys);
    KeysPermuted(ys, fields);
    forall key | key in Keys(fields) ensures Find(ys, key) == Find(fields, key) {
      FindPermuted(fields, ys, key);
    }
    SameFields(ys, fields);
    forall n | 0 <= n < |ys| ensures WellFormed(ys[n].value) {
      var m := FieldIndex(fields, ys[n]);
    }
  }

  lemma CanonicalTies(collate: Collation, fields: seq<Field>, i: nat, j: nat)
    requires DistinctKeys(fields) && i < |fields| && j < |fields| && Tied(collate, fields[i], fields[j])
    ensures var cx := CanonicalFields(collate, fields);
      DistinctKeys(cx) && |cx| == |fields| && Tied(collate, cx[i], cx[j])
  {
    var cx := CanonicalFields(collate, fields);
    assert Slot(cx[i]) == Slot(fields[i]) && Slot(cx[j]) == Slot(fields[j]);
  }

  lemma SwapListsDiffer(collate: Collation, xs: seq<Field>, ys: seq<Field>, i: nat, j: nat)
    requires DistinctKeys(xs) && DistinctKeys(ys) && i < j < |xs| == |ys|
    requires Tied(collate, xs[i], xs[j]) && ys[i] == xs[j] && ys[j] == xs[i]
    ensures Listed(collate, xs) != Listed(collate, ys)
  {
    var l := Listed(collate, xs);
    ListedPermutes(collate, xs);
    DistinctPermuted(xs, l);
    var p := FieldIndex(l, xs[i]);
    var q := FieldIndex(l, xs[j]);
    TiesKeepOrder(collate, xs, i, j, p, q);
    if l == Listed(collate, ys) {
      TiesKeepOrder(collate, ys, i, j, q, p);
    }
  }

  lemma SwapEntries(collate: Collation, fields: seq<Field>, i: nat, j: nat)
    requires i < j < |fields| && DistinctKeys(fields)
    ensures var ys := Swap(fields, i, j); var cx, cy := CanonicalFields(collate, fields), CanonicalFields(collate, ys);
      DistinctKeys(ys) && |ys| == |fields| && cy[i] == cx[j] && cy[j] == cx[i]
  {
  }

  lemma TiedSwapDiffers(collate: Collation, fields: seq<Field>, i: nat, j: nat)
    requires i < j < |fields| && DistinctKeys(fields) && Tied(collate, fields[i], fields[j])
    ensures Canonical(collate, Obj(fields)) != Canonical(collate, Obj(Swap(fields, i, j)))
  {
    var cx, cy := CanonicalFields(collate, fields), CanonicalFields(collate, Swap(fields, i, j));
    SwapEntries(collate, fields, i, j);
    CanonicalTies(collate, fields, i, j);
    assert DistinctKeys(cy);
    SwapListsDiffer(collate, cx, cy, i, j);
  }

  /** Replacing one value by another with the same meaning but a different form. */
  lemma ReplaceItem(collate: Collation, items: seq<Json>, i: nat, c: Json)
    requires i < |items| && WellFormed(Arr(items)) && WellFormed(c) && Meaning(c) == Meaning(items[i])
    requires Canonical(collate, c) != Canonical(collate, items[i])
    ensures var w := Arr(items[i := c]);
      WellFormed(w) && Meaning(w) == Meaning(Arr(items)) && Canonical(collate, w) != Canonical(collate, Arr(items))
  {
    var w := Arr(items[i := c]);
    assert Canonical(collate, w).items[i] == Canonical(collate, c);
    assert Canonical(collate, Arr(items)).items[i] == Canonical(collate, items[i]);
    assert Meaning(w).items == Meaning(Arr(items)).items;
  }

  lemma ReplaceKeepsKeys(fields: seq<Field>, i: nat, c: Json)
    requires i < |fields| && DistinctKeys(fields)
    ensures var ys := fields[i := Field(fields[i].key, c)];
      && DistinctKeys(ys) && Keys(ys) == Keys(fields)
      && forall n :: 0 <= n < |fields| ==> Find(ys, fields[n].key) == ys[n] && Find(fields, fields[n].key) == fields[n]
  {
    var ys := fields[i := Field(fields[i].key, c)];
    SameKeys(ys, fields);
    forall n | 0 <= n < |fields|
      ensures Find(ys, fields[n].key) == ys[n] && Find(fields, fields[n].key) == fields[n]
    {
      FoundEntry(ys, n);
      FoundEntry(fields, n);
    }
  }

  lemma ReplaceWellFormed(fields: seq<Field>, i: nat, c: Json)
    requires i < |fields| && WellFormed(Obj(fields)) && WellFormed(c)
    ensures WellFormed(Obj(fields[i := Field(fields[i].key, c)]))
  {
    var ys := fields[i := Field(fields[i].key, c)];
    forall n | 0 <= n < |ys| ensures WellFormed(ys[n].value) {
      assert n != i ==> ys[n] == fields[n];
    }
  }

  lemma ReplaceMeaning(fields: seq<Field>, i: nat, c: Json)
    requires i < |fields| && DistinctKeys(fields) && Meaning(c) == Meaning(fields[i].value)
    ensures Meaning(Obj(fields[i := Field(fields[i].key, c)])) == Meaning(Obj(fields))
  {
    var ys := fields[i := Field(fields[i].key, c)];
    ReplaceKeepsKeys(fields, i, c);
    forall k | k in Keys(fields) ensures Meaning(Find(ys, k).value) == Meaning(Find(fields, k).value) {
      var n := FieldIndex(fields, Find(fields, k));
      assert Find(ys, k) == ys[n];
    }
    SameFields(ys, fields);
  }

  predicate HoldsAt(v: Json, key: string, value: Json) {
    v.Obj? && key in Keys(v.fields) && Find(v.fields, key).value == value
  }

  lemma FormAt(collate: Collation, fields: seq<Field>, i: nat, key: string, value: Json)
    requires i < |fields| && DistinctKeys(fields) && fields[i] == Field(key, value)
    ensures HoldsAt(Canonical(collate, Obj(fields)), key, Canonical(collate, value))
  {
    EntriesKept(collate, fields);
    assert fields[i] in fields;
  }

  lemma DifferAt(v: Json, w: Json, key: string, a: Json, b: Json)
    requires HoldsAt(v, key, a) && HoldsAt(w, key, b) && a != b
    ensures v != w
  {
  }

  lemma ReplaceForm(collate: Collation, fields: seq<Field>, i: nat, c: Json)
    requires i < |fields| && DistinctKeys(fields) && Canonical(collate, c) != Canonical(collate, fields[i].value)
    ensures Canonical(collate, Obj(fields[i := Field(fields[i].key, c)])) != Canonical(collate, Obj(fields))
  {
    var ys, key := fields[i := Field(fields[i].key, c)], fields[i].key;
    FormAt(collate, ys, i, key, c);
    FormAt(collate, fields, i, key, fields[i].value);
    DifferAt(Canonical(collate, Obj(ys)), Canonical(collate, Obj(fields)), key,
             Canonical(collate, c), Canonical(collate, fields[i].value));
  }

  /** A payload with a tie somewhere has a reordering that keeps its meaning and changes its form. */
  lemma {:induction false} TiesBreakForm(collate: Collation, v: Json) returns (w: Json)
    requires WellFormed(v) && !Untied(collate, v)
    ensures WellFormed(w) && Meaning(w) == Meaning(v) && Canonical(collate, w) != Canonical(collate, v)
    decreases v
  {
    match v
    case Arr(items) =>
      var i :| 0 <= i < |items| && !Untied(collate, items[i]);
      var c := TiesBreakForm(collate, items[i]);
      w := Arr(items[i := c]);
      ReplaceItem(collate, items, i, c);
    case Obj(fields) =>
      if i, j :| 0 <= i < j < |fields| && Tied(collate, fields[i], fields[j]) {
        w := Obj(Swap(fields, i, j));
        SwapKeepsMeaning(fields, i, j);
        TiedSwapDiffers(collate, fields, i, j);
      } else {
        var i :| 0 <= i < |fields| && !Untied(collate, fields[i].value);
        var c := TiesBreakForm(collate, fields[i].value);
        w := Obj(fields[i := Field(fields[i].key, c)]);
        ReplaceWellFormed(fields, i, c);
        ReplaceMeaning(fields, i, c);
        ReplaceForm(collate, fields, i, c);
      }
  }

  /** The exact condition: a payload's text is independent of key order if and only if no keys tie. */
  lemma CanonicalExactly(collate: Collation, v: Json)
    requires WellFormed(v)
    ensures Untied(collate, v) <==>
      forall w :: WellFormed(w) && Meaning(w) == Meaning(v) ==> StableText(collate, w) == StableText(collate, v)
  {
    if Untied(collate, v) {
      forall w | WellFormed(w) && Meaning(w) == Meaning(v) ensures StableText(collate, w) == StableText(collate, v) {
        StableTextDecidesMeaning(collate, v, w);
      }
    } else {
      var w := TiesBreakForm(collate, v);
      CanonicalKeepsMeaning(collate, v);
      CanonicalKeepsMeaning(collate, w);
      if StableText(collate, w) == StableText(collate, v) {
        PrintInjective(Canonical(collate, w), Canonical(collate, v));
      }
    }
  }
}
