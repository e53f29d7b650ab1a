/** Go values as reflection sees them, and how the formatter selects and
    classifies the fields of a struct. */
module FormatterModel {
  import opened Common
  import opened Text

  /** What a struct field declares: its name, whether it is exported and
      embedded, and its jsonschema and json tags. */
  datatype Tag = Tag(name: string, exported: bool, anonymous: bool, title: string, json: string)

  datatype Ty =
    | TScalar
    | TPtr(elem: Ty)
    | TIface
    | TSlice(elem: Ty)
    | TMap
    | TStruct(fields: seq<FieldTy>)

  datatype FieldTy = FieldTy(tag: Tag, ty: Ty)

  /** A scalar carries the text that formatScalar prints for it. Pointers and
      interfaces are references, nil or not; slices and arrays are sequences. */
  datatype Value =
    | Scalar(text: string, zero: bool)
    | NilRef(iface: bool)
    | Ref(iface: bool, target: Value)
    | Slice(elem: Ty, elems: seq<Value>, isArray: bool, isNil: bool)
    | Map(entries: seq<MapEntry>, isNil: bool)
    | Struct(fields: seq<Field>)

  /** sprint is what fmt.Sprint prints for the key; only keys that are not
      scalars, such as structs and arrays, are printed that way. */
  datatype MapEntry = MapEntry(key: Value, val: Value, sprint: string)

  datatype Field = Field(tag: Tag, value: Value)

  function Size(v: Value): nat {
    match v
    case Scalar(_, _) => 1
    case NilRef(_) => 1
    case Ref(_, t) => 1 + Size(t)
    case Slice(_, elems, _, _) => 1 + ElemsSize(elems)
    case Map(entries, _) => 1 + EntriesSize(entries)
    case Struct(fields) => 1 + FieldsSize(fields)
  }

  function ElemsSize(es: seq<Value>): nat { if es == [] then 0 else Size(es[0]) + ElemsSize(es[1..]) }

  function EntrySize(e: MapEntry): nat { Size(e.key) + Size(e.val) }

  function EntriesSize(es: seq<MapEntry>): nat { if es == [] then 0 else EntrySize(es[0]) + EntriesSize(es[1..]) }

  function FieldSize(f: Field): nat { Size(f.value) }

  function FieldsSize(fs: seq<Field>): nat { if fs == [] then 0 else FieldSize(fs[0]) + FieldsSize(fs[1..]) }

  lemma {:induction false} FieldsSizeAppend(a: seq<Field>, b: seq<Field>)
    ensures FieldsSize(a + b) == FieldsSize(a) + FieldsSize(b)
  {
    if a == [] {
      assert a + b == b;
    } else {
      assert (a + b)[1..] == a[1..] + b;
      FieldsSizeAppend(a[1..], b);
    }
  }

  /** Follows references; None is reflect's invalid value. */
  function Indirect(v: Value): (r: Option<Value>)
    ensures r.Some? ==> Size(r.value) <= Size(v) && !r.value.Ref? && !r.value.NilRef?
  {
    match v
    case NilRef(_) => None
    case Ref(_, t) => Indirect(t)
    case _ => Some(v)
  }

  /** reflect.Value.IsZero. */
  predicate IsZero(v: Value) {
    match v
    case Scalar(_, zero) => zero
    case NilRef(_) => true
    case Ref(_, _) => false
    case Slice(_, elems, isArray, isNil) => if isArray then forall i | 0 <= i < |elems| :: IsZero(elems[i]) else isNil
    case Map(_, isNil) => isNil
    case Struct(fields) => forall i | 0 <= i < |fields| :: IsZero(fields[i].value)
  }

  predicate Omitted(json: string, v: Value) {
    || (v.Slice? && |v.elems| == 0) || (v.Map? && |v.entries| == 0)
    || (Index(json, ",omitempty").Some? && IsZero(v))
  }

  function StripPtr(t: Ty): Ty { if t.TPtr? then StripPtr(t.elem) else t }

  predicate IsBlock(v: Value) { v.Struct? || (v.Slice? && StripPtr(v.elem).TStruct?) }

  // ---- Selecting fields ----

  datatype Item = Item(title: string, v: Value)

  /** An embedded struct, possibly behind pointers, without a label. */
  predicate Embeds(f: Field) {
    f.tag.exported && f.tag.anonymous && f.tag.title == "" && Indirect(f.value).Some? && Indirect(f.value).value.Struct?
  }

  /** The fields an embedded struct brings with it. */
  function Promoted(f: Field): (r: seq<Field>)
    requires Embeds(f)
    ensures FieldsSize(r) < FieldSize(f)
  {
    Indirect(f.value).value.fields
  }

  /** What one field that embeds nothing contributes. */
  function ItemOf(f: Field): seq<Item> {
    if !f.tag.exported || f.tag.title == "" then []
    else
      match Indirect(f.value)
      case None => []
      case Some(v) => if Omitted(f.tag.json, v) then [] else [Item(f.tag.title, v)]
  }

  /** A field without a label or with nil in it is not printed; nor an empty
      slice or map; nor a zero value whose JSON tag says omitempty. Any other
      exported field is, under its label. */
  lemma PrintedExactly(f: Field)
    ensures ItemOf(f) == [] <==>
            || !f.tag.exported || f.tag.title == "" || Indirect(f.value).None?
            || (Indirect(f.value).value.Slice? && Indirect(f.value).value.elems == [])
            || (Indirect(f.value).value.Map? && Indirect(f.value).value.entries == [])
            || ((exists a, b :: f.tag.json == a + ",omitempty" + b) && IsZero(Indirect(f.value).value))
    ensures ItemOf(f) != [] ==> ItemOf(f) == [Item(f.tag.title, Indirect(f.value).value)]
  {
    ContainsMeans(f.tag.json, ",omitempty");
  }

  /** strings.Contains. */
  lemma ContainsMeans(s: string, sub: string)
    ensures Index(s, sub).Some? <==> exists a, b :: s == a + sub + b
  {
    if Index(s, sub).Some? {
      var i := Index(s, sub).value;
      assert s == s[..i] + sub + s[i + |sub|..];
    }
    if a, b :| s == a + sub + b { SubAt(a, sub, b); }
  }

  lemma SubAt(a: string, sub: string, b: string)
    ensures sub <= (a + sub + b)[|a|..]
  {
    assert (a + sub + b)[|a|..] == sub + b;
  }

  /** Structs, and slices or arrays of structs or of pointers to structs, are
      blocks. */
  lemma BlocksExactly(fs: seq<Field>, elem: Ty, elems: seq<Value>, isArray: bool, isNil: bool)
    ensures IsBlock(Struct(fs))
    ensures IsBlock(Slice(elem, elems, isArray, isNil)) <==> exists n: nat, ts :: PointsTo(elem, n, ts)
    ensures forall v: Value :: v.Scalar? || v.Map? || v.Ref? || v.NilRef? ==> !IsBlock(v)
  {
    StripMeans(elem);
  }

  function Pointers(n: nat, t: Ty): Ty { if n == 0 then t else TPtr(Pointers(n - 1, t)) }

  /** A struct type behind n pointers. */
  predicate PointsTo(t: Ty, n: nat, ts: seq<FieldTy>) { t == Pointers(n, TStruct(ts)) }

  lemma OnePointer(e: Ty, n: nat, ts: seq<FieldTy>)
    ensures PointsTo(TPtr(e), n + 1, ts) <==> PointsTo(e, n, ts)
    ensures !PointsTo(TPtr(e), 0, ts)
  {
  }

  lemma NoPointer(t: Ty, n: nat, ts: seq<FieldTy>)
    requires !t.TPtr?
    ensures PointsTo(t, n, ts) <==> n == 0 && t == TStruct(ts)
  {
  }

  lemma {:induction false} StripMeans(t: Ty)
    ensures StripPtr(t).TStruct? <==> exists n: nat, ts :: PointsTo(t, n, ts)
  {
    if t.TPtr? {
      StripMeans(t.elem);
      if n: nat, ts :| PointsTo(t.elem, n, ts) { OnePointer(t.elem, n, ts); }
      if n: nat, ts :| PointsTo(t, n, ts) {
        OnePointer(t.elem, if n == 0 then 0 else n - 1, ts);
        assert PointsTo(t.elem, n - 1, ts);
      }
    } else {
      forall n: nat, ts ensures PointsTo(t, n, ts) <==> n == 0 && t == TStruct(ts) { NoPointer(t, n, ts); }
      if t.TStruct? { assert PointsTo(t, 0, t.fields); }
    }
  }

  type Items = (seq<Item>, seq<Item>)

  function Plus(a: Items, b: Items): Items { (a.0 + b.0, a.1 + b.1) }

  lemma PlusLaws(a: Items, b: Items, c: Items)
    ensures Plus(Plus(a, b), c) == Plus(a, Plus(b, c))
    ensures Plus(a, ([], [])) == a && Plus(([], []), a) == a
  {
    assert (a.0 + b.0) + c.0 == a.0 + (b.0 + c.0) && (a.1 + b.1) + c.1 == a.1 + (b.1 + c.1);
    assert a.0 + [] == a.0 && a.1 + [] == a.1 && [] + a.0 == a.0 && [] + a.1 == a.1;
  }

  /** What collectItems returns: the flat items and the block items. */
  function Collect(fs: seq<Field>): Items
    decreases FieldsSize(fs), |fs|
  {
    if fs == [] then ([], [])
    else
      var rest := Collect(fs[1..]);
      if Embeds(fs[0]) then Plus(Collect(Promoted(fs[0])), rest)
      else Plus(Partition(ItemOf(fs[0])), rest)
  }

  function Filter(items: seq<Item>, blocks: bool): seq<Item> {
    if items == [] then []
    else (if IsBlock(items[0].v) == blocks then [items[0]] else []) + Filter(items[1..], blocks)
  }

  /** Flat items first, then blocks, each in the order given. */
  function Partition(items: seq<Item>): Items { (Filter(items, false), Filter(items, true)) }

  lemma {:induction false} CollectAppend(a: seq<Field>, b: seq<Field>)
    ensures Collect(a + b) == Plus(Collect(a), Collect(b))
    decreases |a|
  {
    if a == [] {
      assert a + b == b;
      PlusLaws(Collect(b), Collect(b), Collect(b));
    } else {
      assert (a + b)[1..] == a[1..] + b;
      CollectAppend(a[1..], b);
      var head := if Embeds(a[0]) then Collect(Promoted(a[0])) else Partition(ItemOf(a[0]));
      PlusLaws(head, Collect(a[1..]), Collect(b));
    }
  }

  lemma PartitionOne(f: Field)
    ensures |ItemOf(f)| <= 1
    ensures Partition(ItemOf(f)) ==
            if ItemOf(f) != [] && IsBlock(ItemOf(f)[0].v) then ([], ItemOf(f)) else (ItemOf(f), [])
  {
    if ItemOf(f) != [] {
      var it := ItemOf(f)[0];
      assert ItemOf(f) == [it] && [it][1..] == [];
      assert Filter([it], false) == if IsBlock(it.v) then [] else [it];
      assert Filter([it], true) == if IsBlock(it.v) then [it] else [];
    }
  }

  lemma CollectOne(f: Field)
    ensures Collect([f]) == if Embeds(f) then Collect(Promoted(f)) else Partition(ItemOf(f))
  {
    var head := if Embeds(f) then Collect(Promoted(f)) else Partition(ItemOf(f));
    PlusLaws(head, head, head);
  }

  /** The source's loop, with its recursion into embedded structs. */
  method CollectItems(fs: seq<Field>) returns (flat: seq<Item>, blocks: seq<Item>)
    ensures (flat, blocks) == Collect(fs)
    decreases FieldsSize(fs)
  {
    flat, blocks := [], [];
    for i := 0 to |fs|
      invariant (flat, blocks) == Collect(fs[..i])
    {
      var f := fs[i];
      assert fs[..i + 1] == fs[..i] + [f];
      CollectAppend(fs[..i], [f]);
      CollectOne(f);
      PartitionOne(f);
      PlusLaws((flat, blocks), (flat, blocks), (flat, blocks));
      if f.tag.exported {
        var fv := Indirect(f.value);
        if f.tag.anonymous && f.tag.title == "" && fv.Some? && fv.value.Struct? {
          assert fs == fs[..i] + [f] + fs[i + 1..];
          FieldsSizeAppend(fs[..i] + [f], fs[i + 1..]);
          FieldsSizeAppend(fs[..i], [f]);
          var subFlat, subBlocks := CollectItems(fv.value.fields);
          flat := flat + subFlat;
          blocks := blocks + subBlocks;
        } else if f.tag.title != "" && fv.Some? && !Omitted(f.tag.json, fv.value) {
          if IsBlock(fv.value) {
            blocks := blocks + [Item(f.tag.title, fv.value)];
          } else {
            flat := flat + [Item(f.tag.title, fv.value)];
          }
        }
      }
    }
    assert fs[..|fs|] == fs;
  }

  // ---- The inlined field list ----

  /** The field list with every embedded struct written out in place. */
  function Inlined(fs: seq<Field>): seq<Field>
    decreases FieldsSize(fs), |fs|
  {
    if fs == [] then []
    else if Embeds(fs[0]) then Inlined(Promoted(fs[0])) + Inlined(fs[1..])
    else [fs[0]] + Inlined(fs[1..])
  }

  /** The printable fields of a list without embedded structs. */
  function Printable(fs: seq<Field>): seq<Item> {
    if fs == [] then [] else ItemOf(fs[0]) + Printable(fs[1..])
  }

  lemma {:induction false} PrintableAppend(a: seq<Field>, b: seq<Field>)
    ensures Printable(a + b) == Printable(a) + Printable(b)
  {
    if a == [] {
      assert a + b == b;
    } else {
      assert (a + b)[1..] == a[1..] + b;
      PrintableAppend(a[1..], b);
    }
  }

  lemma {:induction false} FilterAppend(a: seq<Item>, b: seq<Item>, blocks: bool)
    ensures Filter(a + b, blocks) == Filter(a, blocks) + Filter(b, blocks)
  {
    if a == [] {
      assert a + b == b;
    } else {
      assert (a + b)[1..] == a[1..] + b;
      FilterAppend(a[1..], b, blocks);
    }
  }

  lemma PartitionAppend(a: seq<Item>, b: seq<Item>)
    ensures Partition(a + b) == Plus(Partition(a), Partition(b))
  {
    FilterAppend(a, b, false);
    FilterAppend(a, b, true);
  }

  /** Collecting is: write every embedded struct out, keep the printable
      fields, and move the blocks behind the rest without reordering. */
  lemma {:induction false} CollectIsStablePartition(fs: seq<Field>)
    ensures Collect(fs) == Partition(Printable(Inlined(fs)))
    decreases FieldsSize(fs), |fs|
  {
    if fs != [] {
      CollectIsStablePartition(fs[1..]);
      if Embeds(fs[0]) {
        CollectIsStablePartition(Promoted(fs[0]));
        PrintableAppend(Inlined(Promoted(fs[0])), Inlined(fs[1..]));
        PartitionAppend(Printable(Inlined(Promoted(fs[0]))), Printable(Inlined(fs[1..])));
      } else {
        PrintableAppend([fs[0]], Inlined(fs[1..]));
        assert Printable([fs[0]]) == ItemOf(fs[0]) + [];
        PartitionAppend(ItemOf(fs[0]), Printable(Inlined(fs[1..])));
      }
    }
  }

  lemma {:induction false} InlinedHasNoEmbedded(fs: seq<Field>)
    ensures forall f | f in Inlined(fs) :: !Embeds(f)
    decreases FieldsSize(fs), |fs|
  {
    if fs != [] {
      InlinedHasNoEmbedded(fs[1..]);
      if Embeds(fs[0]) { InlinedHasNoEmbedded(Promoted(fs[0])); }
    }
  }

  /** Writing one embedded struct out in place changes nothing, wherever it
      stands and however deep it is. */
  lemma PromotionInvisible(pre: seq<Field>, f: Field, post: seq<Field>)
    requires Embeds(f)
    ensures Collect(pre + [f] + post) == Collect(pre + Promoted(f) + post)
  {
    CollectAppend(pre + [f], post);
    CollectAppend(pre, [f]);
    CollectAppend(pre + Promoted(f), post);
    CollectAppend(pre, Promoted(f));
    CollectOne(f);
  }

  /** A field that holds nil, embedded or not, contributes nothing. */
  lemma NilContributesNothing(pre: seq<Field>, f: Field, post: seq<Field>)
    requires Indirect(f.value).None?
    ensures Collect(pre + [f] + post) == Collect(pre + post)
  {
    CollectAppend(pre + [f], post);
    CollectAppend(pre, [f]);
    CollectAppend(pre, post);
    CollectOne(f);
    PlusLaws(Collect(pre), Collect(pre), Collect(post));
  }

  lemma {:induction false} CollectedItems(fs: seq<Field>)
    ensures forall it | it in Collect(fs).0 :: Size(it.v) <= FieldsSize(fs) && !IsBlock(it.v)
    ensures forall it | it in Collect(fs).1 :: Size(it.v) <= FieldsSize(fs) && IsBlock(it.v)
    decreases FieldsSize(fs), |fs|
  {
    if fs != [] {
      CollectedItems(fs[1..]);
      if Embeds(fs[0]) {
        CollectedItems(Promoted(fs[0]));
      } else {
        PartitionOne(fs[0]);
        assert forall it | it in ItemOf(fs[0]) :: Size(it.v) <= FieldSize(fs[0]);
      }
    }
  }
}
