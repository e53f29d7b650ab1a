/** What a value reads on one line, and what the cells of a table read. */
module FormatterCells {
  import opened Common
  import opened Text
  import opened FormatterModel
  import opened FormatterTable
  import opened Formatter
  import Markdown

  // ---- Slices ----

  /** The elements in order, nil ones passed over, with commas between. */
  lemma {:induction false} SliceReads(a: seq<Value>, b: seq<Value>, e: Value)
    ensures InlineElems(a + b) == InlineElems(a) + InlineElems(b)
    ensures InlineElems([e]) == if Indirect(e).None? then [] else [FormatInline(Indirect(e).value)]
    ensures InlineElems([]) == []
    ensures forall elem, isArray, isNil :: FormatInline(Slice(elem, a, isArray, isNil)) == Join(InlineElems(a), ", ")
    decreases |a|
  {
    assert [e][1..] == [];
    if a == [] {
      assert a + b == b;
    } else {
      assert (a + b)[0] == a[0] && (a + b)[1..] == a[1..] + b;
      SliceReads(a[1..], b, e);
    }
  }

  // ---- Structs ----

  /** The label, a colon and the text of each item. */
  function Parts(items: seq<Item>): (r: seq<string>)
    ensures |r| == |items|
    ensures forall i | 0 <= i < |items| :: r[i] == items[i].title + ": " + FormatInline(items[i].v)
  {
    if items == [] then [] else [items[0].title + ": " + FormatInline(items[0].v)] + Parts(items[1..])
  }

  function PartOf(it: Item): string { it.title + ": " + FormatInline(it.v) }

  lemma PartsCons(it: Item, items: seq<Item>)
    ensures Parts([it] + items) == [PartOf(it)] + Parts(items)
  {
  }

  lemma PrintableHead(fs: seq<Field>) returns (it: Item)
    requires fs != [] && ItemOf(fs[0]) != []
    ensures ItemOf(fs[0]) == [it] && it.title == fs[0].tag.title
    ensures Printable(fs) == [it] + Printable(fs[1..])
  {
    PrintedExactly(fs[0]);
    it := ItemOf(fs[0])[0];
  }

  lemma PrintableSkip(fs: seq<Field>)
    requires fs != [] && ItemOf(fs[0]) == []
    ensures Printable(fs) == Printable(fs[1..])
  {
  }

  lemma Associate(a: string, b: string, c: string, d: string, e: string)
    ensures a + (b + c + d + e) == a + b + (c + d + e)
  {
  }

  lemma InlineHead(fs: seq<Field>, sofar: string, it: Item)
    requires fs != [] && ItemOf(fs[0]) == [it] && it.title == fs[0].tag.title
    ensures sofar != "" ==> InlineFields(fs, sofar) == InlineFields(fs[1..], sofar + "; " + PartOf(it))
    ensures sofar == "" ==> InlineFields(fs, sofar) == InlineFields(fs[1..], PartOf(it))
  {
    Associate(sofar, if sofar == "" then "" else "; ", it.title, ": ", FormatInline(it.v));
    assert "" + "" + PartOf(it) == PartOf(it);
  }

  lemma PartJoins(sofar: string, it: Item, rest: seq<Item>)
    ensures Join([sofar + "; " + PartOf(it)] + Parts(rest), "; ") == Join([sofar] + Parts([it] + rest), "; ")
  {
    PartsCons(it, rest);
    TwoParts(sofar, PartOf(it), Parts(rest));
    assert [sofar] + ([PartOf(it)] + Parts(rest)) == [sofar, PartOf(it)] + Parts(rest);
  }

  /** A line that has begun goes on with a semicolon before each part. */
  lemma {:induction false} FieldsReadOn(fs: seq<Field>, sofar: string)
    requires sofar != ""
    ensures InlineFields(fs, sofar) == Join([sofar] + Parts(Printable(fs)), "; ")
    decreases |fs|
  {
    if fs == [] {
      assert [sofar] + Parts(Printable(fs)) == [sofar];
    } else if ItemOf(fs[0]) == [] {
      PrintableSkip(fs);
      FieldsReadOn(fs[1..], sofar);
    } else {
      var it := PrintableHead(fs);
      InlineHead(fs, sofar, it);
      FieldsReadOn(fs[1..], sofar + "; " + PartOf(it));
      PartJoins(sofar, it, Printable(fs[1..]));
    }
  }

  lemma TwoParts(a: string, b: string, rest: seq<string>)
    ensures Join([a, b] + rest, "; ") == Join([a + "; " + b] + rest, "; ")
  {
    assert [a, b] + rest == [a] + ([b] + rest);
    JoinCons(a, [b] + rest, "; ");
    if rest != [] {
      JoinCons(b, rest, "; ");
      JoinCons(a + "; " + b, rest, "; ");
      assert a + "; " + (b + "; " + Join(rest, "; ")) == a + "; " + b + "; " + Join(rest, "; ");
    } else {
      assert [b] + rest == [b] && [a + "; " + b] + rest == [a + "; " + b];
    }
  }

  /** A struct on one line: its own printable fields in declaration order, each
      with its label, with semicolons between. */
  lemma {:induction false} StructReads(fs: seq<Field>)
    ensures FormatInline(Struct(fs)) == Join(Parts(Printable(fs)), "; ")
    decreases |fs|
  {
    if fs != [] {
      if ItemOf(fs[0]) == [] {
        PrintableSkip(fs);
        StructReads(fs[1..]);
      } else {
        var it := PrintableHead(fs);
        InlineHead(fs, "", it);
        FieldsReadOn(fs[1..], PartOf(it));
        PartsCons(it, Printable(fs[1..]));
      }
    }
  }

  // ---- Maps ----

  /** The pairs of a map are its entries: the key as it prints, <nil> for nil,
      and the value on one line, nothing for nil. */
  lemma {:induction false} MapReads(es: seq<MapEntry>, i: nat)
    requires i < |es|
    ensures |Pairs(es)| == |es|
    ensures var (k, x) := (Indirect(es[i].key), Indirect(es[i].val));
            && (k.None? ==> Pairs(es)[i].key == "<nil>")
            && (k.Some? && k.value.Scalar? ==> Pairs(es)[i].key == k.value.text)
            && (k.Some? && !k.value.Scalar? ==> Pairs(es)[i].key == es[i].sprint)
            && Pairs(es)[i].cell == if x.None? then "" else FormatInline(x.value)
    ensures forall isNil :: FormatInline(Map(es, isNil)) == Markdown.ShowMap(Pairs(es))
  {
    if |es| > 1 { MapReads(es[1..], if i == 0 then 0 else i - 1); }
  }

  // ---- Tables ----

  /** A cell shows the field that its column's path finds, on one line; it is
      empty behind a nil embedded pointer and for a nil value. */
  lemma CellReads(ev: Value, cols: seq<Column>, j: nat)
    requires j < |cols|
    ensures var l := FieldByIndexPath(ev, cols[j].index);
            Cells(ev, cols)[j] ==
            if l.Found? && Indirect(l.value).Some? then FormatInline(Indirect(l.value).value) else ""
  {
  }

  predicate IsRow(e: Value) { Indirect(e).Some? && Indirect(e).value.Struct? }

  /** The rows stand in the order of the elements: what is no struct, seen
      through references, has none; any other element has one, of its cells,
      before those of the elements after it. */
  lemma RowsInOrder(e: Value, rest: seq<Value>, cols: seq<Column>)
    ensures Rows([], cols) == []
    ensures !IsRow(e) ==> Rows([e] + rest, cols) == Rows(rest, cols)
    ensures IsRow(e) ==> Rows([e] + rest, cols) == [Cells(Indirect(e).value, cols)] + Rows(rest, cols)
  {
    assert ([e] + rest)[1..] == rest;
  }

  predicate AllRows(es: seq<Value>) { forall i | 0 <= i < |es| :: IsRow(es[i]) }

  /** Where every element is a struct there are as many rows as elements. */
  lemma {:induction false} AsManyRows(es: seq<Value>, cols: seq<Column>)
    requires AllRows(es)
    ensures |Rows(es, cols)| == |es|
  {
    if es != [] {
      assert [es[0]] + es[1..] == es;
      RowsInOrder(es[0], es[1..], cols);
      AsManyRows(es[1..], cols);
    }
  }
}
