/** Tables: which columns a struct type has, and finding a column's field in a
    value of that type. */
module FormatterTable {
  import opened Common
  import opened Text
  import opened FormatterModel

  // ---- Typing ----

  predicate HasType(v: Value, t: Ty)
    decreases t
  {
    match t
    case TScalar => v.Scalar?
    case TPtr(e) => v == NilRef(false) || (v.Ref? && !v.iface && HasType(v.target, e))
    case TIface => v == NilRef(true) || (v.Ref? && v.iface)
    case TSlice(e) => v.Slice? && v.elem == e && forall i | 0 <= i < |v.elems| :: HasType(v.elems[i], e)
    case TMap => v.Map?
    case TStruct(ts) =>
      && v.Struct? && |v.fields| == |ts|
      && forall i | 0 <= i < |ts| :: v.fields[i].tag == ts[i].tag && HasType(v.fields[i].value, ts[i].ty)
  }

  // ---- Columns ----

  datatype Column = Column(title: string, index: seq<nat>)

  function Cut(s: string, c: char): string { Split(s, c)[0] }

  function JsonName(tag: Tag): string {
    var name := Cut(tag.json, ',');
    if name == "" || name == "-" then tag.name else name
  }

  /** The heading of a field's own column, or none. */
  function TitleOf(tag: Tag, strict: bool): string {
    if tag.title != "" then tag.title else if strict then "" else JsonName(tag)
  }

  /** The struct an embedded field stands for, behind one pointer at most. */
  function EmbeddedType(t: Ty): Ty { if t.TPtr? then t.elem else t }

  function Prefixed(i: nat, cols: seq<Column>): (r: seq<Column>)
    ensures |r| == |cols| && forall k | 0 <= k < |cols| :: r[k] == Column(cols[k].title, [i] + cols[k].index)
  {
    if cols == [] then [] else [Column(cols[0].title, [i] + cols[0].index)] + Prefixed(i, cols[1..])
  }

  /** What the field at position i adds. */
  function FieldColumns(f: FieldTy, i: nat, strict: bool): seq<Column>
    decreases f
  {
    if !f.tag.exported then []
    else if f.tag.anonymous then
      var t := EmbeddedType(f.ty);
      if t.TStruct? then Prefixed(i, Columns(t.fields, |t.fields|, strict)) else []
    else if TitleOf(f.tag, strict) == "" then []
    else [Column(TitleOf(f.tag, strict), [i])]
  }

  /** collectColumns after the first n fields. */
  function Columns(ts: seq<FieldTy>, n: nat, strict: bool): seq<Column>
    requires n <= |ts|
    decreases ts, n
  {
    if n == 0 then [] else Columns(ts, n - 1, strict) + FieldColumns(ts[n - 1], n - 1, strict)
  }

  method CollectColumns(ts: seq<FieldTy>, strict: bool) returns (cols: seq<Column>)
    ensures cols == Columns(ts, |ts|, strict)
    decreases ts
  {
    cols := [];
    for i := 0 to |ts|
      invariant cols == Columns(ts, i, strict)
    {
      var f := ts[i];
      if f.tag.exported {
        if f.tag.anonymous {
          var ft := EmbeddedType(f.ty);
          if ft.TStruct? {
            assert (ts decreases to f) && (f decreases to ft.fields);
            var inner := CollectColumns(ft.fields, strict);
            cols := cols + Prefixed(i, inner);
          }
        } else {
          var title := f.tag.title;
          if title == "" && !strict {
            title := JsonName(f.tag);
          }
          if title != "" {
            cols := cols + [Column(title, [i])];
          }
        }
      }
    }
  }

  /** Labelled fields if there are any, all fields by their JSON names if not. */
  function TableColumns(ts: seq<FieldTy>): seq<Column> {
    var cols := Columns(ts, |ts|, true);
    if |cols| > 0 then cols else Columns(ts, |ts|, false)
  }

  // ---- Lookup ----

  /** Panic is what reflect's Field does outside a struct or its range. */
  datatype Lookup = Panic | Missing | Found(value: Value)

  function Deref(v: Value): Value { if v.Ref? && !v.iface then v.target else v }

  function FieldByIndexPath(v: Value, path: seq<nat>): Lookup {
    if path == [] then Found(v)
    else if v == NilRef(false) then Missing
    else
      var s := Deref(v);
      if !s.Struct? || path[0] >= |s.fields| then Panic
      else FieldByIndexPath(s.fields[path[0]].value, path[1..])
  }

  method Traverse(v0: Value, path: seq<nat>) returns (r: Lookup)
    ensures r == FieldByIndexPath(v0, path)
  {
    var v := v0;
    for i := 0 to |path|
      invariant FieldByIndexPath(v0, path) == FieldByIndexPath(v, path[i..])
    {
      if v == NilRef(false) {
        return Missing;
      }
      if v.Ref? && !v.iface {
        v := v.target;
      }
      if !v.Struct? || path[i] >= |v.fields| {
        return Panic;
      }
      assert path[i..][1..] == path[i + 1..];
      v := v.fields[path[i]].value;
    }
    return Found(v);
  }

  /** The declaration at the end of a path, for any value. */
  function TagAt(v: Value, path: seq<nat>): Option<Tag> {
    if path == [] then None
    else
      var s := Deref(v);
      if !s.Struct? || path[0] >= |s.fields| then None
      else if |path| == 1 then Some(s.fields[path[0]].tag)
      else TagAt(s.fields[path[0]].value, path[1..])
  }

  /** A column path is good for a value when it never panics, and when what it
      finds is the field the column is named after. */
  predicate GoodFor(v: Value, c: Column, strict: bool) {
    && c.index != [] && c.title != ""
    && FieldByIndexPath(v, c.index) != Panic
    && (FieldByIndexPath(v, c.index).Found? ==>
          var tag := TagAt(v, c.index);
          tag.Some? && !tag.value.anonymous && TitleOf(tag.value, strict) == c.title)
  }

  lemma OwnColumnGood(v: Value, ts: seq<FieldTy>, i: nat, strict: bool)
    requires HasType(v, TStruct(ts)) && i < |ts|
    requires !ts[i].tag.anonymous && TitleOf(ts[i].tag, strict) != ""
    ensures GoodFor(v, Column(TitleOf(ts[i].tag, strict), [i]), strict)
  {
  }

  lemma EmbeddedColumnGood(v: Value, ts: seq<FieldTy>, i: nat, c: Column, strict: bool)
    requires HasType(v, TStruct(ts)) && i < |ts| && EmbeddedType(ts[i].ty).TStruct?
    requires c.index != [] && c.title != ""
    requires forall w :: HasType(w, EmbeddedType(ts[i].ty)) ==> GoodFor(w, c, strict)
    ensures GoodFor(v, Column(c.title, [i] + c.index), strict)
  {
    var path, x := [i] + c.index, v.fields[i].value;
    assert path[1..] == c.index;
    assert HasType(x, ts[i].ty);
    if x != NilRef(false) {
      assert HasType(Deref(x), EmbeddedType(ts[i].ty));
      assert GoodFor(Deref(x), c, strict);
      assert Deref(Deref(x)) == Deref(x);
    }
  }

  /** Every index path that collectColumns computes for a type resolves in
      every value of that type, nil embedded pointers included, and leads to
      the field whose name the column bears. */
  lemma {:induction false} ColumnsResolve(ts: seq<FieldTy>, n: nat, strict: bool, k: nat, v: Value)
    requires n <= |ts| && k < |Columns(ts, n, strict)| && HasType(v, TStruct(ts))
    ensures GoodFor(v, Columns(ts, n, strict)[k], strict)
    decreases ts, n, 1
  {
    if n > 0 {
      var before := Columns(ts, n - 1, strict);
      if k < |before| {
        ColumnsResolve(ts, n - 1, strict, k, v);
      } else if ts[n - 1].tag.anonymous {
        PromotedResolves(ts, n, strict, k - |before|, v);
      } else {
        OwnColumnGood(v, ts, n - 1, strict);
      }
    }
  }

  /** A column that field n - 1 brings with it from its embedded struct. */
  lemma {:induction false} PromotedResolves(ts: seq<FieldTy>, n: nat, strict: bool, j: nat, v: Value)
    requires 0 < n <= |ts| && ts[n - 1].tag.anonymous && HasType(v, TStruct(ts))
    requires j < |Columns(ts, n, strict)| - |Columns(ts, n - 1, strict)|
    ensures GoodFor(v, Columns(ts, n, strict)[|Columns(ts, n - 1, strict)| + j], strict)
    decreases ts, n, 0
  {
    var f := ts[n - 1];
    var t := EmbeddedType(f.ty);
    var c := Columns(t.fields, |t.fields|, strict)[j];
    assert (ts decreases to f) && (f decreases to t.fields);
    forall w | HasType(w, t) ensures GoodFor(w, c, strict) {
      ColumnsResolve(t.fields, |t.fields|, strict, j, w);
    }
    ColumnsNamed(t.fields, |t.fields|, strict, j);
    EmbeddedColumnGood(v, ts, n - 1, c, strict);
  }

  lemma {:induction false} ColumnsNamed(ts: seq<FieldTy>, n: nat, strict: bool, k: nat)
    requires n <= |ts| && k < |Columns(ts, n, strict)|
    ensures Columns(ts, n, strict)[k].index != [] && Columns(ts, n, strict)[k].title != ""
    decreases ts, n
  {
    if n > 0 {
      var before, f := Columns(ts, n - 1, strict), ts[n - 1];
      if k < |before| {
        ColumnsNamed(ts, n - 1, strict, k);
      } else if f.tag.anonymous {
        var t := EmbeddedType(f.ty);
        assert (ts decreases to f) && (f decreases to t.fields);
        ColumnsNamed(t.fields, |t.fields|, strict, k - |before|);
      }
    }
  }

  lemma {:induction false} IndirectHasType(v: Value, t: Ty)
    requires HasType(v, t) && !StripPtr(t).TIface?
    ensures Indirect(v).Some? ==> HasType(Indirect(v).value, StripPtr(t))
  {
    if v.Ref? { IndirectHasType(v.target, t.elem); }
  }

  /** No cell of a table over well-typed rows ever makes reflect panic. */
  lemma TableNeverPanics(elem: Ty, elems: seq<Value>, i: nat, j: nat)
    requires StripPtr(elem).TStruct? && HasType(Slice(elem, elems, false, false), TSlice(elem)) && i < |elems|
    requires j < |TableColumns(StripPtr(elem).fields)|
    ensures Indirect(elems[i]).Some? ==>
              Indirect(elems[i]).value.Struct?
              && FieldByIndexPath(Indirect(elems[i]).value, TableColumns(StripPtr(elem).fields)[j].index) != Panic
  {
    var ts := StripPtr(elem).fields;
    assert HasType(elems[i], elem);
    IndirectHasType(elems[i], elem);
    if Indirect(elems[i]).Some? {
      ColumnsResolve(ts, |ts|, |Columns(ts, |ts|, true)| > 0, j, Indirect(elems[i]).value);
    }
  }

  // ---- Which columns, and in which order ----

  lemma CutMeans(s: string, c: char)
    ensures c !in s ==> Cut(s, c) == s
    ensures forall a, b :: s == a + [c] + b && c !in a ==> Cut(s, c) == a
  {
    if c !in s { SplitNoSeparator(s, c); }
    forall a, b | s == a + [c] + b && c !in a ensures Cut(s, c) == a {
      SplitAtSeparator(a, b, c);
      SplitNoSeparator(a, c);
    }
  }

  /** The heading of a field: its label; without one, and unless only labelled
      fields count, the name in its JSON tag; without that, its own name. */
  ghost predicate IsTitle(tag: Tag, strict: bool, title: string) {
    if tag.title != "" then title == tag.title
    else if strict then false
    else exists name :: IsJsonName(tag.json, name) && title == if name == "" || name == "-" then tag.name else name
  }

  /** The part of a JSON tag before its first comma. */
  ghost predicate IsJsonName(json: string, name: string) {
    ',' !in name && (json == name || exists rest :: json == name + [','] + rest)
  }

  lemma TitleMeans(tag: Tag, strict: bool, title: string)
    requires title != ""
    ensures IsTitle(tag, strict, title) <==> TitleOf(tag, strict) == title
  {
    CutMeans(tag.json, ',');
    CutIsName(tag.json);
    forall name | IsJsonName(tag.json, name) ensures name == Cut(tag.json, ',') {
      if tag.json != name {
        var rest :| tag.json == name + [','] + rest;
      }
    }
  }

  lemma CutIsName(json: string)
    ensures IsJsonName(json, Cut(json, ','))
  {
    var parts := Split(json, ',');
    SplitPieces(json, ',');
    if |parts| > 1 {
      assert parts == [parts[0]] + parts[1..];
      JoinCons(parts[0], parts[1..], [',']);
    }
  }

  /** A path of positions leads, through exported embedded structs, to an
      exported field that is not embedded and has a heading. */
  ghost predicate LeadsTo(ts: seq<FieldTy>, path: seq<nat>, strict: bool, title: string)
    decreases ts
  {
    && path != [] && path[0] < |ts| && ts[path[0]].tag.exported
    && var f := ts[path[0]];
       if f.tag.anonymous then
         var t := EmbeddedType(f.ty);
         assert (ts decreases to f) && (f decreases to t);
         t.TStruct? && (assert t decreases to t.fields; LeadsTo(t.fields, path[1..], strict, title))
       else |path| == 1 && title != "" && IsTitle(f.tag, strict, title)
  }

  /** The columns are exactly the paths that lead to a field with a heading. */
  lemma {:induction false} ColumnsExactly(ts: seq<FieldTy>, n: nat, strict: bool, c: Column)
    requires n <= |ts|
    ensures c in Columns(ts, n, strict) <==> LeadsTo(ts, c.index, strict, c.title) && c.index[0] < n
    decreases ts, n, 1
  {
    if n > 0 {
      ColumnsExactly(ts, n - 1, strict, c);
      FieldColumnsExactly(ts, n - 1, strict, c);
    }
  }

  lemma {:induction false} FieldColumnsExactly(ts: seq<FieldTy>, i: nat, strict: bool, c: Column)
    requires i < |ts|
    ensures c in FieldColumns(ts[i], i, strict) <==> LeadsTo(ts, c.index, strict, c.title) && c.index[0] == i
    decreases ts, i, 0
  {
    var f := ts[i];
    if f.tag.exported && f.tag.anonymous && EmbeddedType(f.ty).TStruct? {
      var inner := EmbeddedType(f.ty).fields;
      assert (ts decreases to f) && (f decreases to inner);
      PrefixedExactly(i, Columns(inner, |inner|, strict), c);
      if c.index != [] && c.index[0] == i {
        ColumnsExactly(inner, |inner|, strict, Column(c.title, c.index[1..]));
      }
    } else if f.tag.exported && !f.tag.anonymous && c.title != "" {
      TitleMeans(f.tag, strict, c.title);
      if c.index != [] && |c.index| == 1 { assert c.index == [c.index[0]]; }
    }
  }

  lemma PrefixedExactly(i: nat, cols: seq<Column>, c: Column)
    ensures c in Prefixed(i, cols) <==> c.index != [] && c.index[0] == i && Column(c.title, c.index[1..]) in cols
  {
    if c in Prefixed(i, cols) {
      var k :| 0 <= k < |cols| && Prefixed(i, cols)[k] == c;
      assert cols[k] == Column(c.title, c.index[1..]);
    }
    if c.index != [] && c.index[0] == i && Column(c.title, c.index[1..]) in cols {
      var k :| 0 <= k < |cols| && cols[k] == Column(c.title, c.index[1..]);
      assert c.index == [i] + c.index[1..];
      assert Prefixed(i, cols)[k] == c;
    }
  }

  /** Declaration order, position by position. */
  predicate Before(p: seq<nat>, q: seq<nat>) {
    p != [] && q != [] && (p[0] < q[0] || (p[0] == q[0] && Before(p[1..], q[1..])))
  }

  predicate InOrder(cols: seq<Column>) { forall j, k | 0 <= j < k < |cols| :: Before(cols[j].index, cols[k].index) }

  /** The columns stand in declaration order, each once. */
  lemma {:induction false} ColumnsInOrder(ts: seq<FieldTy>, n: nat, strict: bool)
    requires n <= |ts|
    ensures InOrder(Columns(ts, n, strict))
    decreases ts, n, 1
  {
    if n > 0 {
      ColumnsInOrder(ts, n - 1, strict);
      FieldInOrder(ts, n - 1, strict);
      EarlierFieldsFirst(ts, n - 1, strict);
      OneAfterTheOther(Columns(ts, n - 1, strict), FieldColumns(ts[n - 1], n - 1, strict));
    }
  }

  lemma {:induction false} FieldInOrder(ts: seq<FieldTy>, i: nat, strict: bool)
    requires i < |ts|
    ensures InOrder(FieldColumns(ts[i], i, strict))
    decreases ts, i, 0
  {
    var f := ts[i];
    if f.tag.exported && f.tag.anonymous && EmbeddedType(f.ty).TStruct? {
      var inner := EmbeddedType(f.ty).fields;
      assert (ts decreases to f) && (f decreases to inner);
      ColumnsInOrder(inner, |inner|, strict);
      PrefixedInOrder(i, Columns(inner, |inner|, strict));
    }
  }

  lemma EarlierFieldsFirst(ts: seq<FieldTy>, i: nat, strict: bool)
    requires i < |ts|
    ensures forall c, d | c in Columns(ts, i, strict) && d in FieldColumns(ts[i], i, strict) :: Before(c.index, d.index)
  {
    forall c, d | c in Columns(ts, i, strict) && d in FieldColumns(ts[i], i, strict) ensures Before(c.index, d.index) {
      ColumnsExactly(ts, i, strict, c);
      FieldColumnsExactly(ts, i, strict, d);
    }
  }

  lemma OneAfterTheOther(a: seq<Column>, b: seq<Column>)
    requires InOrder(a) && InOrder(b) && forall c, d | c in a && d in b :: Before(c.index, d.index)
    ensures InOrder(a + b)
  {
    forall j, k | 0 <= j < k < |a + b| ensures Before((a + b)[j].index, (a + b)[k].index) {
      if j < |a| <= k { assert a[j] in a && b[k - |a|] in b; }
    }
  }

  lemma PrefixedInOrder(i: nat, cols: seq<Column>)
    requires InOrder(cols)
    ensures InOrder(Prefixed(i, cols))
  {
    var r := Prefixed(i, cols);
    forall j, k | 0 <= j < k < |r| ensures Before(r[j].index, r[k].index) {
      assert r[j].index[1..] == cols[j].index && r[k].index[1..] == cols[k].index;
    }
  }

  /** The columns of a table: of the labelled fields if there are any, and only
      of those; of all fields with a name if there are none. */
  lemma TableColumnsExactly(ts: seq<FieldTy>, c: Column)
    ensures c in TableColumns(ts) <==>
            LeadsTo(ts, c.index, !(forall d: Column :: !LeadsTo(ts, d.index, true, d.title)), c.title)
    ensures InOrder(TableColumns(ts))
  {
    var strict := Columns(ts, |ts|, true);
    ColumnsExactly(ts, |ts|, true, c);
    ColumnsExactly(ts, |ts|, false, c);
    ColumnsInOrder(ts, |ts|, true);
    ColumnsInOrder(ts, |ts|, false);
    if strict != [] {
      assert strict[0] in strict;
      ColumnsExactly(ts, |ts|, true, strict[0]);
    } else {
      forall d: Column ensures !LeadsTo(ts, d.index, true, d.title) { ColumnsExactly(ts, |ts|, true, d); }
    }
  }

  /** A lookup takes the path one step at a time: to a field of the struct, or
      of the struct behind one pointer, and no further once there is nil. */
  lemma {:induction false} LookupSteps(v: Value, p: seq<nat>, q: seq<nat>)
    ensures FieldByIndexPath(v, p + q) ==
            if FieldByIndexPath(v, p).Found? then FieldByIndexPath(FieldByIndexPath(v, p).value, q)
            else FieldByIndexPath(v, p)
  {
    if p == [] {
      assert p + q == q;
    } else {
      assert (p + q)[1..] == p[1..] + q;
      if v != NilRef(false) && Deref(v).Struct? && p[0] < |Deref(v).fields| {
        LookupSteps(Deref(v).fields[p[0]].value, p[1..], q);
      }
    }
  }

  lemma LookupStep(fs: seq<Field>, i: nat)
    requires i < |fs|
    ensures FieldByIndexPath(Struct(fs), [i]) == Found(fs[i].value)
    ensures FieldByIndexPath(Ref(false, Struct(fs)), [i]) == Found(fs[i].value)
    ensures FieldByIndexPath(NilRef(false), [i]) == Missing
  {
  }
}
