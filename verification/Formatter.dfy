/** Rendering a struct value as markdown: flat fields as lines, nested structs
    as headings, slices of structs as tables. */
module Formatter {
  import opened Common
  import opened Text
  import opened FormatterModel
  import opened FormatterTable
  import Markdown

  // ---- Values on one line ----

  function FormatInline(v: Value): string
    decreases Size(v), 0, 0
  {
    match v
    case Scalar(text, _) => text
    case Slice(_, elems, _, _) => Join(InlineElems(elems), ", ")
    case Map(entries, _) => Markdown.ShowMap(Pairs(entries))
    case Struct(fields) => InlineFields(fields, "")
    case _ => ""
  }

  /** Nil elements are skipped. */
  function InlineElems(es: seq<Value>): seq<string>
    decreases ElemsSize(es), 1, |es|
  {
    if es == [] then []
    else
      var rest := InlineElems(es[1..]);
      match Indirect(es[0])
      case None => rest
      case Some(e) => [FormatInline(e)] + rest
  }

  function FormatCell(v: Value): string
    decreases Size(v), 1, 0
  {
    match Indirect(v)
    case None => ""
    case Some(x) => FormatInline(x)
  }

  function KeyText(e: MapEntry): string {
    match Indirect(e.key)
    case None => "<nil>"
    case Some(x) => if x.Scalar? then x.text else e.sprint
  }

  function Pairs(es: seq<MapEntry>): seq<Markdown.Pair>
    decreases EntriesSize(es), 2, |es|
  {
    if es == [] then []
    else
      assert EntrySize(es[0]) <= EntriesSize(es);
      [Markdown.Pair(KeyText(es[0]), FormatCell(es[0].val))] + Pairs(es[1..])
  }

  /** A struct on one line; unlike a block it does not look into embedded
      structs. */
  function InlineFields(fs: seq<Field>, sofar: string): string
    decreases FieldsSize(fs), 2, |fs|
  {
    if fs == [] then sofar
    else
      var f := fs[0];
      assert FieldSize(f) <= FieldsSize(fs);
      if ItemOf(f) == [] then InlineFields(fs[1..], sofar)
      else
        var more := (if |sofar| > 0 then "; " else "") + f.tag.title + ": " + FormatInline(ItemOf(f)[0].v);
        InlineFields(fs[1..], sofar + more)
  }

  // ---- What is written, in order ----

  datatype Op =
    | HeadingOp(depth: nat, title: string)
    | LineOp(text: string)
    | NewlineOp

  function TrimRightOf(s: string, c: char): string {
    if s != "" && s[|s| - 1] == c then TrimRightOf(s[..|s| - 1], c) else s
  }

  function FieldLine(title: string, value: string): Op { LineOp(TrimRightOf(title + ": " + value, ' ')) }

  function FlatOps(items: seq<Item>): seq<Op> {
    if items == [] then [] else [FieldLine(items[0].title, FormatInline(items[0].v))] + FlatOps(items[1..])
  }

  function Titles(cols: seq<Column>): (r: seq<string>)
    ensures |r| == |cols| && forall i | 0 <= i < |cols| :: r[i] == cols[i].title
  {
    if cols == [] then [] else [cols[0].title] + Titles(cols[1..])
  }

  function Dashes(n: nat): (r: seq<string>)
    ensures |r| == n && forall i | 0 <= i < n :: r[i] == "---"
  {
    if n == 0 then [] else ["---"] + Dashes(n - 1)
  }

  function CellText(l: Lookup): string { if l.Found? then FormatCell(l.value) else "" }

  function Cells(ev: Value, cols: seq<Column>): (r: seq<string>)
    ensures |r| == |cols| && forall i | 0 <= i < |cols| :: r[i] == CellText(FieldByIndexPath(ev, cols[i].index))
  {
    if cols == [] then [] else [CellText(FieldByIndexPath(ev, cols[0].index))] + Cells(ev, cols[1..])
  }

  /** The cells of each row; elements that are nil or no structs have none. */
  function Rows(elems: seq<Value>, cols: seq<Column>): (r: seq<seq<string>>)
    ensures forall row | row in r :: |row| == |cols|
  {
    if elems == [] then []
    else
      var rest := Rows(elems[1..], cols);
      match Indirect(elems[0])
      case None => rest
      case Some(ev) => if ev.Struct? then [Cells(ev, cols)] + rest else rest
  }

  function RowOps(rows: seq<seq<string>>): seq<Op> {
    if rows == [] then [] else [LineOp(Markdown.Row(rows[0]))] + RowOps(rows[1..])
  }

  function TableTop(title: string, depth: nat, cols: seq<Column>): seq<Op> {
    [HeadingOp(depth, title), LineOp(Markdown.Row(Titles(cols))), LineOp(Markdown.Row(Dashes(|cols|)))]
  }

  function TableOps(it: Item, depth: nat): seq<Op>
    requires it.v.Slice? && StripPtr(it.v.elem).TStruct?
  {
    var cols := TableColumns(StripPtr(it.v.elem).fields);
    if cols == [] then []
    else TableTop(it.title, depth, cols) + RowOps(Rows(it.v.elems, cols)) + [NewlineOp]
  }

  /** Block items whose values are no bigger than n. */
  predicate BlocksWithin(items: seq<Item>, n: nat) {
    forall i | 0 <= i < |items| :: Size(items[i].v) <= n && IsBlock(items[i].v)
  }

  function BlockOp(it: Item, depth: nat, n: nat): seq<Op>
    requires Size(it.v) <= n && IsBlock(it.v)
    decreases n, 0, 0
  {
    if it.v.Struct? then [HeadingOp(depth, it.title)] + StructOps(it.v.fields, depth + 1) else TableOps(it, depth)
  }

  function BlockOps(items: seq<Item>, depth: nat, n: nat): seq<Op>
    requires BlocksWithin(items, n)
    decreases n, 1, |items|
  {
    if items == [] then []
    else
      assert forall i | 0 <= i < |items[1..]| :: items[1..][i] == items[i + 1];
      BlockOp(items[0], depth, n) + BlockOps(items[1..], depth, n)
  }

  lemma TableBlock(it: Item, depth: nat, n: nat)
    requires Size(it.v) <= n && IsBlock(it.v) && !it.v.Struct?
    ensures it.v.Slice? && StripPtr(it.v.elem).TStruct? && BlockOp(it, depth, n) == TableOps(it, depth)
  {
  }

  lemma CollectedBlocks(fs: seq<Field>)
    ensures BlocksWithin(Collect(fs).1, FieldsSize(fs))
  {
    CollectedItems(fs);
  }

  function StructOps(fs: seq<Field>, depth: nat): seq<Op>
    decreases FieldsSize(fs), 2, 0
  {
    CollectedBlocks(fs);
    FlatOps(Collect(fs).0) + BlockOps(Collect(fs).1, depth, FieldsSize(fs))
  }

  // ---- The text ----

  function Hashes(n: nat): (r: string)
    ensures |r| == n && forall i | 0 <= i < n :: r[i] == '#'
  {
    if n == 0 then "" else "#" + Hashes(n - 1)
  }

  predicate EndsBlank(s: string) { |s| >= 2 && s[|s| - 2..] == "\n\n" }

  function Write(text: string, op: Op): string {
    match op
    case HeadingOp(depth, title) =>
      (if text != "" && !EndsBlank(text) then text + "\n" else text) + Hashes(depth + 3) + " " + title + "\n" + "\n"
    case LineOp(s) => text + s + "\n"
    case NewlineOp => text + "\n"
  }

  function WriteAll(text: string, ops: seq<Op>): string
    decreases |ops|
  {
    if ops == [] then text else WriteAll(Write(text, ops[0]), ops[1..])
  }

  function ToText(v: Value): string {
    match Indirect(v)
    case None => ""
    case Some(sv) => if sv.Struct? then TrimRightOf(WriteAll("", StructOps(sv.fields, 0)), '\n') else ""
  }

  lemma {:induction false} WriteAllAppend(text: string, a: seq<Op>, b: seq<Op>)
    ensures WriteAll(text, a + b) == WriteAll(WriteAll(text, a), b)
    decreases |a|
  {
    if a == [] {
      assert a + b == b;
    } else {
      assert (a + b)[1..] == a[1..] + b;
      WriteAllAppend(Write(text, a[0]), a[1..], b);
    }
  }

  /** The shared strings.Builder, and the methods that append to it. */
  class Builder {
    var text: string

    constructor ()
      ensures text == ""
    {
      text := "";
    }

    method WriteLine(s: string)
      modifies this
      ensures text == Write(old(text), LineOp(s))
    {
      text := text + s;
      text := text + "\n";
    }

    method WriteField(title: string, value: string)
      modifies this
      ensures text == Write(old(text), FieldLine(title, value))
    {
      WriteLine(TrimRightOf(title + ": " + value, ' '));
    }

    method WriteHeading(depth: nat, title: string)
      modifies this
      ensures text == Write(old(text), HeadingOp(depth, title))
    {
      if text != "" && !EndsBlank(text) {
        text := text + "\n";
      }
      text := text + Hashes(depth + 3);
      text := text + " ";
      WriteLine(title);
      text := text + "\n";
    }

    method RenderRows(elems: seq<Value>, cols: seq<Column>)
      modifies this
      ensures text == WriteAll(old(text), RowOps(Rows(elems, cols)))
    {
      assert elems[0..] == elems;
      for i := 0 to |elems|
        invariant WriteAll(text, RowOps(Rows(elems[i..], cols))) == WriteAll(old(text), RowOps(Rows(elems, cols)))
      {
        assert elems[i..][1..] == elems[i + 1..];
        var ev := Indirect(elems[i]);
        if ev.Some? && ev.value.Struct? {
          var cells := RenderCells(ev.value, cols);
          assert ([cells] + Rows(elems[i + 1..], cols))[1..] == Rows(elems[i + 1..], cols);
          OneOp(text, LineOp(Markdown.Row(cells)), RowOps(Rows(elems[i + 1..], cols)));
          WriteLine(Markdown.Row(cells));
        }
      }
    }

    method RenderCells(ev: Value, cols: seq<Column>) returns (cells: seq<string>)
      ensures cells == Cells(ev, cols)
    {
      cells := [];
      for j := 0 to |cols|
        invariant |cells| == j
        invariant forall k | 0 <= k < j :: cells[k] == CellText(FieldByIndexPath(ev, cols[k].index))
      {
        var found := Traverse(ev, cols[j].index);
        cells := cells + [CellText(found)];
      }
    }

    method RenderTable(it: Item, depth: nat)
      requires it.v.Slice? && StripPtr(it.v.elem).TStruct?
      modifies this
      ensures text == WriteAll(old(text), TableOps(it, depth))
    {
      var cols := TableColumns(StripPtr(it.v.elem).fields);
      if |cols| == 0 {
        return;
      }
      ghost var was := text;
      WriteHeading(depth, it.title);
      WriteLine(Markdown.Row(Titles(cols)));
      WriteLine(Markdown.Row(Dashes(|cols|)));
      ghost var top := TableTop(it.title, depth, cols);
      ThreeOps(was, top);
      RenderRows(it.v.elems, cols);
      ghost var rows := RowOps(Rows(it.v.elems, cols));
      WriteAllAppend(was, top, rows);
      text := text + "\n";
      LastNewline(was, top + rows);
    }

    /** renderStruct and renderBlock. */
    method RenderStruct(fs: seq<Field>, depth: nat)
      modifies this
      ensures text == WriteAll(old(text), StructOps(fs, depth))
      decreases FieldsSize(fs), 2, 0
    {
      var flat, blocks := CollectItems(fs);
      CollectedBlocks(fs);
      ghost var was := text;
      RenderFlat(flat);
      RenderBlocks(blocks, depth, FieldsSize(fs));
      WriteAllAppend(was, FlatOps(flat), BlockOps(blocks, depth, FieldsSize(fs)));
    }

    method RenderFlat(flat: seq<Item>)
      modifies this
      ensures text == WriteAll(old(text), FlatOps(flat))
    {
      assert flat[0..] == flat;
      for i := 0 to |flat|
        invariant WriteAll(text, FlatOps(flat[i..])) == WriteAll(old(text), FlatOps(flat))
      {
        assert flat[i..][1..] == flat[i + 1..];
        OneOp(text, FieldLine(flat[i].title, FormatInline(flat[i].v)), FlatOps(flat[i + 1..]));
        WriteField(flat[i].title, FormatInline(flat[i].v));
      }
    }

    method RenderBlock(it: Item, depth: nat, ghost n: nat)
      requires Size(it.v) <= n && IsBlock(it.v)
      modifies this
      ensures text == WriteAll(old(text), BlockOp(it, depth, n))
      decreases n, 0, 0
    {
      if it.v.Struct? {
        RenderNested(it.title, it.v.fields, depth);
        return;
      }
      TableBlock(it, depth, n);
      RenderTable(it, depth);
    }

    method RenderNested(title: string, fs: seq<Field>, depth: nat)
      modifies this
      ensures text == WriteAll(old(text), [HeadingOp(depth, title)] + StructOps(fs, depth + 1))
      decreases FieldsSize(fs), 3, 0
    {
      ghost var was, ops := text, StructOps(fs, depth + 1);
      WriteHeading(depth, title);
      ghost var headed := text;
      RenderStruct(fs, depth + 1);
      assert text == WriteAll(headed, ops);
      OneOp(was, HeadingOp(depth, title), ops);
    }

    method RenderBlocks(blocks: seq<Item>, depth: nat, ghost n: nat)
      requires BlocksWithin(blocks, n)
      modifies this
      ensures text == WriteAll(old(text), BlockOps(blocks, depth, n))
      decreases n, 1, |blocks|
    {
      if |blocks| == 0 {
        return;
      }
      ghost var was := text;
      RenderBlock(blocks[0], depth, n);
      assert forall i | 0 <= i < |blocks[1..]| :: blocks[1..][i] == blocks[i + 1];
      RenderBlocks(blocks[1..], depth, n);
      WriteAllAppend(was, BlockOp(blocks[0], depth, n), BlockOps(blocks[1..], depth, n));
    }
  }

  lemma OneOp(text: string, op: Op, rest: seq<Op>)
    ensures WriteAll(text, [op] + rest) == WriteAll(Write(text, op), rest)
  {
    assert ([op] + rest)[1..] == rest;
  }

  lemma LastNewline(text: string, ops: seq<Op>)
    ensures WriteAll(text, ops + [NewlineOp]) == WriteAll(text, ops) + "\n"
  {
    OneOp(WriteAll(text, ops), NewlineOp, []);
    WriteAllAppend(text, ops, [NewlineOp]);
  }

  lemma ThreeOps(text: string, ops: seq<Op>)
    requires |ops| == 3
    ensures WriteAll(text, ops) == Write(Write(Write(text, ops[0]), ops[1]), ops[2])
  {
    assert ops == [ops[0]] + ([ops[1]] + ([ops[2]] + []));
    OneOp(text, ops[0], [ops[1]] + ([ops[2]] + []));
    OneOp(Write(text, ops[0]), ops[1], [ops[2]] + []);
    OneOp(Write(Write(text, ops[0]), ops[1]), ops[2], []);
  }

  method Format(v: Value) returns (text: string)
    ensures text == ToText(v)
  {
    var sv := Indirect(v);
    if sv.None? || !sv.value.Struct? {
      return "";
    }
    var sb := new Builder();
    sb.RenderStruct(sv.value.fields, 0);
    return TrimRightOf(sb.text, '\n');
  }

  // ---- Tables ----

  /** Every line of a table is the row of as many cells as there are columns. */
  lemma TableWellFormed(it: Item, depth: nat)
    requires it.v.Slice? && StripPtr(it.v.elem).TStruct?
    ensures var cols := TableColumns(StripPtr(it.v.elem).fields);
            var rows := [Titles(cols), Dashes(|cols|)] + Rows(it.v.elems, cols);
            && (forall r | r in rows :: |r| == |cols|)
            && TableOps(it, depth)
               == if cols == [] then [] else [HeadingOp(depth, it.title)] + RowOps(rows) + [NewlineOp]
  {
    var cols := TableColumns(StripPtr(it.v.elem).fields);
    var rows := Rows(it.v.elems, cols);
    var a, b := Titles(cols), Dashes(|cols|);
    TwoRowOps(a, b, rows);
    var lines := [LineOp(Markdown.Row(a)), LineOp(Markdown.Row(b))];
    assert TableTop(it.title, depth, cols) == [HeadingOp(depth, it.title)] + lines;
    Regroup([HeadingOp(depth, it.title)], lines, RowOps(rows), [NewlineOp]);
  }

  lemma Regroup(a: seq<Op>, b: seq<Op>, c: seq<Op>, d: seq<Op>)
    ensures (a + b) + c + d == a + (b + c) + d
  {
  }

  lemma TwoRowOps(a: seq<string>, b: seq<string>, rows: seq<seq<string>>)
    ensures RowOps([a, b] + rows) == [LineOp(Markdown.Row(a)), LineOp(Markdown.Row(b))] + RowOps(rows)
  {
    assert ([a, b] + rows)[1..] == [b] + rows && ([b] + rows)[1..] == rows;
  }
}
