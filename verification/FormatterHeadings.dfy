/** The headings of the rendered text: one for each block, in preorder, with
    marks that show how deep it is nested. */
module FormatterHeadings {
  import opened Text
  import opened FormatterModel
  import opened FormatterTable
  import opened Formatter
  import opened FormatterText
  import Markdown

  /** Where a heading stands: the positions of the blocks that lead to it. */
  datatype Place = Place(path: seq<nat>, title: string)

  function OutlineItem(it: Item, path: seq<nat>, n: nat): seq<Place>
    requires Size(it.v) <= n && IsBlock(it.v)
    decreases n, 0, 0
  {
    if it.v.Struct? then [Place(path, it.title)] + Outline(it.v.fields, path)
    else TablePlaces(it, path)
  }

  function OutlineItems(items: seq<Item>, path: seq<nat>, k: nat, n: nat): seq<Place>
    requires BlocksWithin(items, n)
    decreases n, 1, |items|
  {
    if items == [] then []
    else
      assert forall i | 0 <= i < |items[1..]| :: items[1..][i] == items[i + 1];
      OutlineItem(items[0], path + [k], n) + OutlineItems(items[1..], path, k + 1, n)
  }

  /** The blocks of a struct and of its blocks, in preorder. */
  function Outline(fs: seq<Field>, path: seq<nat>): seq<Place>
    decreases FieldsSize(fs), 2, 0
  {
    CollectedBlocks(fs);
    OutlineItems(Collect(fs).1, path, 0, FieldsSize(fs))
  }

  function HeadingLines(ops: seq<Op>): seq<string> {
    if ops == [] then []
    else (if ops[0].HeadingOp? then [HeadingLine(ops[0].depth, ops[0].title)] else []) + HeadingLines(ops[1..])
  }

  /** A block whose path has n positions is nested n - 1 deep. */
  function Nesting(p: Place): nat { if p.path == [] then 0 else |p.path| - 1 }

  function OutlineLines(ps: seq<Place>): seq<string> {
    if ps == [] then [] else [HeadingLine(Nesting(ps[0]), ps[0].title)] + OutlineLines(ps[1..])
  }

  predicate Rooted(ps: seq<Place>) { forall i | 0 <= i < |ps| :: ps[i].path != [] }

  lemma {:induction false} HeadingLinesAppend(a: seq<Op>, b: seq<Op>)
    ensures HeadingLines(a + b) == HeadingLines(a) + HeadingLines(b)
  {
    if a == [] {
      assert a + b == b;
    } else {
      assert (a + b)[1..] == a[1..] + b;
      HeadingLinesAppend(a[1..], b);
    }
  }

  lemma {:induction false} OutlineLinesAppend(a: seq<Place>, b: seq<Place>)
    ensures OutlineLines(a + b) == OutlineLines(a) + OutlineLines(b)
  {
    if a == [] {
      assert a + b == b;
    } else {
      assert (a + b)[1..] == a[1..] + b;
      OutlineLinesAppend(a[1..], b);
    }
  }

  lemma {:induction false} NoHeadings(items: seq<Item>, rows: seq<seq<string>>)
    ensures HeadingLines(FlatOps(items)) == [] && HeadingLines(RowOps(rows)) == []
  {
    if items != [] { NoHeadings(items[1..], rows); }
    if rows != [] { NoHeadings(items, rows[1..]); }
  }

  lemma TableHeading(it: Item, depth: nat)
    requires it.v.Slice? && StripPtr(it.v.elem).TStruct?
    ensures HeadingLines(TableOps(it, depth)) ==
            if TableColumns(StripPtr(it.v.elem).fields) == [] then [] else [HeadingLine(depth, it.title)]
  {
    var cols := TableColumns(StripPtr(it.v.elem).fields);
    if cols != [] {
      var top, rows := TableTop(it.title, depth, cols), RowOps(Rows(it.v.elems, cols));
      HeadingLinesAppend(top + rows, [NewlineOp]);
      HeadingLinesAppend(top, rows);
      NoHeadings([], Rows(it.v.elems, cols));
      assert HeadingLines([NewlineOp]) == [];
      assert top == [top[0]] + [top[1], top[2]];
      HeadingLinesAppend([top[0]], [top[1], top[2]]);
      assert HeadingLines([top[0]]) == [HeadingLine(depth, it.title)];
      assert HeadingLines([top[1], top[2]]) == HeadingLines([top[2]]) == [];
    }
  }

  /** The headings of a struct, from the top or from inside a block, are the
      outline of its blocks in order, each with three marks more than its
      nesting depth. */
  lemma {:induction false} HeadingsFollowNesting(fs: seq<Field>, path: seq<nat>)
    ensures Rooted(Outline(fs, path))
    ensures HeadingLines(StructOps(fs, |path|)) == OutlineLines(Outline(fs, path))
    decreases FieldsSize(fs), 2, 0
  {
    CollectedBlocks(fs);
    var n := FieldsSize(fs);
    BlockHeadings(Collect(fs).1, path, 0, n);
    NoHeadings(Collect(fs).0, []);
    HeadingLinesAppend(FlatOps(Collect(fs).0), BlockOps(Collect(fs).1, |path|, n));
  }

  lemma {:induction false} BlockHeadings(items: seq<Item>, path: seq<nat>, k: nat, n: nat)
    requires BlocksWithin(items, n)
    ensures Rooted(OutlineItems(items, path, k, n))
    ensures HeadingLines(BlockOps(items, |path|, n)) == OutlineLines(OutlineItems(items, path, k, n))
    decreases n, 1, |items|
  {
    if items != [] {
      assert forall i | 0 <= i < |items[1..]| :: items[1..][i] == items[i + 1];
      OneBlockHeadings(items[0], path, k, n);
      BlockHeadings(items[1..], path, k + 1, n);
      HeadingLinesAppend(BlockOp(items[0], |path|, n), BlockOps(items[1..], |path|, n));
      OutlineLinesAppend(OutlineItem(items[0], path + [k], n), OutlineItems(items[1..], path, k + 1, n));
    }
  }

  lemma {:induction false} OneBlockHeadings(it: Item, path: seq<nat>, k: nat, n: nat)
    requires Size(it.v) <= n && IsBlock(it.v)
    ensures Rooted(OutlineItem(it, path + [k], n))
    ensures HeadingLines(BlockOp(it, |path|, n)) == OutlineLines(OutlineItem(it, path + [k], n))
    decreases n, 0, 0
  {
    if it.v.Struct? {
      HeadingsFollowNesting(it.v.fields, path + [k]);
      NestedHeadings(it.title, it.v.fields, path, k);
    } else {
      TableOutline(it, path, k);
      TableBlock(it, |path|, n);
    }
  }

  lemma OnePlace(path: seq<nat>, title: string)
    requires path != []
    ensures Rooted([Place(path, title)])
    ensures OutlineLines([Place(path, title)]) == [HeadingLine(|path| - 1, title)]
  {
    assert [Place(path, title)][1..] == [];
  }

  /** A block's own heading before those of its struct. */
  lemma NestedHeadings(title: string, fs: seq<Field>, path: seq<nat>, k: nat)
    requires Rooted(Outline(fs, path + [k]))
    requires HeadingLines(StructOps(fs, |path + [k]|)) == OutlineLines(Outline(fs, path + [k]))
    ensures Rooted([Place(path + [k], title)] + Outline(fs, path + [k]))
    ensures HeadingLines([HeadingOp(|path|, title)] + StructOps(fs, |path| + 1))
            == OutlineLines([Place(path + [k], title)] + Outline(fs, path + [k]))
  {
    HeadingFirst(|path|, title, StructOps(fs, |path| + 1));
    PlaceFirst(path + [k], title, Outline(fs, path + [k]));
  }

  lemma TableOutline(it: Item, path: seq<nat>, k: nat)
    requires it.v.Slice? && StripPtr(it.v.elem).TStruct?
    ensures var places := TablePlaces(it, path + [k]);
            Rooted(places) && HeadingLines(TableOps(it, |path|)) == OutlineLines(places)
  {
    TableHeading(it, |path|);
    PlacesOfTable(it, path + [k]);
  }

  function TablePlaces(it: Item, path: seq<nat>): seq<Place>
    requires it.v.Slice? && StripPtr(it.v.elem).TStruct?
  {
    if TableColumns(StripPtr(it.v.elem).fields) == [] then [] else [Place(path, it.title)]
  }

  lemma PlacesOfTable(it: Item, path: seq<nat>)
    requires it.v.Slice? && StripPtr(it.v.elem).TStruct? && path != []
    ensures Rooted(TablePlaces(it, path))
    ensures OutlineLines(TablePlaces(it, path)) ==
            if TableColumns(StripPtr(it.v.elem).fields) == [] then [] else [HeadingLine(|path| - 1, it.title)]
  {
    OnePlace(path, it.title);
  }

  lemma HeadingFirst(depth: nat, title: string, rest: seq<Op>)
    ensures HeadingLines([HeadingOp(depth, title)] + rest) == [HeadingLine(depth, title)] + HeadingLines(rest)
  {
    assert ([HeadingOp(depth, title)] + rest)[1..] == rest;
  }

  lemma PlaceFirst(path: seq<nat>, title: string, rest: seq<Place>)
    requires path != [] && Rooted(rest)
    ensures Rooted([Place(path, title)] + rest)
    ensures OutlineLines([Place(path, title)] + rest) == [HeadingLine(|path| - 1, title)] + OutlineLines(rest)
  {
    assert ([Place(path, title)] + rest)[1..] == rest;
  }

  // ---- The headings of the text ----

  predicate IsHeading(line: string) { line != "" && line[0] == '#' }

  /** No line but a heading starts like one. */
  predicate NoFalseHeadings(ops: seq<Op>) { forall op | op in ops && op.LineOp? :: !IsHeading(op.text) }

  lemma {:induction false} HeadingsAmongLines(ops: seq<Op>)
    requires NoFalseHeadings(ops)
    ensures Kept(OpLines(ops), IsHeading) == HeadingLines(ops)
  {
    if ops != [] {
      var (op, rest) := (ops[0], ops[1..]);
      assert op in ops && forall o | o in rest :: o in ops;
      HeadingsAmongLines(rest);
      assert OpLines(ops) == [OpLine(op)] + OpLines(rest);
      KeptAppend([OpLine(op)], OpLines(rest), IsHeading);
      OneKept(OpLine(op), IsHeading);
      if op.HeadingOp? { assert OpLine(op)[0] == Hashes(op.depth + 3)[0]; }
    }
  }

  /** The heading lines of the text are the blocks of the struct and of its
      blocks, in preorder, a block nested k deep with k + 3 marks. */
  lemma TextHeadings(fs: seq<Field>)
    requires Unbroken(StructOps(fs, 0)) && NoFalseHeadings(StructOps(fs, 0))
    ensures LinesIn(ToText(Struct(fs)), IsHeading) == OutlineLines(Outline(fs, []))
  {
    TextLines(fs, IsHeading);
    HeadingsAmongLines(StructOps(fs, 0));
    HeadingsFollowNesting(fs, []);
  }
}
