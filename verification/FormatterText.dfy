/** The lines of the rendered text: what each written operation reads, and that
    the text holds exactly these lines, in order. */
module FormatterText {
  import opened Common
  import opened Text
  import opened FormatterModel
  import opened FormatterTable
  import opened Formatter
  import Markdown

  // ---- What a line reads ----

  function HeadingLine(depth: nat, title: string): string { Hashes(depth + 3) + " " + title }

  /** Three marks at the top, one more for each level, and the label. */
  lemma HeadingReads(depth: nat, title: string)
    ensures HeadingLine(0, title) == "### " + title
    ensures HeadingLine(depth + 1, title) == "#" + HeadingLine(depth, title)
  {
    assert Hashes(3) == "###";
    assert Hashes(depth + 4) == "#" + Hashes(depth + 3);
  }

  predicate Spaces(s: string) { forall i | 0 <= i < |s| :: s[i] == ' ' }

  /** The line of a flat field: its label, a colon and, unless there is nothing
      to show, a space and the text up to its last character that is no
      space. */
  predicate ReadsAs(line: string, title: string, text: string) {
    if Spaces(text) then line == title + ":"
    else exists n | 0 < n <= |text| :: text[n - 1] != ' ' && Spaces(text[n..]) && line == title + ": " + text[..n]
  }

  lemma {:induction false} SpacesTrimmed(s: string, r: string)
    requires Spaces(r) && s != "" && s[|s| - 1] != ' '
    ensures TrimRightOf(s + r, ' ') == s
  {
    if r == "" {
      assert s + r == s;
    } else {
      assert (s + r)[..|s + r| - 1] == s + r[..|r| - 1];
      SpacesTrimmed(s, r[..|r| - 1]);
    }
  }

  lemma {:induction false} LastInk(s: string) returns (n: nat)
    requires !Spaces(s)
    ensures 0 < n <= |s| && s[n - 1] != ' ' && Spaces(s[n..])
  {
    if s[|s| - 1] != ' ' {
      n := |s|;
    } else {
      n := LastInk(s[..|s| - 1]);
      assert forall i | n <= i < |s| - 1 :: s[i] == s[..|s| - 1][n..][i - n];
    }
  }

  lemma FlatLineReads(title: string, text: string)
    ensures FieldLine(title, text).LineOp? && ReadsAs(FieldLine(title, text).text, title, text)
  {
    if Spaces(text) {
      SpacesTrimmed(title + ":", " " + text);
      assert title + ": " + text == (title + ":") + (" " + text);
    } else {
      var n := LastInk(text);
      SpacesTrimmed(title + ": " + text[..n], text[n..]);
      assert title + ": " + text == (title + ": " + text[..n]) + text[n..];
    }
  }

  // ---- Lines of a text ----

  /** The text so far is empty or consists of whole lines. */
  predicate WholeLines(text: string) { text == "" || text[|text| - 1] == '\n' }

  function Kept(lines: seq<string>, keep: string -> bool): seq<string> {
    if lines == [] then [] else (if keep(lines[0]) then [lines[0]] else []) + Kept(lines[1..], keep)
  }

  /** The lines of the text that keep chooses. */
  function LinesIn(text: string, keep: string -> bool): seq<string> { Kept(Split(text, '\n'), keep) }

  function OpLine(op: Op): string {
    match op
    case HeadingOp(depth, title) => HeadingLine(depth, title)
    case LineOp(s) => s
    case NewlineOp => ""
  }

  function OpLines(ops: seq<Op>): (r: seq<string>)
    ensures |r| == |ops| && forall i | 0 <= i < |ops| :: r[i] == OpLine(ops[i])
  {
    if ops == [] then [] else [OpLine(ops[0])] + OpLines(ops[1..])
  }

  /** No label and no value has a line break in it. */
  predicate Unbroken(ops: seq<Op>) { forall op | op in ops :: '\n' !in OpLine(op) }

  lemma {:induction false} KeptAppend(a: seq<string>, b: seq<string>, keep: string -> bool)
    ensures Kept(a + b, keep) == Kept(a, keep) + Kept(b, keep)
  {
    if a == [] {
      assert a + b == b;
    } else {
      var ab, one := a + b, if keep(a[0]) then [a[0]] else [];
      assert ab[0] == a[0] && ab[1..] == a[1..] + b;
      KeptAppend(a[1..], b, keep);
      assert one + (Kept(a[1..], keep) + Kept(b, keep)) == (one + Kept(a[1..], keep)) + Kept(b, keep);
    }
  }

  lemma OneKept(line: string, keep: string -> bool)
    ensures Kept([line], keep) == if keep(line) then [line] else []
  {
    assert [line][1..] == [];
  }

  lemma BreakAdded(text: string, keep: string -> bool)
    requires !keep("")
    ensures LinesIn(text + "\n", keep) == LinesIn(text, keep)
  {
    SplitAtSeparator(text, "", '\n');
    assert text + "\n" + "" == text + "\n";
    KeptAppend(Split(text, '\n'), [""], keep);
    OneKept("", keep);
  }

  lemma LineAdded(text: string, line: string, keep: string -> bool)
    requires WholeLines(text) && '\n' !in line && !keep("")
    ensures LinesIn(text + line, keep) == LinesIn(text, keep) + Kept([line], keep)
  {
    SplitNoSeparator(line, '\n');
    if text == "" {
      assert text + line == line;
      OneKept("", keep);
      assert Split("", '\n') == [""];
    } else {
      var t := text[..|text| - 1];
      assert text == t + "\n" && text + line == t + "\n" + line;
      BreakAdded(t, keep);
      SplitAtSeparator(t, line, '\n');
      KeptAppend(Split(t, '\n'), [line], keep);
    }
  }

  /** A heading is written as its own line between blank lines. */
  lemma HeadingWritten(text: string, depth: nat, title: string)
    requires WholeLines(text)
    ensures var before := if text == "" || EndsBlank(text) then text else text + "\n";
            && Write(text, HeadingOp(depth, title)) == before + HeadingLine(depth, title) + "\n" + "\n"
            && (before == "" || before == "\n\n" || EndsBlank(before))
  {
    var before := if text == "" || EndsBlank(text) then text else text + "\n";
    BlankBefore(text);
    HeadingPieces(before, Hashes(depth + 3), title);
  }

  lemma BlankBefore(text: string)
    requires WholeLines(text)
    ensures var before := if text == "" || EndsBlank(text) then text else text + "\n";
            before == "" || before == "\n\n" || EndsBlank(before)
  {
  }

  lemma HeadingPieces(before: string, marks: string, title: string)
    ensures before + marks + " " + title + "\n" + "\n" == before + (marks + " " + title) + "\n" + "\n"
  {
    assert before + marks + " " + title == before + (marks + " " + title);
  }

  lemma LineWritten(text: string, line: string, keep: string -> bool)
    requires WholeLines(text) && '\n' !in line && !keep("")
    ensures LinesIn(text + line + "\n", keep) == LinesIn(text, keep) + Kept([line], keep)
  {
    LineAdded(text, line, keep);
    BreakAdded(text + line, keep);
  }

  lemma HeadingAdded(text: string, depth: nat, title: string, keep: string -> bool)
    requires WholeLines(text) && '\n' !in HeadingLine(depth, title) && !keep("")
    ensures WholeLines(Write(text, HeadingOp(depth, title)))
    ensures LinesIn(Write(text, HeadingOp(depth, title)), keep)
            == LinesIn(text, keep) + Kept([HeadingLine(depth, title)], keep)
  {
    var before := if text == "" || EndsBlank(text) then text else text + "\n";
    var line := HeadingLine(depth, title);
    HeadingWritten(text, depth, title);
    BreakAdded(text, keep);
    LineWritten(before, line, keep);
    BreakAdded(before + line + "\n", keep);
  }

  lemma OneWritten(text: string, op: Op, keep: string -> bool)
    requires WholeLines(text) && '\n' !in OpLine(op) && !keep("")
    ensures WholeLines(Write(text, op))
    ensures LinesIn(Write(text, op), keep) == LinesIn(text, keep) + Kept([OpLine(op)], keep)
  {
    match op
    case NewlineOp =>
      BreakAdded(text, keep);
      OneKept("", keep);
    case LineOp(s) => LineWritten(text, s, keep);
    case HeadingOp(depth, title) => HeadingAdded(text, depth, title, keep);
  }

  lemma WriteAllSnoc(text: string, ops: seq<Op>, op: Op)
    ensures WriteAll(text, ops + [op]) == Write(WriteAll(text, ops), op)
  {
    WriteAllAppend(text, ops, [op]);
    assert [op][1..] == [];
  }

  lemma NothingWritten(keep: string -> bool)
    requires !keep("")
    ensures WholeLines(WriteAll("", [])) && LinesIn(WriteAll("", []), keep) == Kept(OpLines([]), keep)
  {
    OneKept("", keep);
    assert Split("", '\n') == [""];
  }

  lemma OneMoreWritten(text: string, lines: seq<string>, op: Op, keep: string -> bool)
    requires WholeLines(text) && LinesIn(text, keep) == Kept(lines, keep)
    requires '\n' !in OpLine(op) && !keep("")
    ensures WholeLines(Write(text, op)) && LinesIn(Write(text, op), keep) == Kept(lines + [OpLine(op)], keep)
  {
    OneWritten(text, op, keep);
    KeptAppend(lines, [OpLine(op)], keep);
  }

  lemma OpLinesSnoc(front: seq<Op>, op: Op)
    ensures OpLines(front + [op]) == OpLines(front) + [OpLine(op)]
  {
  }

  lemma {:induction false} AllWritten(ops: seq<Op>, keep: string -> bool)
    requires Unbroken(ops) && !keep("")
    ensures WholeLines(WriteAll("", ops)) && LinesIn(WriteAll("", ops), keep) == Kept(OpLines(ops), keep)
    decreases |ops|
  {
    if ops == [] {
      NothingWritten(keep);
    } else {
      var (front, op) := (ops[..|ops| - 1], ops[|ops| - 1]);
      assert ops == front + [op] && op in ops;
      AllWritten(front, keep);
      OneMoreWritten(WriteAll("", front), OpLines(front), op, keep);
      WriteAllSnoc("", front, op);
      OpLinesSnoc(front, op);
    }
  }

  lemma {:induction false} TrimmingKeepsLines(text: string, keep: string -> bool)
    requires !keep("")
    ensures LinesIn(TrimRightOf(text, '\n'), keep) == LinesIn(text, keep)
  {
    if text != "" && text[|text| - 1] == '\n' {
      var t := text[..|text| - 1];
      assert text == t + "\n";
      BreakAdded(t, keep);
      TrimmingKeepsLines(t, keep);
    }
  }

  /** The text and the operations it is written with, nothing left to unfold. */
  lemma Unfolded(fs: seq<Field>) returns (ops: seq<Op>, text: string)
    ensures ops == StructOps(fs, 0)
    ensures text == WriteAll("", ops) && ToText(Struct(fs)) == TrimRightOf(text, '\n')
  {
    ops, text := StructOps(fs, 0), WriteAll("", StructOps(fs, 0));
  }

  lemma TrimmedText(ops: seq<Op>, text: string, keep: string -> bool)
    requires Unbroken(ops) && text == WriteAll("", ops) && !keep("")
    ensures LinesIn(TrimRightOf(text, '\n'), keep) == Kept(OpLines(ops), keep)
  {
    AllWritten(ops, keep);
    TrimmingKeepsLines(text, keep);
  }

  /** Blank lines apart, the text has exactly the lines that are written for
      the struct, in order. */
  lemma TextLines(fs: seq<Field>, keep: string -> bool)
    requires Unbroken(StructOps(fs, 0)) && !keep("")
    ensures LinesIn(ToText(Struct(fs)), keep) == Kept(OpLines(StructOps(fs, 0)), keep)
  {
    var ops, text := Unfolded(fs);
    TrimmedText(ops, text, keep);
  }

  // ---- The flat lines ----

  lemma {:induction false} FlatOpsAt(items: seq<Item>, i: nat)
    requires i < |items|
    ensures |FlatOps(items)| == |items| && FlatOps(items)[i] == FieldLine(items[i].title, FormatInline(items[i].v))
  {
    if i > 0 {
      FlatOpsAt(items[1..], i - 1);
    } else if |items| > 1 {
      FlatOpsAt(items[1..], 0);
    }
  }

  /** Writing only ever appends. */
  lemma {:induction false} WritingAppends(text: string, ops: seq<Op>)
    ensures text <= WriteAll(text, ops)
    decreases |ops|
  {
    if ops != [] { WritingAppends(Write(text, ops[0]), ops[1..]); }
  }

  predicate AllLines(ops: seq<Op>) { forall op | op in ops :: op.LineOp? }

  /** Lines, each with its line break. */
  function Terminated(lines: seq<string>): string {
    if lines == [] then "" else lines[0] + "\n" + Terminated(lines[1..])
  }

  lemma {:induction false} TerminatedWritten(text: string, ops: seq<Op>)
    requires AllLines(ops)
    ensures WriteAll(text, ops) == text + Terminated(OpLines(ops))
    decreases |ops|
  {
    if ops == [] {
      assert text + "" == text;
    } else {
      var (line, tail) := (ops[0].text, ops[1..]);
      assert ops[0] in ops && forall op | op in tail :: op in ops;
      TerminatedWritten(text + line + "\n", tail);
      OneTerminated(line, OpLines(tail), "");
      assert Terminated([line] + OpLines(tail)) + "" == Terminated(OpLines(ops));
      assert Terminated(OpLines(tail)) + "" == Terminated(OpLines(tail));
      Text.Regroup(text, line, "\n", Terminated(OpLines(tail)));
    }
  }

  lemma {:induction false} TerminatedSplit(lines: seq<string>, rest: string)
    requires forall i | 0 <= i < |lines| :: '\n' !in lines[i]
    ensures Split(Terminated(lines) + rest, '\n') == lines + Split(rest, '\n')
  {
    if lines == [] {
      assert "" + rest == rest && [] + Split(rest, '\n') == Split(rest, '\n');
    } else {
      var (line, tail) := (lines[0], lines[1..]);
      TerminatedSplit(tail, rest);
      LineFirst(line, Terminated(tail) + rest);
      OneTerminated(line, tail, rest);
      assert lines == [line] + tail;
    }
  }

  lemma OneTerminated(line: string, tail: seq<string>, rest: string)
    ensures Terminated([line] + tail) + rest == line + "\n" + (Terminated(tail) + rest)
  {
    assert ([line] + tail)[1..] == tail;
  }

  lemma LineFirst(line: string, rest: string)
    requires '\n' !in line
    ensures Split(line + "\n" + rest, '\n') == [line] + Split(rest, '\n')
  {
    SplitAtSeparator(line, rest, '\n');
    SplitNoSeparator(line, '\n');
  }

  /** Lines written one after the other are split again into themselves, and
      whatever follows. */
  lemma LinesSplit(ops: seq<Op>, rest: string)
    requires AllLines(ops) && Unbroken(ops)
    ensures Split(WriteAll("", ops) + rest, '\n') == OpLines(ops) + Split(rest, '\n')
  {
    TerminatedWritten("", ops);
    forall i | 0 <= i < |ops| ensures '\n' !in OpLines(ops)[i] { assert ops[i] in ops; }
    TerminatedSplit(OpLines(ops), rest);
    assert "" + Terminated(OpLines(ops)) == Terminated(OpLines(ops));
  }

  /** Trimming takes empty lines off the end and nothing else. */
  lemma {:induction false} TrimmedSplit(text: string)
    ensures Split(TrimRightOf(text, '\n'), '\n') <= Split(text, '\n')
    ensures var n := |Split(TrimRightOf(text, '\n'), '\n')|;
            forall i | n <= i < |Split(text, '\n')| :: Split(text, '\n')[i] == ""
  {
    if text != "" && text[|text| - 1] == '\n' {
      var t := text[..|text| - 1];
      assert text == t + "\n" + "";
      SplitAtSeparator(t, "", '\n');
      TrimmedSplit(t);
    }
  }

  /** The text begins with its flat lines: line i is that of flat item i, its
      label, a colon, and its text on one line. */
  lemma FlatLinesOfText(fs: seq<Field>, i: nat)
    requires Unbroken(FlatOps(Collect(fs).0)) && i < |Collect(fs).0|
    ensures var lines := Split(ToText(Struct(fs)), '\n');
            var it := Collect(fs).0[i];
            i < |lines| && ReadsAs(lines[i], it.title, FormatInline(it.v))
  {
    var flat := FlatOps(Collect(fs).0);
    var text, rest := TextBegins(fs);
    FlatAllLines(Collect(fs).0);
    LinesSplit(flat, rest);
    TrimmedSplit(text);
    FlatOpsAt(Collect(fs).0, i);
    FlatLineReads(Collect(fs).0[i].title, FormatInline(Collect(fs).0[i].v));
    assert Split(text, '\n')[i] == OpLines(flat)[i];
  }

  lemma TextBegins(fs: seq<Field>) returns (text: string, rest: string)
    ensures text == WriteAll("", FlatOps(Collect(fs).0)) + rest
    ensures ToText(Struct(fs)) == TrimRightOf(text, '\n')
  {
    var ops, blocks;
    ops, text := Unfolded(fs);
    blocks := FlatFirst(fs);
    rest := WrittenAfter(FlatOps(Collect(fs).0), blocks);
  }

  lemma FlatFirst(fs: seq<Field>) returns (blocks: seq<Op>)
    ensures StructOps(fs, 0) == FlatOps(Collect(fs).0) + blocks
  {
    CollectedBlocks(fs);
    blocks := BlockOps(Collect(fs).1, 0, FieldsSize(fs));
  }

  lemma WrittenAfter(a: seq<Op>, b: seq<Op>) returns (rest: string)
    ensures WriteAll("", a + b) == WriteAll("", a) + rest
  {
    WriteAllAppend("", a, b);
    WritingAppends(WriteAll("", a), b);
    rest := WriteAll("", a + b)[|WriteAll("", a)|..];
  }

  lemma {:induction false} FlatAllLines(items: seq<Item>)
    ensures AllLines(FlatOps(items))
  {
    if items != [] { FlatAllLines(items[1..]); }
  }

  // ---- Trimming at the end ----

  /** The final text is what was written, without the line breaks at its end;
      anything but a struct, seen through references, has no text. */
  lemma TextEnds(v: Value)
    ensures Indirect(v).None? || !Indirect(v).value.Struct? ==> ToText(v) == ""
    ensures ToText(v) != "" ==> ToText(v)[|ToText(v)| - 1] != '\n'
    ensures Indirect(v).Some? && Indirect(v).value.Struct? ==>
              exists r :: OnlyOf(r, '\n') && WriteAll("", StructOps(Indirect(v).value.fields, 0)) == ToText(v) + r
  {
    if Indirect(v).Some? && Indirect(v).value.Struct? {
      TrimCuts(WriteAll("", StructOps(Indirect(v).value.fields, 0)), '\n');
    }
  }

  predicate OnlyOf(s: string, c: char) { forall i | 0 <= i < |s| :: s[i] == c }

  lemma {:induction false} TrimCuts(s: string, c: char)
    ensures TrimRightOf(s, c) != "" ==> TrimRightOf(s, c)[|TrimRightOf(s, c)| - 1] != c
    ensures exists r :: OnlyOf(r, c) && s == TrimRightOf(s, c) + r
  {
    if s != "" && s[|s| - 1] == c {
      var t := s[..|s| - 1];
      TrimCuts(t, c);
      var r :| OnlyOf(r, c) && t == TrimRightOf(t, c) + r;
      assert s == TrimRightOf(s, c) + (r + [c]);
    } else {
      assert s == TrimRightOf(s, c) + "";
    }
  }
}
