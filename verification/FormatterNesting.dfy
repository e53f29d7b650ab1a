/** Rewriting deep inside a value. A struct that is nested under labelled or
    embedded fields may be replaced by one that is written alike, and the text
    stays the same exactly when omitempty judges both alike all the way up. */
module FormatterNesting {
  import opened Common
  import opened Text
  import opened FormatterModel
  import opened Formatter
  import opened FormatterRewriting

  // ---- Written alike ----

  ghost predicate SameOps(fs: seq<Field>, gs: seq<Field>) {
    forall depth: nat :: StructOps(fs, depth) == StructOps(gs, depth)
  }

  ghost predicate AlikeItem(x: Item, y: Item) {
    x == y || (x.title == y.title && x.v.Struct? && y.v.Struct? && SameOps(x.v.fields, y.v.fields))
  }

  /** Equal flat items, and blocks that pair by pair are written alike. */
  ghost predicate AlikeItems(x: Items, y: Items) {
    x.0 == y.0 && |x.1| == |y.1| && forall i | 0 <= i < |x.1| :: AlikeItem(x.1[i], y.1[i])
  }

  ghost predicate Alike(fs: seq<Field>, gs: seq<Field>) { AlikeItems(Collect(fs), Collect(gs)) }

  lemma AlikeBlock(x: Item, y: Item, depth: nat, n: nat, m: nat)
    requires Size(x.v) <= n && Size(y.v) <= m && IsBlock(x.v) && IsBlock(y.v) && AlikeItem(x, y)
    ensures BlockOp(x, depth, n) == BlockOp(y, depth, m)
  {
    if x.v.Struct? {
      assert StructOps(x.v.fields, depth + 1) == StructOps(y.v.fields, depth + 1);
    } else {
      TableBlock(x, depth, n);
      TableBlock(y, depth, m);
    }
  }

  lemma {:induction false} AlikeBlocks(a: seq<Item>, b: seq<Item>, depth: nat, n: nat, m: nat)
    requires BlocksWithin(a, n) && BlocksWithin(b, m)
    requires |a| == |b| && forall i | 0 <= i < |a| :: AlikeItem(a[i], b[i])
    ensures BlockOps(a, depth, n) == BlockOps(b, depth, m)
    decreases |a|
  {
    if a != [] {
      assert forall i | 0 <= i < |a[1..]| :: a[1..][i] == a[i + 1] && b[1..][i] == b[i + 1];
      AlikeBlock(a[0], b[0], depth, n, m);
      AlikeBlocks(a[1..], b[1..], depth, n, m);
    }
  }

  lemma AlikeSameOps(fs: seq<Field>, gs: seq<Field>)
    requires Alike(fs, gs)
    ensures SameOps(fs, gs)
  {
    CollectedBlocks(fs);
    CollectedBlocks(gs);
    forall depth: nat ensures StructOps(fs, depth) == StructOps(gs, depth) {
      AlikeBlocks(Collect(fs).1, Collect(gs).1, depth, FieldsSize(fs), FieldsSize(gs));
    }
  }

  lemma CollectMiddle(pre: seq<Field>, g: Field, post: seq<Field>)
    ensures Collect(pre + [g] + post) == Plus(Plus(Collect(pre), Collect([g])), Collect(post))
  {
    CollectAppend(pre + [g], post);
    CollectAppend(pre, [g]);
  }

  lemma AlikeInMiddle(pre: seq<Field>, g: Field, h: Field, post: seq<Field>)
    requires Alike([g], [h])
    ensures Alike(pre + [g] + post, pre + [h] + post)
  {
    CollectMiddle(pre, g, post);
    CollectMiddle(pre, h, post);
    AlikeBetween(Collect(pre), Collect([g]), Collect([h]), Collect(post));
  }

  lemma AlikeBetween(a: Items, x: Items, y: Items, b: Items)
    requires AlikeItems(x, y)
    ensures AlikeItems(Plus(Plus(a, x), b), Plus(Plus(a, y), b))
  {
  }

  // ---- Frames ----

  /** What surrounds a nested struct: the fields beside it, the tag of the
      field that holds it, and the references in between. */
  datatype Frame = Frame(pre: seq<Field>, tag: Tag, refs: seq<bool>, post: seq<Field>)

  function Referred(refs: seq<bool>, v: Value): (r: Value)
    requires v.Struct?
    ensures Indirect(r) == Some(v)
  {
    if refs == [] then v else Ref(refs[0], Referred(refs[1..], v))
  }

  function FieldIn(fr: Frame, fs: seq<Field>): Field { Field(fr.tag, Referred(fr.refs, Struct(fs))) }

  /** The fields of the outermost struct. */
  function Plug(frames: seq<Frame>, fs: seq<Field>): seq<Field> {
    if frames == [] then fs
    else frames[0].pre + [FieldIn(frames[0], Plug(frames[1..], fs))] + frames[0].post
  }

  /** A struct under a field with this tag may be printed. */
  predicate Shown(tag: Tag) { tag.exported && (tag.title != "" || tag.anonymous) }

  /** Going down from the top, omitempty judges the two nested structs alike,
      until it leaves both out or a field is not printed anyway. */
  predicate JudgedAlike(frames: seq<Frame>, fs: seq<Field>, gs: seq<Field>) {
    if frames == [] then true
    else
      var (tag, rest) := (frames[0].tag, frames[1..]);
      var (v, w) := (Struct(Plug(rest, fs)), Struct(Plug(rest, gs)));
      if !Shown(tag) then true
      else if tag.title == "" then JudgedAlike(rest, fs, gs)
      else Omitted(tag.json, v) == Omitted(tag.json, w) && (Omitted(tag.json, v) || JudgedAlike(rest, fs, gs))
  }

  lemma CollectFrame(fr: Frame, fs: seq<Field>)
    ensures Collect([FieldIn(fr, fs)]) ==
            if !Shown(fr.tag) then ([], [])
            else if fr.tag.title == "" then Collect(fs)
            else if Omitted(fr.tag.json, Struct(fs)) then ([], [])
            else ([], [Item(fr.tag.title, Struct(fs))])
  {
    CollectOne(FieldIn(fr, fs));
    PartitionOne(FieldIn(fr, fs));
  }

  lemma AlikeInFrame(fr: Frame, fs: seq<Field>, gs: seq<Field>)
    requires fr.tag.title == "" ==> Alike(fs, gs)
    requires fr.tag.title != "" ==> Omitted(fr.tag.json, Struct(fs)) == Omitted(fr.tag.json, Struct(gs))
    requires fr.tag.title != "" && !Omitted(fr.tag.json, Struct(fs)) ==> SameOps(fs, gs)
    ensures Alike([FieldIn(fr, fs)], [FieldIn(fr, gs)])
  {
    CollectFrame(fr, fs);
    CollectFrame(fr, gs);
  }

  lemma HiddenFrame(fr: Frame, fs: seq<Field>, gs: seq<Field>)
    requires !Shown(fr.tag)
    ensures Alike([FieldIn(fr, fs)], [FieldIn(fr, gs)])
  {
    CollectFrame(fr, fs);
    CollectFrame(fr, gs);
  }

  lemma {:induction false} JudgedAlikeWrittenAlike(frames: seq<Frame>, fs: seq<Field>, gs: seq<Field>)
    requires Alike(fs, gs) && JudgedAlike(frames, fs, gs)
    ensures Alike(Plug(frames, fs), Plug(frames, gs))
  {
    if frames != [] {
      var fr, inner, other := frames[0], Plug(frames[1..], fs), Plug(frames[1..], gs);
      if !Shown(fr.tag) {
        HiddenFrame(fr, inner, other);
      } else {
        if JudgedAlike(frames[1..], fs, gs) {
          JudgedAlikeWrittenAlike(frames[1..], fs, gs);
          AlikeSameOps(inner, other);
        }
        AlikeInFrame(fr, inner, other);
      }
      AlikeInMiddle(fr.pre, FieldIn(fr, inner), FieldIn(fr, other), fr.post);
    }
  }

  // ---- Ink: the characters that are not line breaks ----

  function Ink(s: string): nat { if s == "" then 0 else (if s[0] == '\n' then 0 else 1) + Ink(s[1..]) }

  lemma {:induction false} InkAppend(a: string, b: string)
    ensures Ink(a + b) == Ink(a) + Ink(b)
  {
    if a == "" {
      assert a + b == b;
    } else {
      assert (a + b)[1..] == a[1..] + b;
      InkAppend(a[1..], b);
    }
  }

  lemma {:induction false} InkOfTrimmed(s: string)
    ensures Ink(TrimRightOf(s, '\n')) == Ink(s)
  {
    if s != "" && s[|s| - 1] == '\n' {
      assert s == s[..|s| - 1] + "\n";
      InkAppend(s[..|s| - 1], "\n");
      InkOfTrimmed(s[..|s| - 1]);
    }
  }

  function OpInk(op: Op): nat {
    match op
    case HeadingOp(depth, title) => Ink(Hashes(depth + 3)) + 1 + Ink(title)
    case LineOp(s) => Ink(s)
    case NewlineOp => 0
  }

  function OpsInk(ops: seq<Op>): nat { if ops == [] then 0 else OpInk(ops[0]) + OpsInk(ops[1..]) }

  lemma {:induction false} OpsInkAppend(a: seq<Op>, b: seq<Op>)
    ensures OpsInk(a + b) == OpsInk(a) + OpsInk(b)
  {
    if a == [] {
      assert a + b == b;
    } else {
      assert (a + b)[1..] == a[1..] + b;
      OpsInkAppend(a[1..], b);
    }
  }

  lemma HeadingInk(text: string, marks: string, title: string)
    ensures Ink(text + marks + " " + title + "\n" + "\n") == Ink(text) + Ink(marks) + 1 + Ink(title)
  {
    InkAppend(text, marks);
    InkAppend(text + marks, " ");
    InkAppend(text + marks + " ", title);
    InkAppend(text + marks + " " + title, "\n");
    InkAppend(text + marks + " " + title + "\n", "\n");
  }

  lemma WriteInk(text: string, op: Op)
    ensures Ink(Write(text, op)) == Ink(text) + OpInk(op)
  {
    match op
    case LineOp(s) =>
      InkAppend(text, s);
      InkAppend(text + s, "\n");
    case NewlineOp => InkAppend(text, "\n");
    case HeadingOp(depth, title) =>
      InkAppend(text, "\n");
      HeadingInk(if text != "" && !EndsBlank(text) then text + "\n" else text, Hashes(depth + 3), title);
  }

  lemma {:induction false} WriteAllInk(text: string, ops: seq<Op>)
    ensures Ink(WriteAll(text, ops)) == Ink(text) + OpsInk(ops)
    decreases |ops|
  {
    if ops != [] {
      WriteInk(text, ops[0]);
      WriteAllInk(Write(text, ops[0]), ops[1..]);
    }
  }

  lemma TextInk(fs: seq<Field>)
    ensures Ink(ToText(Struct(fs))) == OpsInk(StructOps(fs, 0))
  {
    InkOfTrimmed(WriteAll("", StructOps(fs, 0)));
    WriteAllInk("", StructOps(fs, 0));
  }

  /** The ink of a struct is that of its items, wherever they stand. */
  function ItemsInk(x: Items, depth: nat, n: nat): nat
    requires BlocksWithin(x.1, n)
  {
    OpsInk(FlatOps(x.0)) + OpsInk(BlockOps(x.1, depth, n))
  }

  lemma {:induction false} FlatInkAppend(a: seq<Item>, b: seq<Item>)
    ensures OpsInk(FlatOps(a + b)) == OpsInk(FlatOps(a)) + OpsInk(FlatOps(b))
  {
    if a == [] {
      assert a + b == b;
    } else {
      assert (a + b)[1..] == a[1..] + b;
      FlatInkAppend(a[1..], b);
      OpsInkCons(FieldLine(a[0].title, FormatInline(a[0].v)), FlatOps((a + b)[1..]));
      OpsInkCons(FieldLine(a[0].title, FormatInline(a[0].v)), FlatOps(a[1..]));
    }
  }

  lemma OpsInkCons(op: Op, ops: seq<Op>)
    ensures OpsInk([op] + ops) == OpInk(op) + OpsInk(ops)
  {
    assert ([op] + ops)[1..] == ops;
  }

  lemma {:induction false} BlockInkAppend(a: seq<Item>, b: seq<Item>, depth: nat, n: nat)
    requires BlocksWithin(a, n) && BlocksWithin(b, n)
    ensures BlocksWithin(a + b, n)
    ensures OpsInk(BlockOps(a + b, depth, n)) == OpsInk(BlockOps(a, depth, n)) + OpsInk(BlockOps(b, depth, n))
  {
    if a == [] {
      assert a + b == b;
    } else {
      assert forall i | 0 <= i < |a[1..]| :: a[1..][i] == a[i + 1];
      assert (a + b)[0] == a[0] && (a + b)[1..] == a[1..] + b;
      BlockInkAppend(a[1..], b, depth, n);
      BlockInkHead(a + b, depth, n);
      BlockInkHead(a, depth, n);
    }
  }

  lemma BlockInkHead(items: seq<Item>, depth: nat, n: nat)
    requires items != [] && BlocksWithin(items, n)
    ensures BlocksWithin(items[1..], n)
    ensures OpsInk(BlockOps(items, depth, n)) ==
            OpsInk(BlockOp(items[0], depth, n)) + OpsInk(BlockOps(items[1..], depth, n))
  {
    assert forall i | 0 <= i < |items[1..]| :: items[1..][i] == items[i + 1];
    OpsInkAppend(BlockOp(items[0], depth, n), BlockOps(items[1..], depth, n));
  }

  lemma ItemsInkPlus(x: Items, y: Items, depth: nat, n: nat)
    requires BlocksWithin(x.1, n) && BlocksWithin(y.1, n)
    ensures BlocksWithin(Plus(x, y).1, n)
    ensures ItemsInk(Plus(x, y), depth, n) == ItemsInk(x, depth, n) + ItemsInk(y, depth, n)
  {
    FlatInkAppend(x.0, y.0);
    BlockInkAppend(x.1, y.1, depth, n);
  }

  lemma StructInk(fs: seq<Field>, depth: nat, n: nat)
    requires FieldsSize(fs) <= n
    ensures BlocksWithin(Collect(fs).1, n)
    ensures OpsInk(StructOps(fs, depth)) == ItemsInk(Collect(fs), depth, n)
  {
    CollectedBlocks(fs);
    BoundIrrelevant(Collect(fs).1, depth, FieldsSize(fs), n);
    OpsInkAppend(FlatOps(Collect(fs).0), BlockOps(Collect(fs).1, depth, FieldsSize(fs)));
  }

  lemma StructInkAppend(a: seq<Field>, b: seq<Field>, depth: nat)
    ensures OpsInk(StructOps(a + b, depth)) == OpsInk(StructOps(a, depth)) + OpsInk(StructOps(b, depth))
  {
    var n := FieldsSize(a + b);
    FieldsSizeAppend(a, b);
    CollectAppend(a, b);
    StructInk(a, depth, n);
    StructInk(b, depth, n);
    StructInk(a + b, depth, n);
    ItemsInkPlus(Collect(a), Collect(b), depth, n);
  }

  lemma InkInMiddle(pre: seq<Field>, g: Field, post: seq<Field>, depth: nat)
    ensures OpsInk(StructOps(pre + [g] + post, depth)) ==
            OpsInk(StructOps(pre, depth)) + OpsInk(StructOps([g], depth)) + OpsInk(StructOps(post, depth))
  {
    StructInkAppend(pre + [g], post, depth);
    StructInkAppend(pre, [g], depth);
  }

  /** The ink of a nested struct, as the frame shows it. */
  lemma FrameInk(fr: Frame, fs: seq<Field>, depth: nat)
    ensures OpsInk(StructOps([FieldIn(fr, fs)], depth)) ==
            if !Shown(fr.tag) then 0
            else if fr.tag.title == "" then OpsInk(StructOps(fs, depth))
            else if Omitted(fr.tag.json, Struct(fs)) then 0
            else OpInk(HeadingOp(depth, fr.tag.title)) + OpsInk(StructOps(fs, depth + 1))
  {
    var g := FieldIn(fr, fs);
    var n := FieldsSize([g]) + FieldsSize(fs) + 1;
    CollectFrame(fr, fs);
    StructInk([g], depth, n);
    StructInk(fs, depth, n);
    if fr.tag.exported && fr.tag.title != "" && !Omitted(fr.tag.json, Struct(fs)) {
      var it := Item(fr.tag.title, Struct(fs));
      assert [it][1..] == [];
      assert BlockOps([it], depth, n) == BlockOp(it, depth, n) + BlockOps([], depth, n) == BlockOp(it, depth, n);
      OpsInkCons(HeadingOp(depth, fr.tag.title), StructOps(fs, depth + 1));
    }
  }

  lemma FrameInkDiffers(fr: Frame, fs: seq<Field>, gs: seq<Field>, depth: nat)
    requires OpsInk(StructOps([FieldIn(fr, fs)], depth)) != OpsInk(StructOps([FieldIn(fr, gs)], depth))
    ensures OpsInk(StructOps(fr.pre + [FieldIn(fr, fs)] + fr.post, depth))
            != OpsInk(StructOps(fr.pre + [FieldIn(fr, gs)] + fr.post, depth))
  {
    InkInMiddle(fr.pre, FieldIn(fr, fs), fr.post, depth);
    InkInMiddle(fr.pre, FieldIn(fr, gs), fr.post, depth);
  }

  /** How deep the struct in a frame is written. */
  function DepthIn(fr: Frame, depth: nat): nat { if fr.tag.title == "" then depth else depth + 1 }

  lemma InnerInkDiffers(fr: Frame, fs: seq<Field>, gs: seq<Field>, depth: nat)
    requires Shown(fr.tag)
    requires fr.tag.title != "" ==> !Omitted(fr.tag.json, Struct(fs)) && !Omitted(fr.tag.json, Struct(gs))
    requires OpsInk(StructOps(fs, DepthIn(fr, depth))) != OpsInk(StructOps(gs, DepthIn(fr, depth)))
    ensures OpsInk(StructOps([FieldIn(fr, fs)], depth)) != OpsInk(StructOps([FieldIn(fr, gs)], depth))
  {
    FrameInk(fr, fs, depth);
    FrameInk(fr, gs, depth);
  }

  lemma OmissionInkDiffers(fr: Frame, fs: seq<Field>, gs: seq<Field>, depth: nat)
    requires fr.tag.exported && fr.tag.title != ""
    requires Omitted(fr.tag.json, Struct(fs)) != Omitted(fr.tag.json, Struct(gs))
    ensures OpsInk(StructOps([FieldIn(fr, fs)], depth)) != OpsInk(StructOps([FieldIn(fr, gs)], depth))
  {
    FrameInk(fr, fs, depth);
    FrameInk(fr, gs, depth);
  }

  /** Where omitempty judges them differently, one of the two texts has more
      ink. */
  lemma {:induction false} JudgedDifferentlyInkDiffers(frames: seq<Frame>, fs: seq<Field>, gs: seq<Field>, depth: nat)
    requires !JudgedAlike(frames, fs, gs)
    ensures OpsInk(StructOps(Plug(frames, fs), depth)) != OpsInk(StructOps(Plug(frames, gs), depth))
  {
    var fr, inner, other := frames[0], Plug(frames[1..], fs), Plug(frames[1..], gs);
    if fr.tag.title != "" && Omitted(fr.tag.json, Struct(inner)) != Omitted(fr.tag.json, Struct(other)) {
      OmissionInkDiffers(fr, inner, other, depth);
    } else {
      JudgedDifferentlyInkDiffers(frames[1..], fs, gs, DepthIn(fr, depth));
      InnerInkDiffers(fr, inner, other, depth);
    }
    FrameInkDiffers(fr, inner, other, depth);
  }

  // ---- The results ----

  /** Replacing a nested struct by one that is written alike keeps the whole
      text exactly when omitempty judges the two alike all the way up. */
  lemma NestedRewriting(frames: seq<Frame>, fs: seq<Field>, gs: seq<Field>)
    requires Alike(fs, gs)
    ensures ToText(Struct(Plug(frames, fs))) == ToText(Struct(Plug(frames, gs))) <==> JudgedAlike(frames, fs, gs)
  {
    if JudgedAlike(frames, fs, gs) {
      JudgedAlikeWrittenAlike(frames, fs, gs);
      AlikeSameOps(Plug(frames, fs), Plug(frames, gs));
    } else {
      JudgedDifferentlyInkDiffers(frames, fs, gs, 0);
      TextInk(Plug(frames, fs));
      TextInk(Plug(frames, gs));
    }
  }

  /** So for an embedded struct written out in place, however deep. */
  lemma NestedEmbedding(frames: seq<Frame>, pre: seq<Field>, f: Field, post: seq<Field>)
    requires Embeds(f)
    ensures ToText(Struct(Plug(frames, pre + [f] + post))) == ToText(Struct(Plug(frames, pre + Promoted(f) + post)))
            <==> JudgedAlike(frames, pre + [f] + post, pre + Promoted(f) + post)
  {
    PromotionInvisible(pre, f, post);
    NestedRewriting(frames, pre + [f] + post, pre + Promoted(f) + post);
  }

  /** A struct is zero before and after unless it embeds a pointer to a zero
      struct and has nothing else in it. */
  lemma ZeroKeptExactly(pre: seq<Field>, f: Field, post: seq<Field>)
    requires Embeds(f)
    ensures IsZero(Struct(pre + [f] + post)) == IsZero(Struct(pre + Promoted(f) + post))
            <==> !(f.value.Ref? && IsZero(Struct(pre)) && IsZero(Struct(Promoted(f))) && IsZero(Struct(post)))
  {
    ZeroAppend(pre + [f], post);
    ZeroAppend(pre, [f]);
    ZeroAppend(pre + Promoted(f), post);
    ZeroAppend(pre, Promoted(f));
    ZeroOne(f);
    if f.value.Struct? { assert f.value == Struct(Promoted(f)); }
  }

  lemma ZeroOne(f: Field)
    ensures IsZero(Struct([f])) <==> IsZero(f.value)
  {
    assert [f][0] == f;
  }

  lemma ZeroAppend(a: seq<Field>, b: seq<Field>)
    ensures IsZero(Struct(a + b)) <==> IsZero(Struct(a)) && IsZero(Struct(b))
  {
    if IsZero(Struct(a + b)) {
      assert forall i | 0 <= i < |a| :: a[i] == (a + b)[i];
      assert forall i | 0 <= i < |b| :: b[i] == (a + b)[|a| + i];
    }
  }

  /** Without such a pointer nothing changes at any depth. */
  lemma {:induction false} JudgedAlikeWithoutPointer(frames: seq<Frame>, pre: seq<Field>, f: Field, post: seq<Field>)
    requires Embeds(f)
    requires !(f.value.Ref? && IsZero(Struct(pre)) && IsZero(Struct(Promoted(f))) && IsZero(Struct(post)))
    ensures JudgedAlike(frames, pre + [f] + post, pre + Promoted(f) + post)
    ensures IsZero(Struct(Plug(frames, pre + [f] + post))) == IsZero(Struct(Plug(frames, pre + Promoted(f) + post)))
  {
    if frames == [] {
      ZeroKeptExactly(pre, f, post);
    } else {
      JudgedAlikeWithoutPointer(frames[1..], pre, f, post);
      ZeroInFrame(frames[0], Plug(frames[1..], pre + [f] + post), Plug(frames[1..], pre + Promoted(f) + post));
    }
  }

  lemma ZeroInFrame(fr: Frame, fs: seq<Field>, gs: seq<Field>)
    requires IsZero(Struct(fs)) == IsZero(Struct(gs))
    ensures IsZero(Struct(fr.pre + [FieldIn(fr, fs)] + fr.post)) == IsZero(Struct(fr.pre + [FieldIn(fr, gs)] + fr.post))
  {
    ZeroAppend(fr.pre + [FieldIn(fr, fs)], fr.post);
    ZeroAppend(fr.pre, [FieldIn(fr, fs)]);
    ZeroAppend(fr.pre + [FieldIn(fr, gs)], fr.post);
    ZeroAppend(fr.pre, [FieldIn(fr, gs)]);
    ZeroOne(FieldIn(fr, fs));
    ZeroOne(FieldIn(fr, gs));
  }

  lemma PromotedOf(tag: Tag, fs: seq<Field>)
    requires tag.exported && tag.anonymous && tag.title == ""
    ensures var f := Field(tag, Ref(false, Struct(fs))); Embeds(f) && Promoted(f) == fs
  {
    assert Indirect(Struct(fs)) == Some(Struct(fs));
  }

  /** With one the text can change: a block that is shown because of the
      pointer is omitted once the zero field stands in its place. */
  lemma OmittedOnceWrittenOut()
    ensures var leaf := Field(Tag("N", true, false, "", ""), Scalar("0", true));
            var emb := Field(Tag("E", true, true, "", ""), Ref(false, Struct([leaf])));
            var outer := Frame([], Tag("C", true, false, "Spec", "c,omitempty"), [], []);
            && Embeds(emb) && Promoted(emb) == [leaf]
            && ToText(Struct(Plug([outer], [emb]))) != ToText(Struct(Plug([outer], [leaf])))
  {
    var leaf := Field(Tag("N", true, false, "", ""), Scalar("0", true));
    var emb := Field(Tag("E", true, true, "", ""), Ref(false, Struct([leaf])));
    var outer := Frame([], Tag("C", true, false, "Spec", "c,omitempty"), [], []);
    PromotedOf(Tag("E", true, true, "", ""), [leaf]);
    assert [] + [emb] + [] == [emb] && [] + [leaf] + [] == [leaf];
    assert "c,omitempty"[1..] == ",omitempty";
    assert ",omitempty" <= "c,omitempty"[1..];
    assert Index("c,omitempty", ",omitempty").Some?;
    ZeroOne(leaf);
    ZeroOne(emb);
    NestedEmbedding([outer], [], emb, []);
  }
}
