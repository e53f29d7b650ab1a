/** What may be rewritten in a value without changing the text: embedded
    structs written out in place, at the top, inside nested blocks and on one
    line, with the exact condition wherever it does not always hold. */
module FormatterRewriting {
  import opened Text
  import opened FormatterModel
  import opened Formatter

  // ---- At one level ----

  /** The bound is there for termination only. */
  lemma {:induction false} BoundIrrelevant(items: seq<Item>, depth: nat, n: nat, m: nat)
    requires BlocksWithin(items, n) && BlocksWithin(items, m)
    ensures BlockOps(items, depth, n) == BlockOps(items, depth, m)
    decreases |items|
  {
    if items != [] {
      assert forall i | 0 <= i < |items[1..]| :: items[1..][i] == items[i + 1];
      BoundIrrelevant(items[1..], depth, n, m);
    }
  }

  lemma SameItemsSameOps(fs: seq<Field>, gs: seq<Field>, depth: nat)
    requires Collect(fs) == Collect(gs)
    ensures StructOps(fs, depth) == StructOps(gs, depth)
  {
    CollectedBlocks(fs);
    CollectedBlocks(gs);
    BoundIrrelevant(Collect(fs).1, depth, FieldsSize(fs), FieldsSize(gs));
  }

  /** Writing an embedded struct without a label out in place, or leaving out
      a field that holds nil, changes nothing that is written for the struct:
      not at the top, not in a nested block, whatever precedes it. */
  lemma EmbeddingInvisible(pre: seq<Field>, f: Field, post: seq<Field>, depth: nat)
    ensures Embeds(f) ==> StructOps(pre + [f] + post, depth) == StructOps(pre + Promoted(f) + post, depth)
    ensures Embeds(f) ==> ToText(Struct(pre + [f] + post)) == ToText(Struct(pre + Promoted(f) + post))
    ensures Indirect(f.value).None? ==> StructOps(pre + [f] + post, depth) == StructOps(pre + post, depth)
    ensures Indirect(f.value).None? ==> ToText(Struct(pre + [f] + post)) == ToText(Struct(pre + post))
  {
    if Embeds(f) {
      PromotionInvisible(pre, f, post);
      SameItemsSameOps(pre + [f] + post, pre + Promoted(f) + post, depth);
      SameItemsSameOps(pre + [f] + post, pre + Promoted(f) + post, 0);
    }
    if Indirect(f.value).None? {
      NilContributesNothing(pre, f, post);
      SameItemsSameOps(pre + [f] + post, pre + post, depth);
      SameItemsSameOps(pre + [f] + post, pre + post, 0);
    }
  }

  lemma {:induction false} InlinedKeepsItems(fs: seq<Field>)
    ensures Collect(Inlined(fs)) == Collect(fs)
    decreases FieldsSize(fs), |fs|
  {
    if fs != [] {
      InlinedKeepsItems(fs[1..]);
      if Embeds(fs[0]) {
        InlinedKeepsItems(Promoted(fs[0]));
        CollectAppend(Inlined(Promoted(fs[0])), Inlined(fs[1..]));
      } else {
        assert ([fs[0]] + Inlined(fs[1..]))[1..] == Inlined(fs[1..]);
      }
    }
  }

  /** Writing out all embedded structs, however deep, keeps the text. */
  lemma InliningKeepsText(fs: seq<Field>)
    ensures ToText(Struct(Inlined(fs))) == ToText(Struct(fs))
  {
    InlinedKeepsItems(fs);
    SameItemsSameOps(Inlined(fs), fs, 0);
  }

  // ---- On one line ----

  /** The line after one more field. */
  function OneMore(f: Field, sofar: string): (r: string)
    ensures ItemOf(f) == [] ==> r == sofar
    ensures ItemOf(f) != [] ==> |r| > |sofar|
  {
    if ItemOf(f) == [] then sofar
    else sofar + ((if |sofar| > 0 then "; " else "") + f.tag.title + ": " + FormatInline(ItemOf(f)[0].v))
  }

  lemma OneMoreGrows(f: Field, s: string, t: string)
    requires |s| < |t|
    ensures |OneMore(f, s)| < |OneMore(f, t)|
  {
  }

  lemma {:induction false} InlineFieldsAppend(a: seq<Field>, b: seq<Field>, sofar: string)
    ensures InlineFields(a + b, sofar) == InlineFields(b, InlineFields(a, sofar))
    decreases |a|
  {
    if a == [] {
      assert a + b == b;
    } else {
      var ab := a + b;
      assert ab[1..] == a[1..] + b && ab[0] == a[0];
      assert InlineFields(ab, sofar) == InlineFields(ab[1..], OneMore(a[0], sofar));
      InlineFieldsAppend(a[1..], b, OneMore(a[0], sofar));
    }
  }

  lemma {:induction false} InlineFieldsGrow(fs: seq<Field>, s: string, t: string)
    requires |s| < |t|
    ensures |InlineFields(fs, s)| < |InlineFields(fs, t)|
    decreases |fs|
  {
    if fs != [] {
      OneMoreGrows(fs[0], s, t);
      InlineFieldsGrow(fs[1..], OneMore(fs[0], s), OneMore(fs[0], t));
    }
  }

  /** A list of fields leaves the line as it is exactly when none of them is
      printed, and makes it longer otherwise. */
  lemma {:induction false} InlineFieldsAdd(fs: seq<Field>, s: string)
    ensures (forall g | g in fs :: ItemOf(g) == []) ==> InlineFields(fs, s) == s
    ensures (exists g | g in fs :: ItemOf(g) != []) ==> |InlineFields(fs, s)| > |s|
    decreases |fs|
  {
    if fs != [] {
      InlineFieldsAdd(fs[1..], OneMore(fs[0], s));
      assert InlineFields(fs, s) == InlineFields(fs[1..], OneMore(fs[0], s));
      assert forall g | g in fs :: g == fs[0] || g in fs[1..];
      assert (forall g | g in fs[1..] :: ItemOf(g) == []) || (exists g | g in fs[1..] :: ItemOf(g) != []);
    }
  }

  /** On one line, as in a table cell, embedded structs are not looked into.
      Writing one out in place keeps the line exactly when it has no field
      that would be printed. */
  lemma InlineKeptExactlyIfNothingPrinted(pre: seq<Field>, f: Field, post: seq<Field>)
    requires Embeds(f)
    ensures FormatInline(Struct(pre + [f] + post)) == FormatInline(Struct(pre + Promoted(f) + post))
            <==> forall g | g in Promoted(f) :: ItemOf(g) == []
  {
    var line := InlineFields(pre, "");
    var more := InlineFields(Promoted(f), line);
    InlineFieldsAppend(pre + [f], post, "");
    InlineFieldsAppend(pre, [f], "");
    assert [f][1..] == [] && InlineFields([f], line) == line;
    InlineFieldsAppend(pre + Promoted(f), post, "");
    InlineFieldsAppend(pre, Promoted(f), "");
    InlineFieldsAdd(Promoted(f), line);
    if |line| < |more| { InlineFieldsGrow(post, line, more); }
  }

  /** The least input on which the line changes. */
  lemma InlineIgnoresEmbedded()
    ensures var leaf := Field(Tag("A", true, false, "Name", ""), Scalar("x", false));
            var f := Field(Tag("B", true, true, "", ""), Struct([leaf]));
            && Embeds(f) && Promoted(f) == [leaf]
            && FormatInline(Struct([f])) == "" && FormatInline(Struct([leaf])) == "Name: x"
  {
    var leaf := Field(Tag("A", true, false, "Name", ""), Scalar("x", false));
    var f := Field(Tag("B", true, true, "", ""), Struct([leaf]));
    assert Index("", ",omitempty").None?;
    assert ItemOf(leaf) == [Item("Name", Scalar("x", false))];
    assert ItemOf(f) == [];
    assert [f][1..] == [] && [leaf][1..] == [];
    assert InlineFields([f], "") == InlineFields([], "") == "";
    assert InlineFields([leaf], "") == InlineFields([], "" + ("" + "Name" + ": " + "x"));
    assert "" + ("" + "Name" + ": " + "x") == "Name: x";
  }
}
