/** The two places where the formatter's text could be ambiguous: rows of a
    table, and the pairs of a map taken in Go's random iteration order. */
module Markdown {
  import opened Text

  // ---- Table rows ----

  /** One line of a table, header, separator or data. */
  function Row(cells: seq<string>): string { "| " + Join(cells, " | ") + " |" }

  function Padded(cells: seq<string>): (r: seq<string>)
    ensures |r| == |cells| && forall i | 0 <= i < |cells| :: r[i] == " " + cells[i] + " "
  {
    if cells == [] then [] else [" " + cells[0] + " "] + Padded(cells[1..])
  }

  lemma {:induction false} JoinPadded(cells: seq<string>)
    requires cells != []
    ensures " " + Join(cells, " | ") + " " == Join(Padded(cells), "|")
  {
    if |cells| > 1 {
      var rest := Join(cells[1..], " | ");
      JoinPadded(cells[1..]);
      assert Padded(cells) == [" " + cells[0] + " "] + Padded(cells[1..]);
      JoinCons(" " + cells[0] + " ", Padded(cells[1..]), "|");
      PadStep(cells[0], rest);
    }
  }

  lemma PadStep(c: string, rest: string)
    ensures " " + (c + " | " + rest) + " " == (" " + c + " ") + "|" + (" " + rest + " ")
  {
    assert " | " == " " + "|" + " ";
  }

  /** A row is its padded cells between bars. */
  lemma RowIsBars(cells: seq<string>)
    requires cells != []
    ensures Row(cells) == Join([""] + Padded(cells) + [""], "|")
  {
    var p := Padded(cells);
    JoinPadded(cells);
    JoinAppend(p, [""], "|");
    assert [""] + p + [""] == [""] + (p + [""]);
    JoinCons("", p + [""], "|");
    assert "" + "|" + (Join(p, "|") + "|" + "") == "|" + Join(p, "|") + "|";
    assert "| " == "|" + " " && " |" == " " + "|";
    assert Row(cells) == "|" + (" " + Join(cells, " | ") + " ") + "|";
  }

  /** A row reads: each cell between a bar and the next, one space around it. */
  lemma RowReads(c: string, rest: seq<string>)
    ensures Row([c]) == "| " + c + " |"
    ensures rest != [] ==> Row([c] + rest) == "| " + c + " " + Row(rest)
  {
    if rest != [] {
      JoinCons(c, rest, " | ");
      assert " | " == " " + "| ";
    }
  }

  predicate BarFree(cells: seq<string>) { forall i | 0 <= i < |cells| :: '|' !in cells[i] }

  lemma SplitRow(cells: seq<string>)
    requires cells != [] && BarFree(cells)
    ensures Split(Row(cells), '|') == [""] + Padded(cells) + [""]
  {
    RowIsBars(cells);
    SplitJoin([""] + Padded(cells) + [""], '|');
  }

  /** A row without stray bars shows its own number of cells. */
  lemma RowShowsWidth(cells: seq<string>)
    requires cells != [] && BarFree(cells)
    ensures |Split(Row(cells), '|')| == |cells| + 2
  {
    SplitRow(cells);
  }

  /** Rows of bar-free cells that look alike are alike, whatever their width. */
  lemma RowInjective(a: seq<string>, b: seq<string>)
    requires a != [] && b != [] && BarFree(a) && BarFree(b) && Row(a) == Row(b)
    ensures a == b
  {
    SplitRow(a);
    SplitRow(b);
    var p, q := [""] + Padded(a) + [""], [""] + Padded(b) + [""];
    assert |a| == |b|;
    forall i | 0 <= i < |a| ensures a[i] == b[i] {
      assert p[i + 1] == " " + a[i] + " " && q[i + 1] == " " + b[i] + " ";
      assert a[i] == p[i + 1][1..|p[i + 1]| - 1];
    }
  }

  // ---- Maps ----

  /** A map entry as it will be shown. */
  datatype Pair = Pair(key: string, cell: string)

  function Keys(es: seq<Pair>): (r: seq<string>)
    ensures |r| == |es| && forall i | 0 <= i < |es| :: r[i] == es[i].key
  {
    if es == [] then [] else Keys(es[..|es| - 1]) + [es[|es| - 1].key]
  }

  /** The value the last entry with this key has left in byKey. */
  function LastCell(es: seq<Pair>, k: string): string {
    if es == [] then ""
    else if es[|es| - 1].key == k then es[|es| - 1].cell
    else LastCell(es[..|es| - 1], k)
  }

  function ShowPairs(ks: seq<string>, es: seq<Pair>): (r: seq<string>)
    ensures |r| == |ks| && forall i | 0 <= i < |ks| :: r[i] == ks[i] + "=" + LastCell(es, ks[i])
  {
    if ks == [] then [] else ShowPairs(ks[..|ks| - 1], es) + [ks[|ks| - 1] + "=" + LastCell(es, ks[|ks| - 1])]
  }

  /** formatMap over the entries in iteration order. */
  function ShowMap(es: seq<Pair>): string { Join(ShowPairs(Sort(Keys(es)), es), ", ") }

  method FormatMap(es: seq<Pair>) returns (text: string)
    ensures text == ShowMap(es)
  {
    var keys: seq<string> := [];
    var byKey: map<string, string> := map[];
    for i := 0 to |es|
      invariant keys == Keys(es[..i])
      invariant forall k :: k in byKey <==> k in keys
      invariant forall k | k in byKey :: byKey[k] == LastCell(es[..i], k)
    {
      assert es[..i + 1][..i] == es[..i];
      keys := keys + [es[i].key];
      byKey := byKey[es[i].key := es[i].cell];
    }
    assert es[..|es|] == es;
    SortSorts(keys);
    forall k | k in Sort(keys) ensures k in byKey {
      assert k in multiset(Sort(keys)) && k in multiset(keys);
    }
    var pairs := ListPairs(Sort(keys), byKey, es);
    return Join(pairs, ", ");
  }

  method ListPairs(sorted: seq<string>, byKey: map<string, string>, ghost es: seq<Pair>) returns (pairs: seq<string>)
    requires forall k | k in sorted :: k in byKey
    requires forall k | k in byKey :: byKey[k] == LastCell(es, k)
    ensures pairs == ShowPairs(sorted, es)
  {
    pairs := [];
    for i := 0 to |sorted|
      invariant pairs == ShowPairs(sorted[..i], es)
    {
      assert sorted[..i + 1][..i] == sorted[..i];
      assert sorted[i] in sorted;
      pairs := pairs + [sorted[i] + "=" + byKey[sorted[i]]];
    }
    assert sorted[..|sorted|] == sorted;
  }

  /** The last entry that is shown under a key gives the cell for it. */
  lemma {:induction false} LastCellIsLast(es: seq<Pair>, i: nat)
    requires i < |es| && forall j | i < j < |es| :: es[j].key != es[i].key
    ensures LastCell(es, es[i].key) == es[i].cell
  {
    if i < |es| - 1 { LastCellIsLast(es[..|es| - 1], i); }
  }

  /** Entries that are shown under the same key are shown with the same cell;
      in particular when the shown keys are distinct. */
  predicate Consistent(es: seq<Pair>) {
    forall i, j | 0 <= i < j < |es| :: es[i].key == es[j].key ==> es[i].cell == es[j].cell
  }

  lemma {:induction false} LastCellAt(es: seq<Pair>, i: nat)
    requires Consistent(es) && i < |es|
    ensures LastCell(es, es[i].key) == es[i].cell
  {
    if es[|es| - 1].key != es[i].key { LastCellAt(es[..|es| - 1], i); }
  }

  lemma TakeOut(l: seq<Pair>, x: Pair, r: seq<Pair>)
    ensures multiset(l + [x] + r) == multiset(l + r) + multiset{x}
    ensures multiset(Keys(l + [x] + r)) == multiset(Keys(l + r)) + multiset{x.key}
  {
    KeysAppend(l + [x], r);
    KeysAppend(l, [x]);
    KeysAppend(l, r);
    assert Keys([x]) == [x.key];
  }

  lemma Cancel<T>(a: multiset<T>, b: multiset<T>, x: T)
    requires a + multiset{x} == b + multiset{x}
    ensures a == b
  {
    assert a == (a + multiset{x}) - multiset{x};
    assert b == (b + multiset{x}) - multiset{x};
  }

  lemma SplitAround(b: seq<Pair>, x: Pair) returns (l: seq<Pair>, r: seq<Pair>)
    requires x in multiset(b)
    ensures b == l + [x] + r
  {
    var j :| 0 <= j < |b| && b[j] == x;
    l, r := b[..j], b[j + 1..];
  }

  lemma {:induction false} KeysMultiset(a: seq<Pair>, b: seq<Pair>)
    requires multiset(a) == multiset(b)
    ensures multiset(Keys(a)) == multiset(Keys(b))
    decreases |a|
  {
    if a == [] {
      assert |multiset(b)| == 0;
      assert b == [];
    } else {
      var x := a[0];
      assert a == [] + [x] + a[1..] && [] + a[1..] == a[1..];
      TakeOut([], x, a[1..]);
      var l, r := SplitAround(b, x);
      TakeOut(l, x, r);
      Cancel(multiset(a[1..]), multiset(l + r), x);
      KeysMultiset(a[1..], l + r);
    }
  }

  lemma KeysAppend(a: seq<Pair>, b: seq<Pair>)
    ensures Keys(a + b) == Keys(a) + Keys(b)
  {
  }

  lemma ConsistentReordered(a: seq<Pair>, b: seq<Pair>)
    requires multiset(a) == multiset(b) && Consistent(a)
    ensures Consistent(b)
    ensures forall i | 0 <= i < |b| :: LastCell(a, b[i].key) == b[i].cell
  {
    forall i | 0 <= i < |b| ensures LastCell(a, b[i].key) == b[i].cell {
      assert b[i] in multiset(a);
      var k :| 0 <= k < |a| && a[k] == b[i];
      LastCellAt(a, k);
    }
  }

  /** The text does not depend on the iteration order. */
  lemma OrderIrrelevant(a: seq<Pair>, b: seq<Pair>)
    requires multiset(a) == multiset(b) && Consistent(a)
    ensures ShowMap(a) == ShowMap(b)
  {
    KeysMultiset(a, b);
    SortIgnoresOrder(Keys(a), Keys(b));
    SamePairs(a, b, Sort(Keys(b)));
  }

  lemma SamePairs(a: seq<Pair>, b: seq<Pair>, ks: seq<string>)
    requires multiset(a) == multiset(b) && Consistent(a) && ks == Sort(Keys(b))
    ensures ShowPairs(ks, a) == ShowPairs(ks, b)
  {
    forall i | 0 <= i < |ks| ensures LastCell(a, ks[i]) == LastCell(b, ks[i]) {
      var j := KeyListed(b, ks, i);
      SameLastCell(a, b, j);
    }
  }

  /** A listed key is the key of some entry. */
  lemma KeyListed(b: seq<Pair>, ks: seq<string>, i: nat) returns (j: nat)
    requires ks == Sort(Keys(b)) && i < |ks|
    ensures j < |b| && b[j].key == ks[i]
  {
    SortSorts(Keys(b));
    assert ks[i] in multiset(ks) && ks[i] in multiset(Keys(b));
    j :| 0 <= j < |b| && b[j].key == ks[i];
  }

  lemma SameLastCell(a: seq<Pair>, b: seq<Pair>, j: nat)
    requires multiset(a) == multiset(b) && Consistent(a) && j < |b|
    ensures LastCell(a, b[j].key) == LastCell(b, b[j].key)
  {
    ConsistentReordered(a, b);
    LastCellAt(b, j);
  }

  /** Each entry is listed, once, in ascending order of the keys. */
  lemma EveryPairListed(es: seq<Pair>)
    requires forall i, j | 0 <= i < j < |es| :: es[i].key != es[j].key
    ensures var ks := Sort(Keys(es));
            && Sorted(ks) && multiset(ks) == multiset(Keys(es)) && |ks| == |es|
            && ShowMap(es) == Join(ShowPairs(ks, es), ", ")
            && forall i | 0 <= i < |es| :: LastCell(es, es[i].key) == es[i].cell
  {
    SortSorts(Keys(es));
    assert |multiset(Sort(Keys(es)))| == |multiset(Keys(es))|;
    forall i | 0 <= i < |es| ensures LastCell(es, es[i].key) == es[i].cell { LastCellAt(es, i); }
  }

  // ---- ... and only then ----

  lemma {:induction false} JoinLength(a: seq<string>, b: seq<string>, sep: string)
    requires |a| == |b| && forall i | 0 <= i < |a| :: |a[i]| <= |b[i]|
    ensures |Join(a, sep)| <= |Join(b, sep)|
    ensures (exists i | 0 <= i < |a| :: |a[i]| < |b[i]|) ==> |Join(a, sep)| < |Join(b, sep)|
  {
    if |a| > 1 { JoinLength(a[1..], b[1..], sep);
      if i :| 0 <= i < |a| && |a[i]| < |b[i]| {
        if i > 0 { assert |a[1..][i - 1]| < |b[1..][i - 1]|; }
      }
    }
  }

  lemma {:induction false} JoinSameLengths(a: seq<string>, b: seq<string>, sep: string)
    requires |a| == |b| && (forall i | 0 <= i < |a| :: |a[i]| == |b[i]|) && Join(a, sep) == Join(b, sep)
    ensures a == b
  {
    if |a| > 1 {
      var x, y := Join(a, sep), Join(b, sep);
      var n, m := |a[0]|, |a[0]| + |sep|;
      assert x[..n] == a[0] && y[..n] == b[0];
      assert x[m..] == Join(a[1..], sep) && y[m..] == Join(b[1..], sep);
      JoinSameLengths(a[1..], b[1..], sep);
      assert a == [a[0]] + a[1..] && b == [b[0]] + b[1..];
    }
  }

  /** Two lists that agree but for one key's cell are shown differently. */
  lemma ShownDifferently(ks: seq<string>, a: seq<Pair>, b: seq<Pair>, k: string)
    requires k in ks && |LastCell(a, k)| <= |LastCell(b, k)| && LastCell(a, k) != LastCell(b, k)
    requires forall x | x in ks && x != k :: LastCell(a, x) == LastCell(b, x)
    ensures Join(ShowPairs(ks, a), ", ") != Join(ShowPairs(ks, b), ", ")
  {
    var p, q := ShowPairs(ks, a), ShowPairs(ks, b);
    var i :| 0 <= i < |ks| && ks[i] == k;
    forall j | 0 <= j < |ks| ensures |p[j]| <= |q[j]| {
      assert ks[j] in ks;
    }
    JoinLength(p, q, ", ");
    if |LastCell(a, k)| < |LastCell(b, k)| {
      assert |p[i]| < |q[i]|;
    } else {
      SamePrefix(k + "=", LastCell(a, k), LastCell(b, k));
      assert p[i] != q[i];
      if Join(p, ", ") == Join(q, ", ") { JoinSameLengths(p, q, ", "); }
    }
  }

  lemma SamePrefix(k: string, c: string, d: string)
    ensures k + c == k + d <==> c == d
  {
    assert (k + c)[|k|..] == c && (k + d)[|k|..] == d;
  }

  lemma LastCellAppend(es: seq<Pair>, e: Pair, k: string)
    ensures LastCell(es + [e], k) == if e.key == k then e.cell else LastCell(es, k)
  {
    assert (es + [e])[..|es|] == es;
  }

  lemma TakeOutTwo(es: seq<Pair>, i: nat, j: nat) returns (rest: seq<Pair>)
    requires i < j < |es|
    ensures multiset(rest + [es[j]] + [es[i]]) == multiset(es) == multiset(rest + [es[i]] + [es[j]])
  {
    rest := es[..i] + es[i + 1..j] + es[j + 1..];
    assert es == es[..i] + [es[i]] + es[i + 1..j] + [es[j]] + es[j + 1..];
  }

  lemma LastTwo(rest: seq<Pair>, y: Pair, x: Pair, k: string)
    requires x.key == y.key
    ensures LastCell(rest + [y] + [x], k) == if k == x.key then x.cell else LastCell(rest, k)
  {
    LastCellAppend(rest + [y], x, k);
    LastCellAppend(rest, y, k);
  }

  lemma LastKeyListed(es: seq<Pair>, x: Pair)
    ensures x.key in Sort(Keys(es + [x]))
  {
    SortSorts(Keys(es + [x]));
    assert Keys(es + [x])[|es|] == x.key;
    assert x.key in multiset(Keys(es + [x]));
    assert x.key in multiset(Sort(Keys(es + [x])));
  }

  /** Two orders of the same entries that are shown differently. */
  lemma TwoOrders(es: seq<Pair>, i: nat, j: nat) returns (a: seq<Pair>, b: seq<Pair>)
    requires i < j < |es| && es[i].key == es[j].key && es[i].cell != es[j].cell
    ensures multiset(a) == multiset(b) == multiset(es) && ShowMap(a) != ShowMap(b)
  {
    var x, y := es[i], es[j];
    var rest := TakeOutTwo(es, i, j);
    a, b := rest + [y] + [x], rest + [x] + [y];
    KeysMultiset(a, b);
    SortIgnoresOrder(Keys(a), Keys(b));
    LastKeyListed(rest + [y], x);
    forall k ensures LastCell(a, k) == if k == x.key then x.cell else LastCell(rest, k) { LastTwo(rest, y, x, k); }
    forall k ensures LastCell(b, k) == if k == y.key then y.cell else LastCell(rest, k) { LastTwo(rest, x, y, k); }
    if |x.cell| <= |y.cell| {
      ShownDifferently(Sort(Keys(a)), a, b, x.key);
    } else {
      ShownDifferently(Sort(Keys(a)), b, a, x.key);
    }
  }

  /** The text is the same for every iteration order exactly when entries
      shown under one key are shown alike. */
  lemma OrderIrrelevantExactlyWhenConsistent(es: seq<Pair>)
    ensures Consistent(es)
            <==> forall a, b | multiset(a) == multiset(es) && multiset(b) == multiset(es) :: ShowMap(a) == ShowMap(b)
  {
    if Consistent(es) {
      forall a, b | multiset(a) == multiset(es) && multiset(b) == multiset(es) ensures ShowMap(a) == ShowMap(b) {
        OrderIrrelevant(es, a);
        OrderIrrelevant(es, b);
      }
    } else {
      var i, j :| 0 <= i < j < |es| && es[i].key == es[j].key && es[i].cell != es[j].cell;
      var a, b := TwoOrders(es, i, j);
    }
  }
}
