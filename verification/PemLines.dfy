/** The PEM pass and line breaks: a text may be masked in two parts exactly
    when no block is open at the break and closed after it. */
module PemLines {
  import opened Pem

  predicate HasMarker(s: string, word: string) { exists i, j | 0 <= i <= j <= |s| :: MarkerAt(s, i, j, word) }

  /** What follows the last block that the scanner replaces. */
  function Tail(s: string): string
    decreases |s|
  {
    var i := LeftmostStart(s, 0);
    if i == |s| then s
    else
      var e := ShortestEnd(s, i, 0);
      BlockNotEmpty(s, i, e);
      Tail(s[e..])
  }

  // ---- Markers ----

  /** A marker begins and ends with five dashes and has none in between. */
  lemma Dashes(s: string, i: int, j: int, k: int)
    requires MarkerAt(s, i, j, "BEGIN") && i <= k < j
    ensures i + 26 < j
    ensures s[k] == '-' <==> k < i + 5 || k >= j - 5
  {
    var m, head, tail := s[i..j], "-----BEGIN ", "PRIVATE KEY-----";
    assert s[k] == m[k - i];
    if k - i < |head| {
      assert m[k - i] == head[k - i];
    } else if k - i >= |m| - |tail| {
      assert m[k - i] == tail[k - i - (|m| - |tail|)];
    } else {
      assert LabelChar(m[k - i]);
    }
  }

  /** Of two BEGIN lines the one that starts first ends first. */
  lemma BeginsInOrder(s: string, i: int, j: int, k: int, l: int)
    requires MarkerAt(s, i, j, "BEGIN") && MarkerAt(s, k, l, "BEGIN") && i < k
    ensures j <= l
  {
    Dashes(s, i, j, i);
    Dashes(s, k, l, k);
    if j > l {
      Dashes(s, i, j, k);
      Dashes(s, i, j, k + 4);
      Dashes(s, k, l, k + 4);
    }
  }

  lemma NoBreakInMarker(s: string, i: int, j: int, k: int, word: string)
    requires MarkerAt(s, i, j, word) && (word == "BEGIN" || word == "END") && i <= k < j
    ensures s[k] != '\n'
  {
    MarkerHasOnlyMarkerChars(s, i, j, word, k);
  }

  /** s is x, a break, and y, which starts at n. */
  predicate Broken(s: string, x: string, y: string, n: nat) { n == |x| + 1 && s == x + "\n" + y }

  lemma MarkerBefore(s: string, x: string, y: string, n: nat, i: int, j: int, word: string)
    requires Broken(s, x, y, n) && j <= |x|
    ensures MarkerAt(s, i, j, word) <==> MarkerAt(x, i, j, word)
  {
    if 0 <= i <= j { assert s[i..j] == x[i..j]; }
  }

  lemma MarkerAfter(s: string, x: string, y: string, n: nat, i: int, j: int, word: string)
    requires Broken(s, x, y, n) && i > |x|
    ensures MarkerAt(s, i, j, word) <==> MarkerAt(y, i - n, j - n, word)
  {
    if i <= j <= |s| { assert s[i..j] == y[i - n..j - n]; }
  }

  /** A marker lies wholly before or wholly after the break. */
  lemma MarkerBesideBreak(s: string, x: string, y: string, n: nat, i: int, j: int, word: string)
    requires Broken(s, x, y, n) && MarkerAt(s, i, j, word) && (word == "BEGIN" || word == "END")
    ensures j <= |x| || i > |x|
  {
    assert s[|x|] == '\n';
    if i <= |x| < j { NoBreakInMarker(s, i, j, |x|, word); }
  }

  lemma BlockMarkers(s: string, i: int, e: int) returns (h: int, t: int)
    requires BlockAt(s, i, e)
    ensures i < h <= t < e && MarkerAt(s, i, h, "BEGIN") && MarkerAt(s, t, e, "END")
  {
    h, t :| i <= h <= t <= e && MarkerAt(s, i, h, "BEGIN") && MarkerAt(s, t, e, "END");
    MarkerChars(s[i..h], "BEGIN");
    MarkerChars(s[t..e], "END");
  }

  // ---- Blocks that end before the break ----

  lemma BlockInFront(s: string, x: string, y: string, n: nat, i: int, e: int)
    requires Broken(s, x, y, n) && e <= |x|
    ensures BlockAt(s, i, e) <==> BlockAt(x, i, e)
  {
    if BlockAt(s, i, e) {
      var h, t := BlockMarkers(s, i, e);
      MarkerBefore(s, x, y, n, i, h, "BEGIN");
      MarkerBefore(s, x, y, n, t, e, "END");
    }
    if BlockAt(x, i, e) {
      var h, t := BlockMarkers(x, i, e);
      MarkerBefore(s, x, y, n, i, h, "BEGIN");
      MarkerBefore(s, x, y, n, t, e, "END");
    }
  }

  /** A BEGIN line before a block would have made an earlier block. */
  lemma EarlierBegin(x: string, i: nat, e: nat, k: int, h: int)
    requires BlockAt(x, i, e) && k < i && MarkerAt(x, k, h, "BEGIN")
    ensures BlockAt(x, k, e)
  {
    var h0, t0 := BlockMarkers(x, i, e);
    BeginsInOrder(x, k, h, i, h0);
  }

  /** The break and what follows it start no earlier block. */
  lemma NoEarlierStart(s: string, x: string, y: string, n: nat, i: nat, e: nat, k: int)
    requires Broken(s, x, y, n) && i == LeftmostStart(x, 0) < |x| && BlockAt(x, i, e) && 0 <= k < i
    ensures !StartsBlock(s, k)
  {
    if StartsBlock(s, k) {
      var d :| 0 <= d <= |s| && BlockAt(s, k, d);
      var h, t := BlockMarkers(s, k, d);
      MarkerBesideBreak(s, x, y, n, k, h, "BEGIN");
      MarkerBefore(s, x, y, n, k, h, "BEGIN");
      EarlierBegin(x, i, e, k, h);
      assert StartsBlock(x, k);
    }
  }

  lemma FirstBlockInFront(s: string, x: string, y: string, n: nat)
    requires Broken(s, x, y, n) && LeftmostStart(x, 0) < |x|
    ensures var i := LeftmostStart(x, 0);
            LeftmostStart(s, 0) == i && ShortestEnd(s, i, 0) == ShortestEnd(x, i, 0)
  {
    var i := LeftmostStart(x, 0);
    var e := ShortestEnd(x, i, 0);
    BlockInFront(s, x, y, n, i, e);
    assert StartsBlock(s, i);
    var j := LeftmostStart(s, 0);
    if j < i { NoEarlierStart(s, x, y, n, i, e, j); }
    var d := ShortestEnd(s, i, 0);
    if d < e { BlockInFront(s, x, y, n, i, d); }
  }

  // ---- No block before the break ----

  predicate EndsAt(s: string, h: int, e: int) { exists t | h <= t <= e :: MarkerAt(s, t, e, "END") }

  lemma BlockSplit(s: string, i: int, e: int) returns (h: int)
    requires BlockAt(s, i, e)
    ensures i < h && MarkerAt(s, i, h, "BEGIN") && EndsAt(s, h, e)
  {
    var h0, t := BlockMarkers(s, i, e);
    h := h0;
  }

  lemma EndMoved(s: string, x: string, y: string, n: nat, h: int, e: int)
    requires Broken(s, x, y, n) && h > |x| && EndsAt(s, h, e)
    ensures EndsAt(y, h - n, e - n)
  {
    var t :| h <= t <= e && MarkerAt(s, t, e, "END");
    MarkerAfter(s, x, y, n, t, e, "END");
  }

  lemma EndMovedBack(s: string, x: string, y: string, n: nat, h: int, e: int)
    requires Broken(s, x, y, n) && EndsAt(y, h, e)
    ensures EndsAt(s, h + n, e + n)
  {
    var t :| h <= t <= e && MarkerAt(y, t, e, "END");
    MarkerMovedBack(s, x, y, n, t, e, "END");
  }

  lemma MarkerMovedBack(s: string, x: string, y: string, n: nat, i: int, j: int, word: string)
    requires Broken(s, x, y, n) && MarkerAt(y, i, j, word)
    ensures MarkerAt(s, i + n, j + n, word)
  {
    assert s[i + n..j + n] == y[i..j];
  }

  lemma BlockMoved(s: string, x: string, y: string, n: nat, i: int, e: int)
    requires Broken(s, x, y, n) && i > |x| && BlockAt(s, i, e)
    ensures BlockAt(y, i - n, e - n)
  {
    var h := BlockSplit(s, i, e);
    MarkerAfter(s, x, y, n, i, h, "BEGIN");
    EndMoved(s, x, y, n, h, e);
  }

  lemma BlockMovedBack(s: string, x: string, y: string, n: nat, i: int, e: int)
    requires Broken(s, x, y, n) && BlockAt(y, i, e)
    ensures BlockAt(s, i + n, e + n)
  {
    var h := BlockSplit(y, i, e);
    MarkerMovedBack(s, x, y, n, i, h, "BEGIN");
    EndMovedBack(s, x, y, n, h, e);
  }

  predicate Open(x: string, y: string) { HasMarker(x, "BEGIN") && HasMarker(y, "END") }

  /** Without an open block before the break nothing starts there. */
  lemma NoStartInFront(s: string, x: string, y: string, n: nat, k: int)
    requires Broken(s, x, y, n) && LeftmostStart(x, 0) == |x| && 0 <= k <= |x| && !Open(x, y)
    ensures !StartsBlock(s, k)
  {
    if StartsBlock(s, k) {
      var d :| 0 <= d <= |s| && BlockAt(s, k, d);
      var h, t := BlockMarkers(s, k, d);
      MarkerBesideBreak(s, x, y, n, k, h, "BEGIN");
      MarkerBefore(s, x, y, n, k, h, "BEGIN");
      MarkerBesideBreak(s, x, y, n, t, d, "END");
      if d <= |x| {
        BlockInFront(s, x, y, n, k, d);
        assert StartsBlock(x, k);
      } else {
        MarkerAfter(s, x, y, n, t, d, "END");
        assert HasMarker(y, "END");
      }
    }
  }

  lemma StartsAfter(s: string, x: string, y: string, n: nat, i: int)
    requires Broken(s, x, y, n)
    ensures StartsBlock(s, i + n) && i >= 0 ==> StartsBlock(y, i)
    ensures StartsBlock(y, i) ==> StartsBlock(s, i + n)
  {
    if StartsBlock(s, i + n) && i >= 0 {
      var d :| 0 <= d <= |s| && BlockAt(s, i + n, d);
      BlockMoved(s, x, y, n, i + n, d);
    }
    if StartsBlock(y, i) {
      var e :| 0 <= e <= |y| && BlockAt(y, i, e);
      BlockMovedBack(s, x, y, n, i, e);
    }
  }

  lemma StartBehind(s: string, x: string, y: string, n: nat)
    requires Broken(s, x, y, n)
    ensures LeftmostStart(s, 0) <= n + LeftmostStart(y, 0)
  {
    var i := LeftmostStart(y, 0);
    if i < |y| { StartsAfter(s, x, y, n, i); }
  }

  lemma StartNotBefore(s: string, x: string, y: string, n: nat)
    requires Broken(s, x, y, n) && LeftmostStart(x, 0) == |x| && !Open(x, y)
    ensures LeftmostStart(s, 0) >= n + LeftmostStart(y, 0)
  {
    var j := LeftmostStart(s, 0);
    if j <= |x| {
      NoStartInFront(s, x, y, n, j);
    } else if j < |s| {
      StartsAfter(s, x, y, n, j - n);
    }
  }

  lemma EndNotBefore(s: string, x: string, y: string, n: nat, i: nat)
    requires Broken(s, x, y, n) && StartsBlock(y, i) && StartsBlock(s, n + i)
    ensures ShortestEnd(s, n + i, 0) >= n + ShortestEnd(y, i, 0)
  {
    BlockMoved(s, x, y, n, n + i, ShortestEnd(s, n + i, 0));
  }

  lemma EndNotAfter(s: string, x: string, y: string, n: nat, i: nat)
    requires Broken(s, x, y, n) && StartsBlock(y, i) && StartsBlock(s, n + i)
    ensures ShortestEnd(s, n + i, 0) <= n + ShortestEnd(y, i, 0)
  {
    BlockMovedBack(s, x, y, n, i, ShortestEnd(y, i, 0));
  }

  // ---- The result ----

  predicate Distributes(x: string, y: string, mask: string) {
    MaskBlocks(x + "\n" + y, mask) == MaskBlocks(x, mask) + "\n" + MaskBlocks(y, mask)
  }

  /** One round of the scanner. */
  lemma MaskRound(s: string, mask: string, i: nat, e: nat)
    requires i == LeftmostStart(s, 0) < |s| && e == ShortestEnd(s, i, 0)
    ensures i < e <= |s| && MaskBlocks(s, mask) == s[..i] + mask + MaskBlocks(s[e..], mask)
  {
    BlockNotEmpty(s, i, e);
  }

  lemma ClosedDistributes(s: string, x: string, y: string, n: nat, mask: string)
    requires Broken(s, x, y, n) && LeftmostStart(x, 0) == |x| && !Open(x, y)
    ensures MaskBlocks(s, mask) == x + "\n" + MaskBlocks(y, mask)
  {
    var i := LeftmostStart(y, 0);
    StartBehind(s, x, y, n);
    StartNotBefore(s, x, y, n);
    if i < |y| {
      StartsAfter(s, x, y, n, i);
      EndNotBefore(s, x, y, n, i);
      EndNotAfter(s, x, y, n, i);
      ClosedRound(s, x, y, n, mask, i, ShortestEnd(y, i, 0));
    }
  }

  lemma ClosedRound(s: string, x: string, y: string, n: nat, mask: string, i: nat, e: nat)
    requires Broken(s, x, y, n) && i == LeftmostStart(y, 0) < |y| && e == ShortestEnd(y, i, 0)
    requires LeftmostStart(s, 0) == n + i && StartsBlock(s, n + i)
    requires ShortestEnd(s, n + i, 0) == n + e
    ensures MaskBlocks(s, mask) == x + "\n" + MaskBlocks(y, mask)
  {
    MaskRound(y, mask, i, e);
    MaskRound(s, mask, n + i, n + e);
    SameRound(s, x, y, n, mask, i, e, MaskBlocks(y[e..], mask));
  }

  lemma SameRound(s: string, x: string, y: string, n: nat, mask: string, i: nat, e: nat, rest: string)
    requires Broken(s, x, y, n) && i <= |y| && e <= |y|
    ensures s[n + e..] == y[e..]
    ensures s[..n + i] + mask + rest == x + "\n" + (y[..i] + mask + rest)
  {
    Pieces(s, x, y, n, i, e);
    Associate(x + "\n", y[..i], mask, rest);
  }

  lemma Pieces(s: string, x: string, y: string, n: nat, i: nat, e: nat)
    requires Broken(s, x, y, n) && i <= |y| && e <= |y|
    ensures s[..n + i] == x + "\n" + y[..i] && s[n + e..] == y[e..]
  {
  }

  lemma Associate(a: string, b: string, c: string, d: string)
    ensures (a + b) + c + d == a + (b + c + d)
  {
  }

  lemma BeginFound(x: string) returns (k: nat, h: nat)
    requires HasMarker(x, "BEGIN")
    ensures k < h <= |x| && MarkerAt(x, k, h, "BEGIN")
  {
    k, h :| 0 <= k <= h <= |x| && MarkerAt(x, k, h, "BEGIN");
    MarkerChars(x[k..h], "BEGIN");
  }

  lemma EndFound(s: string, x: string, y: string, n: nat, h: int) returns (e: int)
    requires Broken(s, x, y, n) && HasMarker(y, "END") && h <= |x|
    ensures EndsAt(s, h, e)
  {
    var t, d :| 0 <= t <= d <= |y| && MarkerAt(y, t, d, "END");
    e := d + n;
    MarkerMovedBack(s, x, y, n, t, d, "END");
  }

  lemma OpenBlock(s: string, x: string, y: string, n: nat) returns (i: nat)
    requires Broken(s, x, y, n) && Open(x, y)
    ensures i < |x| && StartsBlock(s, i)
  {
    var k, h := BeginFound(x);
    var e := EndFound(s, x, y, n, h);
    MarkerBefore(s, x, y, n, k, h, "BEGIN");
    assert BlockAt(s, k, e);
    i := k;
  }

  /** With one, the block swallows the break. */
  lemma OpenDoesNot(s: string, x: string, y: string, n: nat, mask: string)
    requires Broken(s, x, y, n) && Foreign(mask) && Open(x, y)
    ensures MaskBlocks(s, mask) != x + "\n" + MaskBlocks(y, mask)
  {
    var i := OpenBlock(s, x, y, n);
    var j := LeftmostStart(s, 0);
    var e := ShortestEnd(s, j, 0);
    var h, t := BlockMarkers(s, j, e);
    MaskRound(s, mask, j, e);
    MarkerHasOnlyMarkerChars(s, j, h, "BEGIN", j);
    assert MaskBlocks(s, mask)[j] == mask[0];
    assert (x + "\n" + MaskBlocks(y, mask))[j] == s[j];
    assert mask[0] in mask;
  }

  /** Masking two parts is masking the whole exactly when what the first part
      leaves after its last block has no BEGIN line, or the second part has no
      END line. */
  lemma {:induction false} DistributesExactlyUnlessOpen(x: string, y: string, mask: string)
    requires Foreign(mask)
    ensures Distributes(x, y, mask) <==> !Open(Tail(x), y)
    decreases |x|
  {
    var s, n, i := x + "\n" + y, |x| + 1, LeftmostStart(x, 0);
    if i == |x| {
      if Open(x, y) { OpenDoesNot(s, x, y, n, mask); } else { ClosedDistributes(s, x, y, n, mask); }
    } else {
      var e := ShortestEnd(x, i, 0);
      FirstBlockInFront(s, x, y, n);
      MaskRound(x, mask, i, e);
      DistributesExactlyUnlessOpen(x[e..], y, mask);
      SamePrefix(s, x, y, n, mask, i, e);
    }
  }

  lemma SamePrefix(s: string, x: string, y: string, n: nat, mask: string, i: nat, e: nat)
    requires Broken(s, x, y, n) && i == LeftmostStart(x, 0) < |x| && e == ShortestEnd(x, i, 0) <= |x|
    requires LeftmostStart(s, 0) == i && ShortestEnd(s, i, 0) == e
    ensures MaskBlocks(s, mask) == MaskBlocks(x, mask) + "\n" + MaskBlocks(y, mask) <==> Distributes(x[e..], y, mask)
  {
    MaskRound(s, mask, i, e);
    MaskRound(x, mask, i, e);
    Front(s, x, y, n, i, e);
    Cancel(x[..i] + mask, MaskBlocks(s[e..], mask), MaskBlocks(x[e..], mask), MaskBlocks(y, mask));
  }

  lemma Front(s: string, x: string, y: string, n: nat, i: nat, e: nat)
    requires Broken(s, x, y, n) && i <= |x| && e <= |x|
    ensures s[..i] == x[..i] && s[e..] == x[e..] + "\n" + y
  {
  }

  lemma Cancel(a: string, l: string, m: string, b: string)
    ensures a + l == (a + m) + "\n" + b <==> l == m + "\n" + b
  {
    assert (a + m) + "\n" + b == a + (m + "\n" + b);
    assert (a + l)[|a|..] == l && (a + (m + "\n" + b))[|a|..] == m + "\n" + b;
  }
}
