/** The first pass of the sanitizer: PEM private-key blocks are replaced over
    the whole text, leftmost and shortest first, without overlap. */
module Pem {

  predicate LabelChar(c: char) { 'A' <= c <= 'Z' || c == ' ' }

  /** A BEGIN or END line: five dashes, the word, a label of capitals and
      spaces ending in PRIVATE KEY, five dashes. */
  predicate IsMarker(m: string, word: string) {
    var head, tail := "-----" + word + " ", "PRIVATE KEY-----";
    && |head| + |tail| <= |m|
    && head <= m && m[|m| - |tail|..] == tail
    && forall i | |head| <= i < |m| - |tail| :: LabelChar(m[i])
  }

  predicate MarkerAt(s: string, i: int, j: int, word: string) {
    0 <= i <= j <= |s| && IsMarker(s[i..j], word)
  }

  /** A complete block stands at s[i..e]. */
  predicate BlockAt(s: string, i: int, e: int) {
    0 <= i <= e <= |s| && exists h, t | i <= h <= t <= e :: MarkerAt(s, i, h, "BEGIN") && MarkerAt(s, t, e, "END")
  }

  predicate StartsBlock(s: string, i: int) { exists e | 0 <= e <= |s| :: BlockAt(s, i, e) }

  /** The least end from e on of a block that starts at i. */
  function ShortestEnd(s: string, i: nat, e: nat): (r: nat)
    requires exists x | e <= x <= |s| :: BlockAt(s, i, x)
    ensures e <= r <= |s| && BlockAt(s, i, r)
    ensures forall x | e <= x < r :: !BlockAt(s, i, x)
    decreases |s| - e
  {
    if BlockAt(s, i, e) then e else ShortestEnd(s, i, e + 1)
  }

  /** The least start from i on of a block, or the length of s. */
  function LeftmostStart(s: string, i: nat): (r: nat)
    requires i <= |s|
    ensures i <= r <= |s| && (r < |s| ==> StartsBlock(s, r))
    ensures forall x | i <= x < r :: !StartsBlock(s, x)
    decreases |s| - i
  {
    if i == |s| || StartsBlock(s, i) then i else LeftmostStart(s, i + 1)
  }

  /** ReplaceAllString with a mask that has no '$' to expand. */
  function MaskBlocks(s: string, mask: string): string
    decreases |s|
  {
    var i := LeftmostStart(s, 0);
    if i == |s| then s
    else
      var e := ShortestEnd(s, i, 0);
      BlockNotEmpty(s, i, e);
      s[..i] + mask + MaskBlocks(s[e..], mask)
  }

  lemma BlockNotEmpty(s: string, i: int, e: int)
    requires BlockAt(s, i, e)
    ensures i < e
  {
  }

  predicate MarkerChar(c: char) { c == '-' || LabelChar(c) }

  /** A mask that cannot be mistaken for part of a marker. */
  predicate Foreign(mask: string) { mask != "" && forall c | c in mask :: !MarkerChar(c) }

  lemma MarkerChars(m: string, word: string)
    requires IsMarker(m, word) && (word == "BEGIN" || word == "END")
    ensures |m| > 0 && forall i | 0 <= i < |m| :: MarkerChar(m[i])
  {
    var head, tail := "-----" + word + " ", "PRIVATE KEY-----";
    forall i | 0 <= i < |m| ensures MarkerChar(m[i]) {
      if i < |head| {
        assert m[i] == head[i];
      } else if i >= |m| - |tail| {
        assert m[i] == tail[i - (|m| - |tail|)];
      }
    }
  }

  lemma MaskHasNoMarkerChar(a: string, mask: string, b: string, k: int)
    requires Foreign(mask) && |a| <= k < |a| + |mask|
    ensures !MarkerChar((a + mask + b)[k])
  {
    assert (a + mask + b)[k] == mask[k - |a|];
  }

  lemma MarkerHasOnlyMarkerChars(s: string, i: int, j: int, word: string, k: int)
    requires MarkerAt(s, i, j, word) && (word == "BEGIN" || word == "END") && i <= k < j
    ensures MarkerChar(s[k])
  {
    MarkerChars(s[i..j], word);
    assert s[k] == s[i..j][k - i];
  }

  /** A marker in a masked text lies wholly before or wholly after the mask. */
  lemma MarkerBesideMask(a: string, mask: string, b: string, i: int, j: int, word: string)
    requires Foreign(mask) && (word == "BEGIN" || word == "END")
    requires MarkerAt(a + mask + b, i, j, word)
    ensures MarkerAt(a, i, j, word)
            || (i >= |a| + |mask| && MarkerAt(b, i - |a| - |mask|, j - |a| - |mask|, word))
  {
    var s, n := a + mask + b, |a| + |mask|;
    if j <= |a| {
      assert s[i..j] == a[i..j];
    } else if i >= n {
      assert s[i..j] == b[i - n..j - n];
    } else {
      var k := if i < |a| then |a| else i;
      MaskHasNoMarkerChar(a, mask, b, k);
      MarkerHasOnlyMarkerChars(s, i, j, word, k);
    }
  }

  lemma BlockBesideMask(a: string, mask: string, b: string, i: int, e: int)
    requires Foreign(mask) && BlockAt(a + mask + b, i, e)
    ensures (exists h | 0 <= h <= |a| :: MarkerAt(a, i, h, "BEGIN")) || BlockAt(b, i - |a| - |mask|, e - |a| - |mask|)
  {
    var s, n := a + mask + b, |a| + |mask|;
    var h, t :| i <= h <= t <= e && MarkerAt(s, i, h, "BEGIN") && MarkerAt(s, t, e, "END");
    MarkerBesideMask(a, mask, b, i, h, "BEGIN");
    if !MarkerAt(a, i, h, "BEGIN") {
      MarkerBesideMask(a, mask, b, t, e, "END");
    }
  }

  /** No complete block survives, whatever the text. */
  lemma {:induction false} NoBlockSurvives(s: string, mask: string, i: int, e: int)
    requires Foreign(mask)
    ensures !BlockAt(MaskBlocks(s, mask), i, e)
    decreases |s|
  {
    var p := LeftmostStart(s, 0);
    if p == |s| {
      assert BlockAt(s, i, e) ==> StartsBlock(s, i);
      if BlockAt(s, i, e) { BlockNotEmpty(s, i, e); }
    } else {
      var q := ShortestEnd(s, p, 0);
      BlockNotEmpty(s, p, q);
      var rest, n := MaskBlocks(s[q..], mask), p + |mask|;
      if BlockAt(s[..p] + mask + rest, i, e) {
        BlockBesideMask(s[..p], mask, rest, i, e);
        NoBlockSurvives(s[q..], mask, i - n, e - n);
        var h :| 0 <= h <= p && MarkerAt(s[..p], i, h, "BEGIN");
        BeginBefore(s, p, q, i, h);
      }
    }
  }

  /** A BEGIN line before a block would have made an earlier block. */
  lemma BeginBefore(s: string, p: nat, q: nat, i: int, h: int)
    requires p == LeftmostStart(s, 0) && BlockAt(s, p, q)
    ensures !MarkerAt(s[..p], i, h, "BEGIN")
  {
    if MarkerAt(s[..p], i, h, "BEGIN") {
      MarkerChars(s[..p][i..h], "BEGIN");
      assert s[..p][i..h] == s[i..h];
      BeginExtends(s, p, q, i, h);
      assert StartsBlock(s, i);
    }
  }

  lemma BeginExtends(s: string, p: int, q: int, i: int, h: int)
    requires BlockAt(s, p, q) && MarkerAt(s, i, h, "BEGIN") && h <= p
    ensures BlockAt(s, i, q)
  {
    var h0, t0 :| p <= h0 <= t0 <= q && MarkerAt(s, p, h0, "BEGIN") && MarkerAt(s, t0, q, "END");
    assert i <= h <= t0 <= q;
  }

  /** Masking is idempotent. */
  lemma MaskTwice(s: string, mask: string)
    requires Foreign(mask)
    ensures MaskBlocks(MaskBlocks(s, mask), mask) == MaskBlocks(s, mask)
  {
    var out := MaskBlocks(s, mask);
    var i := LeftmostStart(out, 0);
    if i < |out| {
      var e :| 0 <= e <= |out| && BlockAt(out, i, e);
      NoBlockSurvives(s, mask, i, e);
    }
  }

  lemma DefaultMaskIsForeign()
    ensures Foreign("***")
  {
  }

  /** Text without a block is left alone, and a text that holds one is not
      longer the same. */
  lemma UntouchedExactlyWithoutBlock(s: string, mask: string)
    requires Foreign(mask)
    ensures MaskBlocks(s, mask) == s <==> forall i, e :: !BlockAt(s, i, e)
  {
    if MaskBlocks(s, mask) == s {
      forall i, e ensures !BlockAt(s, i, e) { NoBlockSurvives(s, mask, i, e); }
    }
    if forall i, e :: !BlockAt(s, i, e) {
      assert LeftmostStart(s, 0) == |s|;
    }
  }

  // ---- What a block is ----

  predicate AllLabel(s: string) { forall i | 0 <= i < |s| :: 'A' <= s[i] <= 'Z' || s[i] == ' ' }

  /** The text of a BEGIN or END line. */
  function MarkerText(word: string, title: string): string { "-----" + word + " " + title + "PRIVATE KEY-----" }

  lemma MarkerMeans(m: string, word: string)
    ensures IsMarker(m, word) <==> exists title :: AllLabel(title) && m == MarkerText(word, title)
  {
    var head, tail := "-----" + word + " ", "PRIVATE KEY-----";
    if IsMarker(m, word) {
      var title := m[|head|..|m| - |tail|];
      assert m == m[..|head|] + title + m[|m| - |tail|..];
      assert m == MarkerText(word, title);
      forall i | 0 <= i < |title| ensures 'A' <= title[i] <= 'Z' || title[i] == ' ' {
        assert title[i] == m[|head| + i];
      }
    }
    if title :| AllLabel(title) && m == MarkerText(word, title) {
      assert m == head + title + tail && m[|m| - |tail|..] == tail;
      forall i | |head| <= i < |m| - |tail| ensures LabelChar(m[i]) { assert m[i] == title[i - |head|]; }
    }
  }

  predicate IsBlockText(m: string, a: string, body: string, b: string) {
    AllLabel(a) && AllLabel(b) && m == MarkerText("BEGIN", a) + body + MarkerText("END", b)
  }

  /** A block is a BEGIN line, anything, and an END line. */
  lemma BlockMeans(s: string, i: nat, e: nat)
    requires i <= e <= |s|
    ensures BlockAt(s, i, e) <==> exists a, body, b :: IsBlockText(s[i..e], a, body, b)
  {
    if BlockAt(s, i, e) { BlockReads(s, i, e); }
    if a, body, b :| IsBlockText(s[i..e], a, body, b) { BlockStands(s, i, e, a, body, b); }
  }

  lemma BlockReads(s: string, i: nat, e: nat)
    requires i <= e <= |s| && BlockAt(s, i, e)
    ensures exists a, body, b :: IsBlockText(s[i..e], a, body, b)
  {
    var h, t :| i <= h <= t <= e && MarkerAt(s, i, h, "BEGIN") && MarkerAt(s, t, e, "END");
    var a := MarkerTitle(s[i..h], "BEGIN");
    var b := MarkerTitle(s[t..e], "END");
    Pieces(s, i, h, t, e);
    assert IsBlockText(s[i..e], a, s[h..t], b);
  }

  lemma MarkerTitle(m: string, word: string) returns (title: string)
    requires IsMarker(m, word)
    ensures AllLabel(title) && m == MarkerText(word, title)
  {
    MarkerMeans(m, word);
    title :| AllLabel(title) && m == MarkerText(word, title);
  }

  lemma Pieces(s: string, i: nat, h: nat, t: nat, e: nat)
    requires i <= h <= t <= e <= |s|
    ensures s[i..e] == s[i..h] + s[h..t] + s[t..e]
  {
  }

  lemma BlockStands(s: string, i: nat, e: nat, a: string, body: string, b: string)
    requires i <= e <= |s| && IsBlockText(s[i..e], a, body, b)
    ensures BlockAt(s, i, e)
  {
    var x, y := MarkerText("BEGIN", a), MarkerText("END", b);
    var h, t := i + |x|, e - |y|;
    assert s[i..h] == s[i..e][..|x|] == x && s[t..e] == s[i..e][|x| + |body|..] == y;
    MarkerMeans(x, "BEGIN");
    MarkerMeans(y, "END");
    assert MarkerAt(s, i, h, "BEGIN") && MarkerAt(s, t, e, "END");
  }

  /** Each round replaces the block that starts first and, of those, ends
      first, by the mask, and goes on behind it. */
  lemma FirstBlockMasked(s: string, mask: string, i: nat, e: nat)
    requires BlockAt(s, i, e)
    requires forall k, d :: k < i ==> !BlockAt(s, k, d)
    requires forall d :: d < e ==> !BlockAt(s, i, d)
    ensures MaskBlocks(s, mask) == s[..i] + mask + MaskBlocks(s[e..], mask)
  {
    BlockNotEmpty(s, i, e);
    assert StartsBlock(s, i);
  }
}
