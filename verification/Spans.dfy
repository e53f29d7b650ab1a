/** Replacing the matches of a pattern: whatever the engine, it hands over
    non-overlapping matches from left to right, and the text is rebuilt from
    the gaps between them and a replacement for each. */
module Spans {
  import Text

  datatype Span = Span(lo: nat, hi: nat)

  predicate WellPlaced(spans: seq<Span>, from: nat, n: nat) {
    if spans == [] then from <= n
    else from <= spans[0].lo <= spans[0].hi <= n && WellPlaced(spans[1..], spans[0].hi, n)
  }

  /** ReplaceAllStringFunc over the matches from position from on. */
  function Splice(s: string, spans: seq<Span>, f: string -> string, from: nat): string
    requires WellPlaced(spans, from, |s|)
  {
    if spans == [] then s[from..]
    else
      var m := spans[0];
      assert WellPlaced(spans[1..], m.hi, |s|);
      s[from..m.lo] + f(s[m.lo..m.hi]) + Splice(s, spans[1..], f, m.hi)
  }

  lemma {:induction false} PlacedFrom(spans: seq<Span>, from: nat, n: nat)
    requires WellPlaced(spans, from, n)
    ensures from <= n
    ensures forall i | 0 <= i < |spans| :: from <= spans[i].lo <= spans[i].hi <= n
    ensures forall i, j | 0 <= i < j < |spans| :: spans[i].hi <= spans[j].lo
  {
    if spans != [] {
      PlacedFrom(spans[1..], spans[0].hi, n);
      forall i | 0 <= i < |spans| ensures from <= spans[i].lo <= spans[i].hi <= n {
        if i > 0 { assert spans[i] == spans[1..][i - 1]; }
      }
      forall i, j | 0 <= i < j < |spans| ensures spans[i].hi <= spans[j].lo {
        assert spans[j] == spans[1..][j - 1];
        if i > 0 { assert spans[i] == spans[1..][i - 1]; }
      }
    }
  }

  lemma Cut(s: string, i: nat, j: nat, k: nat)
    requires i <= j <= k <= |s|
    ensures s[i..k] == s[i..j] + s[j..k]
    ensures s[i..] == s[i..j] + s[j..k] + s[k..]
  {
  }

  // ---- What survives ----

  function Gaps(s: string, spans: seq<Span>, from: nat): (r: seq<string>)
    requires WellPlaced(spans, from, |s|)
    ensures |r| == |spans| + 1
  {
    if spans == [] then [s[from..]]
    else [s[from..spans[0].lo]] + Gaps(s, spans[1..], spans[0].hi)
  }

  function Matches(s: string, spans: seq<Span>, from: nat): (r: seq<string>)
    requires WellPlaced(spans, from, |s|)
    ensures |r| == |spans|
    ensures forall i | 0 <= i < |spans| :: spans[i].lo <= spans[i].hi <= |s| && r[i] == s[spans[i].lo..spans[i].hi]
  {
    if spans == [] then [] else [s[spans[0].lo..spans[0].hi]] + Matches(s, spans[1..], spans[0].hi)
  }

  function Map(f: string -> string, ms: seq<string>): (r: seq<string>)
    ensures |r| == |ms| && forall i | 0 <= i < |ms| :: r[i] == f(ms[i])
  {
    if ms == [] then [] else [f(ms[0])] + Map(f, ms[1..])
  }

  function Weave(gaps: seq<string>, fills: seq<string>): string
    requires |gaps| == |fills| + 1
  {
    if fills == [] then gaps[0] else gaps[0] + fills[0] + Weave(gaps[1..], fills[1..])
  }

  /** The line is its gaps woven with its matches; the masked line is the same
      gaps, in the same order, woven with the replacements. */
  lemma {:induction false} GapsSurvive(s: string, spans: seq<Span>, f: string -> string, from: nat)
    requires WellPlaced(spans, from, |s|)
    ensures s[from..] == Weave(Gaps(s, spans, from), Matches(s, spans, from))
    ensures Splice(s, spans, f, from) == Weave(Gaps(s, spans, from), Map(f, Matches(s, spans, from)))
  {
    if spans != [] {
      var m := spans[0];
      GapsSurvive(s, spans[1..], f, m.hi);
      WeaveCons(s[from..m.lo], s[m.lo..m.hi], Gaps(s, spans[1..], m.hi), Matches(s, spans[1..], m.hi));
      MapCons(f, s[m.lo..m.hi], Matches(s, spans[1..], m.hi));
      WeaveCons(s[from..m.lo], f(s[m.lo..m.hi]), Gaps(s, spans[1..], m.hi), Map(f, Matches(s, spans[1..], m.hi)));
      Cut(s, from, m.lo, m.hi);
    }
  }

  lemma WeaveCons(g: string, m: string, gaps: seq<string>, ms: seq<string>)
    requires |gaps| == |ms| + 1
    ensures Weave([g] + gaps, [m] + ms) == g + m + Weave(gaps, ms)
  {
    assert ([g] + gaps)[1..] == gaps && ([m] + ms)[1..] == ms;
  }

  lemma MapCons(f: string -> string, m: string, ms: seq<string>)
    ensures Map(f, [m] + ms) == [f(m)] + Map(f, ms)
  {
    assert ([m] + ms)[1..] == ms;
  }

  /** The matches that pick chooses. */
  function Picked(s: string, spans: seq<Span>, pick: string -> bool, from: nat): (r: seq<Span>)
    requires WellPlaced(spans, from, |s|)
  {
    if spans == [] then []
    else
      var rest := Picked(s, spans[1..], pick, spans[0].hi);
      if pick(s[spans[0].lo..spans[0].hi]) then [spans[0]] + rest else rest
  }

  lemma PlacedEarlier(spans: seq<Span>, from: nat, later: nat, n: nat)
    requires from <= later && WellPlaced(spans, later, n)
    ensures WellPlaced(spans, from, n)
  {
    PlacedFrom(spans, later, n);
  }

  lemma {:induction false} PickedPlaced(s: string, spans: seq<Span>, pick: string -> bool, from: nat)
    requires WellPlaced(spans, from, |s|)
    ensures WellPlaced(Picked(s, spans, pick, from), from, |s|)
  {
    if spans != [] {
      PickedPlaced(s, spans[1..], pick, spans[0].hi);
      PlacedEarlier(Picked(s, spans[1..], pick, spans[0].hi), from, spans[0].hi, |s|);
    }
  }

  lemma SpliceEarlier(s: string, spans: seq<Span>, f: string -> string, from: nat, later: nat)
    requires from <= later && WellPlaced(spans, later, |s|)
    ensures WellPlaced(spans, from, |s|)
    ensures Splice(s, spans, f, from) == s[from..later] + Splice(s, spans, f, later)
  {
    PlacedFrom(spans, later, |s|);
    PlacedEarlier(spans, from, later, |s|);
    if spans == [] {
      assert s[from..] == s[from..later] + s[later..];
    } else {
      var m := spans[0];
      Cut(s, from, later, m.lo);
      Text.Regroup(s[from..later], s[later..m.lo], f(s[m.lo..m.hi]), Splice(s, spans[1..], f, m.hi));
    }
  }

  /** If f returns the matches that are not picked as they are, they might as
      well not have matched; g need only agree with f on those picked. */
  lemma {:induction false} OnlyPickedMatter(
    s: string, spans: seq<Span>, f: string -> string, g: string -> string, pick: string -> bool, from: nat)
    requires WellPlaced(spans, from, |s|)
    requires forall m :: f(m) == if pick(m) then g(m) else m
    ensures WellPlaced(Picked(s, spans, pick, from), from, |s|)
    ensures Splice(s, spans, f, from) == Splice(s, Picked(s, spans, pick, from), g, from)
  {
    PickedPlaced(s, spans, pick, from);
    if spans != [] {
      var m, rest := spans[0], Picked(s, spans[1..], pick, spans[0].hi);
      OnlyPickedMatter(s, spans[1..], f, g, pick, m.hi);
      if !pick(s[m.lo..m.hi]) {
        SpliceEarlier(s, rest, g, from, m.hi);
        Cut(s, from, m.lo, m.hi);
      }
    }
  }

  /** No character appears that is neither in the text nor in a replacement. */
  lemma {:induction false} NothingNew(s: string, spans: seq<Span>, f: string -> string, from: nat, c: char)
    requires WellPlaced(spans, from, |s|) && c !in s
    requires forall m | c !in m :: c !in f(m)
    ensures c !in Splice(s, spans, f, from)
  {
    if spans != [] { NothingNew(s, spans[1..], f, spans[0].hi, c); }
  }
}
