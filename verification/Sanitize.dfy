/** The log sanitizer: PEM blocks over the whole text first, then line by line
    every value pattern and the key pattern. The regular-expression engine is
    a parameter: a pattern is a function from a line to its matches. */
module Sanitize {
  import opened Common
  import opened Text
  import opened Spans
  import Luhn
  import Pem
  import PemLines

  type Finder = string -> seq<Span>

  /** A value pattern, told apart as the source tells them apart by the names
      of their capturing groups. */
  datatype Pattern =
    | Card(find: Finder)
    | UrlCredential(find: Finder, parts: string -> Option<(string, string)>)
    | Plain(find: Finder)

  /** What the key expression captures in one match: the logfmt value, or the
      JSON value; the other one is empty. */
  datatype Captured = Captured(val: string, jval: string)

  datatype KeyPattern = KeyPattern(find: Finder, capture: string -> Option<Captured>)

  datatype Config = Config(patterns: seq<Pattern>, key: Option<KeyPattern>, mask: string)

  /** What Go's engine promises of any pattern. */
  ghost predicate SaneFinder(find: Finder) { forall line :: WellPlaced(find(line), 0, |line|) }

  /** What a group captures is part of the match. */
  ghost predicate SaneParts(parts: string -> Option<(string, string)>) {
    forall m, c: char :: parts(m).Some? && (c in parts(m).value.0 || c in parts(m).value.1) ==> c in m
  }

  ghost predicate SanePattern(p: Pattern) { SaneFinder(p.find) && (p.UrlCredential? ==> SaneParts(p.parts)) }

  ghost predicate SanePatterns(ps: seq<Pattern>) { forall i | 0 <= i < |ps| :: SanePattern(ps[i]) }

  ghost predicate Sane(c: Config) {
    SanePatterns(c.patterns) && (c.key.Some? ==> SaneFinder(c.key.value.find))
  }

  // ---- One match ----

  function MaskCard(mask: string, m: string): string { if Luhn.LuhnOK(Luhn.Digits(m)) then mask else m }

  function MaskURL(mask: string, m: string, parts: Option<(string, string)>): string {
    match parts
    case None => m
    case Some((scheme, host)) => scheme + "://" + mask + "@" + host
  }

  function Replacement(p: Pattern, mask: string): string -> string {
    match p
    case Card(_) => (m: string) => MaskCard(mask, m)
    case UrlCredential(_, parts) => (m: string) => MaskURL(mask, m, parts(m))
    case Plain(_) => (m: string) => mask
  }

  predicate QuotedBy(v: string, q: char) { |v| >= 2 && v[0] == q && v[|v| - 1] == q }

  /** The masked form of a captured value, keeping its quotes. */
  function MaskedValue(mask: string, v: string, logfmt: bool): string {
    if QuotedBy(v, '"') || (logfmt && QuotedBy(v, '\'')) then [v[0]] + mask + [v[0]] else mask
  }

  function MaskKeyMatch(mask: string, m: string, captured: Option<Captured>): string {
    match captured
    case None => m
    case Some(c) =>
      if c.val != "" then ReplaceFirst(m, c.val, MaskedValue(mask, c.val, true))
      else if c.jval != "" then ReplaceFirst(m, c.jval, MaskedValue(mask, c.jval, false))
      else m
  }

  // ---- One line ----

  function ApplyPattern(p: Pattern, mask: string, line: string): string
    requires SaneFinder(p.find)
  {
    Splice(line, p.find(line), Replacement(p, mask), 0)
  }

  function ApplyPatterns(ps: seq<Pattern>, mask: string, line: string): string
    requires SanePatterns(ps)
  {
    if ps == [] then line
    else ApplyPattern(ps[|ps| - 1], mask, ApplyPatterns(ps[..|ps| - 1], mask, line))
  }

  function ApplyKey(key: Option<KeyPattern>, mask: string, line: string): string
    requires key.Some? ==> SaneFinder(key.value.find)
  {
    match key
    case None => line
    case Some(k) => Splice(line, k.find(line), (m: string) => MaskKeyMatch(mask, m, k.capture(m)), 0)
  }

  function MaskLine(c: Config, line: string): string
    requires Sane(c)
  {
    ApplyKey(c.key, c.mask, ApplyPatterns(c.patterns, c.mask, line))
  }

  function MaskLines(c: Config, lines: seq<string>): (r: seq<string>)
    requires Sane(c)
    ensures |r| == |lines| && forall i | 0 <= i < |lines| :: r[i] == MaskLine(c, lines[i])
  {
    if lines == [] then [] else [MaskLine(c, lines[0])] + MaskLines(c, lines[1..])
  }

  // ---- The whole text ----

  function SanitizeText(c: Config, input: string): string
    requires Sane(c)
  {
    if input == "" then input
    else
      var out := Pem.MaskBlocks(input, c.mask);
      if out == "" then out else Join(MaskLines(c, Split(out, '\n')), "\n")
  }

  /** The expressions before the first that does not compile. */
  function Compiled(ps: seq<Option<Pattern>>): seq<Pattern> {
    if ps == [] || ps[0].None? then [] else [ps[0].value] + Compiled(ps[1..])
  }

  lemma CompiledStep(ps: seq<Option<Pattern>>, i: nat, done: seq<Pattern>)
    requires i < |ps|
    ensures done + Compiled(ps[i..]) ==
            if ps[i].None? then done else (done + [ps[i].value]) + Compiled(ps[i + 1..])
  {
    assert ps[i..][1..] == ps[i + 1..] && done + [] == done;
  }

  class Sanitizer {
    var patterns: seq<Pattern>
    var key: Option<KeyPattern>
    var mask: string

    function Settings(): Config
      reads this
    {
      Config(patterns, key, mask)
    }

    ghost predicate Valid()
      reads this
    {
      Sane(Settings()) && mask != ""
    }

    /** From the compiled default expressions. */
    constructor (key: Option<KeyPattern>, defaults: seq<Pattern>)
      requires SanePatterns(defaults) && (key.Some? ==> SaneFinder(key.value.find))
      ensures Valid() && Settings() == Config(defaults, key, "***")
    {
      this.patterns := defaults;
      this.key := key;
      this.mask := "***";
    }

    /** None is an expression that does not compile: what comes before it has
        been added, what comes after has not. */
    method AddValuePatterns(ps: seq<Option<Pattern>>) returns (ok: bool)
      requires Valid() && forall i | 0 <= i < |ps| :: ps[i].Some? ==> SanePattern(ps[i].value)
      modifies this`patterns
      ensures Valid() && patterns == old(patterns) + Compiled(ps)
      ensures ok <==> forall i | 0 <= i < |ps| :: ps[i].Some?
    {
      assert ps[0..] == ps;
      for i := 0 to |ps|
        invariant Valid() && patterns + Compiled(ps[i..]) == old(patterns) + Compiled(ps)
        invariant forall j | 0 <= j < i :: ps[j].Some?
      {
        CompiledStep(ps, i, patterns);
        if ps[i].None? {
          return false;
        }
        patterns := patterns + [ps[i].value];
      }
      assert patterns + [] == patterns && ps[|ps|..] == [];
      return true;
    }

    /** An empty mask is ignored. */
    method SetMask(m: string)
      requires Valid()
      modifies this`mask
      ensures Valid() && mask == if m == "" then old(mask) else m
    {
      if m != "" {
        mask := m;
      }
    }

    method MaskValues(line0: string) returns (line: string)
      requires Valid()
      ensures line == ApplyPatterns(patterns, mask, line0)
    {
      line := line0;
      for i := 0 to |patterns|
        invariant line == ApplyPatterns(patterns[..i], mask, line0)
      {
        assert patterns[..i + 1][..i] == patterns[..i];
        var p := patterns[i];
        line := Splice(line, p.find(line), Replacement(p, mask), 0);
      }
      assert patterns[..|patterns|] == patterns;
    }

    method MaskKeys(line: string) returns (r: string)
      requires Valid()
      ensures r == ApplyKey(key, mask, line)
    {
      if key.None? {
        return line;
      }
      var (m, k) := (mask, key.value);
      return Splice(line, k.find(line), (x: string) => MaskKeyMatch(m, x, k.capture(x)), 0);
    }

    method Sanitize(input: string) returns (out: string)
      requires Valid()
      ensures out == SanitizeText(Settings(), input)
    {
      if input == "" {
        return input;
      }
      out := Pem.MaskBlocks(input, mask);
      if out == "" {
        return out;
      }
      var lines := Split(out, '\n');
      ghost var was := lines;
      for i := 0 to |lines|
        invariant |lines| == |was|
        invariant forall j | 0 <= j < i :: lines[j] == MaskLine(Settings(), was[j])
        invariant forall j | i <= j < |lines| :: lines[j] == was[j]
      {
        var masked := MaskValues(lines[i]);
        masked := MaskKeys(masked);
        lines := lines[i := masked];
      }
      assert lines == MaskLines(Settings(), was);
      return Join(lines, "\n");
    }
  }

  // ---- Line by line ----

  lemma MaskLinesAppend(c: Config, a: seq<string>, b: seq<string>)
    requires Sane(c)
    ensures MaskLines(c, a + b) == MaskLines(c, a) + MaskLines(c, b)
  {
  }

  /** If no pattern matches the empty string, an empty line stays empty. */
  lemma {:induction false} EmptyLineStaysEmpty(c: Config)
    requires Sane(c)
    requires forall i | 0 <= i < |c.patterns| :: c.patterns[i].find("") == []
    requires c.key.Some? ==> c.key.value.find("") == []
    ensures MaskLine(c, "") == ""
  {
    EmptyStaysEmpty(c.patterns, c.mask);
  }

  lemma {:induction false} EmptyStaysEmpty(ps: seq<Pattern>, mask: string)
    requires SanePatterns(ps) && forall i | 0 <= i < |ps| :: ps[i].find("") == []
    ensures ApplyPatterns(ps, mask, "") == ""
  {
    if ps != [] { EmptyStaysEmpty(ps[..|ps| - 1], mask); }
  }

  lemma SplitOfEmpty(c: Config)
    requires Sane(c)
    ensures Split("", '\n') == [""] && MaskLines(c, [""]) == [MaskLine(c, "")]
    ensures Pem.MaskBlocks("", c.mask) == ""
  {
  }

  /** The two early returns change nothing. */
  lemma SanitizeIsLineByLine(c: Config, input: string)
    requires Sane(c) && MaskLine(c, "") == ""
    ensures SanitizeText(c, input) == Join(MaskLines(c, Split(Pem.MaskBlocks(input, c.mask), '\n')), "\n")
  {
    SplitOfEmpty(c);
  }

  lemma JoinedLines(c: Config, x: string, y: string)
    requires Sane(c) && MaskLine(c, "") == "" && PemLines.Distributes(x, y, c.mask)
    ensures SanitizeText(c, x + "\n" + y) == SanitizeText(c, x) + "\n" + SanitizeText(c, y)
  {
    var a, b := Pem.MaskBlocks(x, c.mask), Pem.MaskBlocks(y, c.mask);
    SanitizeIsLineByLine(c, x);
    SanitizeIsLineByLine(c, y);
    SanitizeIsLineByLine(c, x + "\n" + y);
    SplitAtSeparator(a, b, '\n');
    MaskLinesAppend(c, Split(a, '\n'), Split(b, '\n'));
    JoinAppend(MaskLines(c, Split(a, '\n')), MaskLines(c, Split(b, '\n')), "\n");
  }

  /** Sanitizing distributes over a line break wherever the PEM pass does,
      exactly when the empty line stays empty. */
  lemma LineHomomorphism(c: Config)
    requires Sane(c)
    ensures MaskLine(c, "") == ""
            <==> forall x, y | PemLines.Distributes(x, y, c.mask) ::
                   SanitizeText(c, x + "\n" + y) == SanitizeText(c, x) + "\n" + SanitizeText(c, y)
  {
    if MaskLine(c, "") == "" {
      forall x, y | PemLines.Distributes(x, y, c.mask)
        ensures SanitizeText(c, x + "\n" + y) == SanitizeText(c, x) + "\n" + SanitizeText(c, y)
      {
        JoinedLines(c, x, y);
      }
    } else {
      EmptyLinesBreakIt(c);
      assert PemLines.Distributes("", "", c.mask);
    }
  }

  /** In terms of the two texts alone: no block is open after the last one
      that x completes, or y closes none. */
  lemma LinesMaskedApart(c: Config, x: string, y: string)
    requires Sane(c) && MaskLine(c, "") == "" && Pem.Foreign(c.mask)
    requires !PemLines.Open(PemLines.Tail(x), y)
    ensures SanitizeText(c, x + "\n" + y) == SanitizeText(c, x) + "\n" + SanitizeText(c, y)
  {
    PemLines.DistributesExactlyUnlessOpen(x, y, c.mask);
    JoinedLines(c, x, y);
  }

  lemma EmptyLinesBreakIt(c: Config)
    requires Sane(c) && MaskLine(c, "") != ""
    ensures PemLines.Distributes("", "", c.mask)
    ensures SanitizeText(c, "" + "\n" + "") != SanitizeText(c, "") + "\n" + SanitizeText(c, "")
  {
    var m := MaskLine(c, "");
    assert "" + "\n" + "" == "\n";
    assert forall e | 0 <= e <= 1 :: !Pem.BlockAt("\n", 0, e);
    assert Split("\n", '\n') == ["", ""];
    assert MaskLines(c, ["", ""]) == [m, m];
    JoinCons(m, [m], "\n");
    assert [m] + [m] == [m, m];
    assert |SanitizeText(c, "\n")| == 2 * |m| + 1;
  }

  lemma PatternAddsNoBreak(p: Pattern, mask: string, line: string)
    requires SanePattern(p) && '\n' !in mask && '\n' !in line
    ensures '\n' !in ApplyPattern(p, mask, line)
  {
    forall m | '\n' !in m ensures '\n' !in Replacement(p, mask)(m) { ReplacementAddsNoBreak(p, mask, m); }
    NothingNew(line, p.find(line), Replacement(p, mask), 0, '\n');
  }

  lemma ReplacementAddsNoBreak(p: Pattern, mask: string, m: string)
    requires SanePattern(p) && '\n' !in mask && '\n' !in m
    ensures '\n' !in Replacement(p, mask)(m)
  {
    if p.UrlCredential? && p.parts(m).Some? {
      assert '\n' !in p.parts(m).value.0 && '\n' !in p.parts(m).value.1;
    }
  }

  lemma {:induction false} PatternsAddNoBreak(ps: seq<Pattern>, mask: string, line: string)
    requires SanePatterns(ps) && '\n' !in mask && '\n' !in line
    ensures '\n' !in ApplyPatterns(ps, mask, line)
  {
    if ps != [] {
      var front := ps[..|ps| - 1];
      PatternsAddNoBreak(front, mask, line);
      PatternAddsNoBreak(ps[|ps| - 1], mask, ApplyPatterns(front, mask, line));
    }
  }

  lemma KeyMatchAddsNoBreak(mask: string, m: string, captured: Option<Captured>)
    requires '\n' !in mask && '\n' !in m
    ensures '\n' !in MaskKeyMatch(mask, m, captured)
  {
    if captured.Some? {
      var c := captured.value;
      if c.val != "" {
        ValueMaskedNoBreak(mask, m, c.val, true);
      } else if c.jval != "" {
        ValueMaskedNoBreak(mask, m, c.jval, false);
      }
    }
  }

  lemma ValueMaskedNoBreak(mask: string, m: string, v: string, logfmt: bool)
    requires '\n' !in mask && '\n' !in m && v != ""
    ensures '\n' !in ReplaceFirst(m, v, MaskedValue(mask, v, logfmt))
  {
    if Index(m, v).Some? {
      var i := Index(m, v).value;
      assert v[0] == m[i..i + |v|][0] == m[i];
      assert '\n' !in MaskedValue(mask, v, logfmt);
    }
  }

  /** Masking never breaks a line, unless the mask does. */
  lemma MaskingAddsNoBreak(c: Config, line: string)
    requires Sane(c) && '\n' !in c.mask && '\n' !in line
    ensures '\n' !in MaskLine(c, line)
  {
    PatternsAddNoBreak(c.patterns, c.mask, line);
    if c.key.Some? {
      var k, l := c.key.value, ApplyPatterns(c.patterns, c.mask, line);
      var f := (m: string) => MaskKeyMatch(c.mask, m, k.capture(m));
      forall m | '\n' !in m ensures '\n' !in f(m) { KeyMatchAddsNoBreak(c.mask, m, k.capture(m)); }
      NothingNew(l, k.find(l), f, 0, '\n');
    }
  }

  /** Line i of the output is a function of line i of the PEM-masked text. */
  lemma OutputLineByLine(c: Config, input: string, i: nat)
    requires Sane(c) && MaskLine(c, "") == "" && '\n' !in c.mask
    ensures var lines := Split(Pem.MaskBlocks(input, c.mask), '\n');
            var out := Split(SanitizeText(c, input), '\n');
            |out| == |lines| && (i < |lines| ==> out[i] == MaskLine(c, lines[i]))
  {
    var pem := Pem.MaskBlocks(input, c.mask);
    var lines := Split(pem, '\n');
    SanitizeIsLineByLine(c, input);
    SplitPieces(pem, '\n');
    forall k | 0 <= k < |lines| ensures '\n' !in MaskLine(c, lines[k]) { MaskingAddsNoBreak(c, lines[k]); }
    SplitJoin(MaskLines(c, lines), '\n');
  }

  // ---- What is masked ----

  /** Two credentials in the same URL are masked alike: nothing of the userinfo
      is left, and scheme and host stay. */
  lemma UserinfoHidden(p: Pattern, mask: string, scheme: string, cred: string, other: string, host: string)
    requires p.UrlCredential?
    requires p.parts(scheme + "://" + cred + "@" + host) == Some((scheme, host))
    requires p.parts(scheme + "://" + other + "@" + host) == Some((scheme, host))
    ensures var r := Replacement(p, mask)(scheme + "://" + cred + "@" + host);
            && r == Replacement(p, mask)(scheme + "://" + other + "@" + host)
            && |r| == |scheme| + 3 + |mask| + 1 + |host|
            && r[..|scheme| + 3] == scheme + "://" && r[|scheme| + 3..|r| - |host| - 1] == mask
            && r[|r| - |host| - 1..] == "@" + host
  {
    var r := scheme + "://" + mask + "@" + host;
    assert r[..|scheme| + 3] == scheme + "://" && r[|scheme| + 3..|r| - |host| - 1] == mask;
    assert r[|r| - |host| - 1..] == "@" + host;
  }

  /** A match of any other pattern is wholly replaced; a URL whose parts the
      expression does not find stays. */
  lemma PlainMatchHidden(p: Pattern, mask: string, m: string)
    ensures p.Plain? ==> Replacement(p, mask)(m) == mask
    ensures p.UrlCredential? && p.parts(m).None? ==> Replacement(p, mask)(m) == m
    ensures p.Card? ==> Replacement(p, mask)(m) == mask || Replacement(p, mask)(m) == m
  {
  }

  lemma SaneTogether(ps: seq<Pattern>, qs: seq<Pattern>)
    requires SanePatterns(ps) && SanePatterns(qs)
    ensures SanePatterns(ps + qs)
  {
  }

  /** The patterns work one after the other, each on what those before it have
      left. */
  lemma OneMorePattern(ps: seq<Pattern>, p: Pattern, mask: string, line: string)
    requires SanePatterns(ps) && SanePattern(p)
    ensures SanePatterns(ps + [p])
    ensures ApplyPatterns(ps + [p], mask, line) == ApplyPattern(p, mask, ApplyPatterns(ps, mask, line))
  {
    var qs := ps + [p];
    assert qs[..|qs| - 1] == ps && qs[|qs| - 1] == p;
    SaneTogether(ps, [p]);
  }

  lemma OnePattern(p: Pattern, mask: string, line: string)
    requires SanePattern(p)
    ensures ApplyPatterns([p], mask, line) == Splice(line, p.find(line), Replacement(p, mask), 0)
    ensures ApplyPatterns([], mask, line) == line
  {
    assert [p][..0] == [] && ApplyPatterns([], mask, line) == line;
  }

  /** A value in double quotes keeps them, and in logfmt one in single quotes
      too; any other is wholly replaced. */
  lemma QuotesKept(mask: string, inner: string, v: string)
    ensures MaskedValue(mask, "\"" + inner + "\"", true) == "\"" + mask + "\""
    ensures MaskedValue(mask, "\"" + inner + "\"", false) == "\"" + mask + "\""
    ensures MaskedValue(mask, "'" + inner + "'", true) == "'" + mask + "'"
    ensures MaskedValue(mask, "'" + inner + "'", false) == mask
    ensures |v| < 2 || (v[0] != '"' && v[0] != '\'') || v[0] != v[|v| - 1] ==>
              MaskedValue(mask, v, true) == MaskedValue(mask, v, false) == mask
  {
    var d, q := "\"" + inner + "\"", "'" + inner + "'";
    assert |d| >= 2 && d[0] == '"' && d[|d| - 1] == '"' && |q| >= 2 && q[0] == '\'' && q[|q| - 1] == '\'';
  }

  /** A key match whose expression captures nothing, or an empty value, stays;
      a logfmt value goes before a JSON value. */
  lemma KeyMatchChoice(mask: string, m: string, val: string, jval: string)
    ensures MaskKeyMatch(mask, m, None) == MaskKeyMatch(mask, m, Some(Captured("", ""))) == m
    ensures val != "" ==>
              MaskKeyMatch(mask, m, Some(Captured(val, jval))) == MaskKeyMatch(mask, m, Some(Captured(val, "")))
  {
  }

  // ---- Masking keeps the structure ----

  /** One value pattern: the gaps between its matches survive in order. */
  lemma ValuePatternKeepsGaps(p: Pattern, mask: string, line: string)
    requires SaneFinder(p.find)
    ensures var (spans, f) := (p.find(line), Replacement(p, mask));
            && line == Weave(Gaps(line, spans, 0), Matches(line, spans, 0))
            && ApplyPattern(p, mask, line) == Weave(Gaps(line, spans, 0), Map(f, Matches(line, spans, 0)))
  {
    GapsSurvive(line, p.find(line), Replacement(p, mask), 0);
  }

  predicate ValidCard(m: string) { Luhn.LuhnOK(Luhn.Digits(m)) }

  /** The candidates that pass the checksum are replaced by the mask; those
      that fail are as good as no match. */
  lemma CardsMaskedExactlyIfValid(p: Pattern, mask: string, line: string)
    requires p.Card? && SaneFinder(p.find)
    ensures var valid := Picked(line, p.find(line), ValidCard, 0);
            && WellPlaced(valid, 0, |line|)
            && ApplyPattern(p, mask, line) == Splice(line, valid, (m: string) => mask, 0)
            && ApplyPattern(p, mask, line) == Weave(Gaps(line, valid, 0), seq(|valid|, (i: nat) => mask))
  {
    var valid := Picked(line, p.find(line), ValidCard, 0);
    var f := (m: string) => mask;
    OnlyPickedMatter(line, p.find(line), Replacement(p, mask), f, ValidCard, 0);
    GapsSurvive(line, valid, f, 0);
    MapConstant(f, Matches(line, valid, 0), mask);
  }

  lemma {:induction false} MapConstant(f: string -> string, ms: seq<string>, r: string)
    requires forall m :: f(m) == r
    ensures Map(f, ms) == seq(|ms|, (i: nat) => r)
  {
    if ms != [] { MapConstant(f, ms[1..], r); }
  }

  // ---- Key matches ----

  /** The captured value really stands at k in the match. */
  predicate StandsAt(m: string, v: string, k: nat) { v != "" && k + |v| <= |m| && m[k..k + |v|] == v }

  /** The value at k replaced, everything else kept. */
  function OnlyValueMasked(m: string, v: string, k: nat, now: string): string
    requires StandsAt(m, v, k)
  {
    m[..k] + now + m[k + |v|..]
  }

  /** Key, separator and quotes survive whenever the captured value is the
      first occurrence of its text in the match; and if the mask starts with a
      character that the match does not have, only then. */
  lemma KeyMatchKept(mask: string, m: string, c: Captured, k: nat)
    requires c.val != "" || c.jval != ""
    requires StandsAt(m, if c.val != "" then c.val else c.jval, k)
    ensures var v := if c.val != "" then c.val else c.jval;
            var kept := MaskKeyMatch(mask, m, Some(c)) == OnlyValueMasked(m, v, k, MaskedValue(mask, v, c.val != ""));
            && (Index(m, v) == Some(k) ==> kept)
            && (mask != "" && mask[0] !in m && kept ==> Index(m, v) == Some(k))
  {
    var v := if c.val != "" then c.val else c.jval;
    ReplaceKept(mask, m, v, k, c.val != "");
  }

  lemma ReplaceKept(mask: string, m: string, v: string, k: nat, logfmt: bool)
    requires StandsAt(m, v, k)
    ensures var now := MaskedValue(mask, v, logfmt);
            var kept := ReplaceFirst(m, v, now) == OnlyValueMasked(m, v, k, now);
            && (Index(m, v) == Some(k) ==> kept)
            && (mask != "" && mask[0] !in m && kept ==> Index(m, v) == Some(k))
  {
    OccursBy(m, v, k);
    var p, now := Index(m, v).value, MaskedValue(mask, v, logfmt);
    if p < k && mask != "" && mask[0] !in m {
      if |now| == |mask| {
        FirstMaskChar(m, now, v, p, k, mask[0], 0);
      } else {
        FirstMaskChar(m, now, v, p, k, mask[0], 1);
      }
    }
  }

  lemma OccursBy(m: string, v: string, k: nat)
    requires StandsAt(m, v, k)
    ensures Index(m, v).Some? && Index(m, v).value <= k
  {
    assert m[k..][..|v|] == m[k..k + |v|];
    assert v <= m[k..];
  }

  /** Two splices of a text that lacks the mask's first character differ when
      they are made at different places. */
  lemma FirstMaskChar(m: string, now: string, v: string, p: nat, k: nat, x: char, d: nat)
    requires p < k && k + |v| <= |m| && d < |now| && now[d] == x && x !in m
    requires d == 0 || (d == 1 && v != "" && now[0] == v[0] && m[k..k + |v|] == v)
    ensures m[..p] + now + m[p + |v|..] != m[..k] + now + m[k + |v|..]
  {
    var a, b := m[..p] + now + m[p + |v|..], m[..k] + now + m[k + |v|..];
    assert a[p + d] == x;
    if p + d < k {
      assert b[p + d] == m[p + d];
    } else {
      assert d == 1 && p + d == k && b[k] == now[0] == v[0] == m[k];
    }
  }

  /** Where the promise fails: the value t of token=t first occurs in the key,
      so the key is damaged and the value stays in the log. */
  lemma ShortValueEscapes()
    ensures MaskKeyMatch("***", "token=t", Some(Captured("t", ""))) == "***oken=t"
    ensures StandsAt("token=t", "t", 6) && Index("token=t", "t") == Some(0)
  {
    assert "t" <= "token=t"[0..];
  }

  // ---- The order of the passes ----

  /** Masking keys before values, as the documentation has it. */
  function KeysFirst(c: Config, line: string): string
    requires Sane(c)
  {
    ApplyPatterns(c.patterns, c.mask, ApplyKey(c.key, c.mask, line))
  }

  function FindSetting(line: string): seq<Span> { if line == "k=v" then [Span(0, 3)] else [] }

  function CaptureV(m: string): Option<Captured> { Some(Captured("v", "")) }

  const SETTINGS := Config([Plain(FindSetting)], Some(KeyPattern(FindSetting, CaptureV)), "***")

  lemma OneSetting(f: string -> string)
    ensures Splice("k=v", FindSetting("k=v"), f, 0) == f("k=v")
  {
    var spans := FindSetting("k=v");
    assert spans[1..] == [] && "k=v"[0..3] == "k=v" && "k=v"[0..0] == "" && "k=v"[3..] == "";
  }

  lemma ValuesFirstHidesKey()
    ensures Sane(SETTINGS) && MaskLine(SETTINGS, "k=v") == "***"
  {
    var p := Plain(FindSetting);
    assert SETTINGS.patterns[..0] == [] && SETTINGS.patterns[0] == p;
    OneSetting(Replacement(p, "***"));
    assert ApplyPatterns(SETTINGS.patterns, "***", "k=v") == ApplyPattern(p, "***", "k=v") == "***";
    assert "***"[0..] == "***";
  }

  lemma KeyOfSetting()
    ensures MaskKeyMatch("***", "k=v", CaptureV("k=v")) == "k=***"
  {
    var m := "k=v";
    assert m[0..][0] == 'k' && m[1..][0] == '=' && m[2..] == "v";
    assert IndexFrom(m, "v", 2) == Some(2) && IndexFrom(m, "v", 1) == Some(2) && Index(m, "v") == Some(2);
    assert "k=v"[..2] == "k=" && "k=v"[3..] == "";
  }

  lemma KeyPassOnSetting()
    ensures Sane(SETTINGS) && ApplyKey(SETTINGS.key, "***", "k=v") == "k=***"
  {
    KeyOfSetting();
    OneSetting((m: string) => MaskKeyMatch("***", m, CaptureV(m)));
  }

  lemma KeysFirstKeepsKey()
    ensures Sane(SETTINGS) && KeysFirst(SETTINGS, "k=v") == "k=***"
  {
    KeyPassOnSetting();
    NoSetting("k=***");
    assert KeysFirst(SETTINGS, "k=v") == ApplyPatterns(SETTINGS.patterns, "***", "k=***");
  }

  lemma NoSetting(line: string)
    requires line != "k=v"
    ensures Sane(SETTINGS) && ApplyPatterns(SETTINGS.patterns, "***", line) == line
  {
    var ps := SETTINGS.patterns;
    assert ps[..0] == [] && ps[0] == Plain(FindSetting) && |ps| == 1;
    forall i | 0 <= i < |ps| ensures SanePattern(ps[i]) { assert ps[i] == Plain(FindSetting); }
    assert ApplyPatterns(ps, "***", line) == ApplyPattern(ps[0], "***", ApplyPatterns(ps[..0], "***", line));
    NoMatch(ps[0], line);
  }

  lemma NoMatch(p: Pattern, line: string)
    requires SaneFinder(p.find) && p.find(line) == []
    ensures ApplyPattern(p, "***", line) == line
  {
    assert line[0..] == line;
  }

  /** The order matters: a value expression that covers a whole setting hides
      its key too if it comes first, and no longer matches if it comes last. */
  lemma OrderOfPassesMatters()
    ensures exists c: Config, line: string :: Sane(c) && MaskLine(c, line) != KeysFirst(c, line)
  {
    ValuesFirstHidesKey();
    KeysFirstKeepsKey();
    var c, line := SETTINGS, "k=v";
    assert |MaskLine(c, line)| == 3 && |KeysFirst(c, line)| == 5;
  }
}
