/** The parsers of the command-line settings: scopes, usage window and e-mail
    domains. */
module Settings {
  import opened Common
  import opened Text

  /** unicode.IsSpace. */
  predicate IsSpace(c: char) {
    || c in {' ', '\t', '\n', '\U{000B}', '\U{000C}', '\r', '\U{0085}', '\U{00A0}', '\U{1680}'}
    || '\U{2000}' <= c <= '\U{200A}'
    || c in {'\U{2028}', '\U{2029}', '\U{202F}', '\U{205F}', '\U{3000}'}
  }

  // ---- Fields ----

  /** strings.Fields: the maximal runs without white space. */
  function Fields(s: string): seq<string> {
    if s == "" then []
    else if IsSpace(s[0]) then Fields(s[1..])
    else
      var rest := Fields(s[1..]);
      if |s| == 1 || IsSpace(s[1]) || rest == [] then [[s[0]]] + rest
      else [[s[0]] + rest[0]] + rest[1..]
  }

  predicate IsToken(t: string) { t != "" && forall c | c in t :: !IsSpace(c) }

  lemma {:induction false} FieldsAreTokens(s: string)
    ensures forall t | t in Fields(s) :: IsToken(t) && forall c | c in t :: c in s
    ensures s != "" && !IsSpace(s[0]) ==> Fields(s) != []
  {
    if s != "" {
      FieldsAreTokens(s[1..]);
      var rest := Fields(s[1..]);
      if !IsSpace(s[0]) && |s| > 1 && !IsSpace(s[1]) && rest != [] {
        var t := [s[0]] + rest[0];
        assert rest[0] in rest;
        assert Fields(s) == [t] + rest[1..];
        assert IsToken(t) && forall c | c in t :: c in s;
        assert forall u | u in rest[1..] :: u in rest;
      } else if !IsSpace(s[0]) {
        assert Fields(s) == [[s[0]]] + rest;
        assert IsToken([s[0]]);
      }
    }
  }

  lemma {:induction false} FieldsOfToken(t: string)
    requires IsToken(t)
    ensures Fields(t) == [t]
  {
    assert t[0] in t;
    if |t| > 1 {
      assert t[1] in t;
      FieldsOfToken(t[1..]);
      assert [t[0]] + t[1..] == t;
    } else {
      assert t == [t[0]];
    }
  }

  lemma {:induction false} FieldsOfTokenThenSpace(t: string, c: char, s: string)
    requires IsToken(t) && IsSpace(c)
    ensures Fields(t + [c] + s) == [t] + Fields(s)
  {
    var all := t + [c] + s;
    assert t[0] in t && all[0] == t[0];
    if |t| == 1 {
      assert all[1] == c && all[1..] == [c] + s;
      assert ([c] + s)[1..] == s;
      assert t == [t[0]];
    } else {
      assert t[1] in t && all[1] == t[1] && all[1..] == t[1..] + [c] + s;
      FieldsOfTokenThenSpace(t[1..], c, s);
      assert [t[0]] + t[1..] == t;
      assert ([t[1..]] + Fields(s))[1..] == Fields(s);
    }
  }

  /** White space always separates: together with FieldsOfToken this leaves no
      choice for any other text. */
  lemma {:induction false} FieldsApart(a: string, c: char, b: string)
    requires IsSpace(c)
    ensures Fields(a + [c] + b) == Fields(a) + Fields(b)
    ensures Fields("") == []
  {
    var s := a + [c] + b;
    if a == "" {
      assert s[0] == c && s[1..] == b;
    } else {
      assert s[0] == a[0] && s[1..] == a[1..] + [c] + b;
      FieldsApart(a[1..], c, b);
      if !IsSpace(a[0]) {
        FieldsOfHeads(a, c, b, s);
      }
    }
  }

  lemma FieldsOfHeads(a: string, c: char, b: string, s: string)
    requires IsSpace(c) && a != "" && !IsSpace(a[0]) && s == a + [c] + b
    requires Fields(s[1..]) == Fields(a[1..]) + Fields(b)
    ensures Fields(s) == Fields(a) + Fields(b)
  {
    FieldsHead(s);
    FieldsHead(a);
    if |a| == 1 {
      assert s[1] == c && a[1..] == "";
      HeadJoins(a[0], [], Fields(b), true);
    } else {
      assert s[1] == a[1];
      FieldsAreTokens(a[1..]);
      HeadJoins(a[0], Fields(a[1..]), Fields(b), IsSpace(a[1]));
    }
  }

  /** Putting one more character in front does not see what is far behind. */
  lemma HeadJoins(c: char, p: seq<string>, q: seq<string>, apart: bool)
    requires apart || p != []
    ensures (if apart || p + q == [] then [[c]] + (p + q) else [[c] + (p + q)[0]] + (p + q)[1..])
            == (if apart || p == [] then [[c]] + p else [[c] + p[0]] + p[1..]) + q
  {
  }

  lemma FieldsHead(s: string)
    requires s != "" && !IsSpace(s[0])
    ensures var rest := Fields(s[1..]);
            Fields(s) == if |s| == 1 || IsSpace(s[1]) || rest == [] then [[s[0]]] + rest
                         else [[s[0]] + rest[0]] + rest[1..]
  {
  }

  /** Tokens joined by a space split into themselves again. */
  lemma {:induction false} FieldsOfJoin(ts: seq<string>)
    requires forall t | t in ts :: IsToken(t)
    ensures Fields(Join(ts, " ")) == ts
  {
    if |ts| == 1 {
      FieldsOfToken(ts[0]);
    } else if |ts| > 1 {
      FieldsOfJoin(ts[1..]);
      FieldsOfTokenThenSpace(ts[0], ' ', Join(ts[1..], " "));
      assert [ts[0]] + ts[1..] == ts;
    }
  }

  // ---- Scopes ----

  function CommasToSpaces(s: string): (r: string)
    ensures |r| == |s| && forall i | 0 <= i < |s| :: r[i] == if s[i] == ',' then ' ' else s[i]
  {
    if s == "" then "" else [if s[0] == ',' then ' ' else s[0]] + CommasToSpaces(s[1..])
  }

  /** The list without repetitions, first occurrences kept in order. */
  function Dedup(ts: seq<string>): seq<string> {
    if ts == [] then []
    else
      var d := Dedup(ts[..|ts| - 1]);
      if ts[|ts| - 1] in d then d else d + [ts[|ts| - 1]]
  }

  /** The position of the first occurrence. */
  function First(ts: seq<string>, t: string): (i: nat)
    requires t in ts
    ensures i < |ts| && ts[i] == t && t !in ts[..i]
  {
    if ts[0] == t then 0
    else
      assert t in ts[1..];
      var i := First(ts[1..], t);
      assert ts[..1 + i] == [ts[0]] + ts[1..][..i];
      1 + i
  }

  lemma {:induction false} DedupKeeps(ts: seq<string>)
    ensures Distinct(Dedup(ts)) && forall t :: t in Dedup(ts) <==> t in ts
    ensures forall i, j | 0 <= i < j < |Dedup(ts)| ::
              Dedup(ts)[i] in ts && Dedup(ts)[j] in ts && First(ts, Dedup(ts)[i]) < First(ts, Dedup(ts)[j])
  {
    if ts != [] {
      var n := |ts| - 1;
      var front, last := ts[..n], ts[n];
      assert ts == front + [last];
      DedupKeeps(front);
      var d := Dedup(front);
      forall i | 0 <= i < |d| ensures d[i] in front && First(ts, d[i]) == First(front, d[i]) {
        assert d[i] in d;
        FirstInPrefix(front, [last], d[i]);
      }
      if last !in d { assert last !in front; }
    }
  }

  lemma {:induction false} FirstInPrefix(a: seq<string>, b: seq<string>, t: string)
    requires t in a
    ensures t in a + b && First(a + b, t) == First(a, t)
  {
    assert (a + b)[0] == a[0];
    if a[0] != t {
      assert (a + b)[1..] == a[1..] + b;
      FirstInPrefix(a[1..], b, t);
    }
  }

  lemma {:induction false} DedupOfDistinct(ts: seq<string>)
    requires Distinct(ts)
    ensures Dedup(ts) == ts
  {
    if ts != [] {
      var n := |ts| - 1;
      DedupOfDistinct(ts[..n]);
      assert ts == ts[..n] + [ts[n]];
    }
  }

  /** nil and the empty list are one here. */
  method ParseScopes(value: string) returns (scopes: seq<string>)
    ensures scopes == Scopes(value)
  {
    var fields := Fields(CommasToSpaces(value));
    scopes := [];
    for i := 0 to |fields|
      invariant scopes == Dedup(fields[..i])
    {
      assert fields[..i + 1][..i] == fields[..i];
      if fields[i] !in scopes {
        scopes := scopes + [fields[i]];
      }
    }
    assert fields[..|fields|] == fields;
  }

  function Scopes(value: string): seq<string> { Dedup(Fields(CommasToSpaces(value))) }

  lemma {:induction false} NoCommas(s: string)
    requires ',' !in s
    ensures CommasToSpaces(s) == s
  {
    assert forall i | 0 <= i < |s| :: s[i] in s;
  }

  lemma {:induction false} JoinChars(ts: seq<string>, c: char)
    requires c in Join(ts, " ")
    ensures c == ' ' || exists t | t in ts :: c in t
  {
    if |ts| == 1 {
      assert ts[0] in ts;
    } else if |ts| > 1 {
      if c in ts[0] {
        assert ts[0] in ts;
      } else if c != ' ' {
        JoinChars(ts[1..], c);
        var t :| t in ts[1..] && c in t;
        assert t in ts;
      }
    }
  }

  /** What ParseScopes returns: tokens without separators or repetitions, the
      fields of the input in the order of their first occurrence. */
  lemma ScopesAreClean(value: string)
    ensures var ts := Scopes(value);
            && Distinct(ts)
            && (forall t | t in ts :: IsToken(t) && ',' !in t)
            && (forall t :: t in ts <==> t in Fields(CommasToSpaces(value)))
  {
    var s := CommasToSpaces(value);
    FieldsAreTokens(s);
    DedupKeeps(Fields(s));
    assert ',' !in s;
  }

  /** Joining with spaces and splitting or parsing again gives the list back:
      the proxy stores its scopes joined and advertises them split. */
  lemma ScopesRoundTrip(value: string)
    ensures var ts := Scopes(value);
            Fields(Join(ts, " ")) == ts && Scopes(Join(ts, " ")) == ts
  {
    var ts := Scopes(value);
    ScopesAreClean(value);
    FieldsOfJoin(ts);
    var joined := Join(ts, " ");
    if ',' in joined {
      JoinChars(ts, ',');
    }
    NoCommas(joined);
    DedupOfDistinct(ts);
  }

  // ---- Decimal numbers ----

  function DigitChar(d: nat): char
    requires d < 10
  {
    '0' + d as char
  }

  /** %d of a number that is not negative. */
  function Decimal(n: nat): (s: string)
    ensures s != ""
  {
    if n < 10 then [DigitChar(n)] else Decimal(n / 10) + [DigitChar(n % 10)]
  }

  function Number(s: string): nat
    requires forall c | c in s :: IsDigit(c)
  {
    if s == "" then 0
    else
      var d := s[|s| - 1];
      assert d in s && IsDigit(d);
      assert forall c | c in s[..|s| - 1] :: c in s;
      Number(s[..|s| - 1]) * 10 + (d as int - '0' as int)
  }

  lemma {:induction false} DecimalReads(n: nat)
    ensures forall c | c in Decimal(n) :: IsDigit(c)
    ensures Number(Decimal(n)) == n
    ensures n > 0 ==> Decimal(n)[0] != '0'
  {
    if n < 10 {
      assert Decimal(n)[..0] == "";
    } else {
      DecimalReads(n / 10);
      var s := Decimal(n / 10);
      assert Decimal(n)[..|s|] == s && Decimal(n)[|s|] == DigitChar(n % 10);
    }
  }

  // ---- Usage window ----

  predicate IsUnit(c: char) { c == 's' || c == 'm' || c == 'h' || c == 'd' }

  /** The usage window pattern, anchored at both ends. */
  predicate IsWindow(s: string) {
    && |s| >= 2 && '1' <= s[0] <= '9' && IsUnit(s[|s| - 1])
    && forall c | c in s[..|s| - 1] :: IsDigit(c)
  }

  function UnitSeconds(c: char): nat {
    if c == 's' then 1 else if c == 'm' then 60 else if c == 'h' then 3600 else 86400
  }

  /** The number of seconds a window stands for. */
  function WindowSeconds(s: string): nat
    requires IsWindow(s)
  {
    Number(s[..|s| - 1]) * UnitSeconds(s[|s| - 1])
  }

  lemma {:induction false} NumberPositive(s: string)
    requires s != "" && s[0] != '0' && forall c | c in s :: IsDigit(c)
    ensures Number(s) > 0
  {
    var front := s[..|s| - 1];
    assert s[0] in s && s[|s| - 1] in s && forall c | c in front :: c in s;
    if front != "" { NumberPositive(front); }
  }

  /** Digits without a leading zero are what is printed for their number. */
  lemma {:induction false} NumberPrints(s: string)
    requires s != "" && s[0] != '0' && forall c | c in s :: IsDigit(c)
    ensures Decimal(Number(s)) == s
  {
    var front, d := s[..|s| - 1], s[|s| - 1];
    assert d in s && IsDigit(d) && forall c | c in front :: c in s;
    assert s == front + [d] && Number(s) == Number(front) * 10 + (d as int - '0' as int);
    if front != "" {
      NumberPositive(front);
      NumberPrints(front);
    } else {
      assert Number(front) == 0;
    }
    OneMoreDigit(Number(front), d);
  }

  lemma OneMoreDigit(n: nat, d: char)
    requires IsDigit(d)
    ensures Decimal(n * 10 + (d as int - '0' as int)) == if n == 0 then [d] else Decimal(n) + [d]
  {
    var m := n * 10 + (d as int - '0' as int);
    assert m / 10 == n && m % 10 == d as int - '0' as int;
  }

  /** A window is a positive number, printed, and one of four units. */
  lemma WindowsAreNumbersWithUnits(s: string)
    ensures IsWindow(s) <==>
            exists n: nat, u: char :: n > 0 && (u == 's' || u == 'm' || u == 'h' || u == 'd') && s == Decimal(n) + [u]
  {
    if IsWindow(s) {
      var digits := s[..|s| - 1];
      NumberPrints(digits);
      NumberPositive(digits);
      assert s == Decimal(Number(digits)) + [s[|s| - 1]];
    }
    if n: nat, u: char :| n > 0 && (u == 's' || u == 'm' || u == 'h' || u == 'd') && s == Decimal(n) + [u] {
      DecimalReads(n);
      assert s[..|s| - 1] == Decimal(n) && s[0] == Decimal(n)[0] && Decimal(n)[0] in Decimal(n);
    }
  }

  /** What the units stand for. */
  lemma WindowsMean(n: nat)
    requires n > 0
    ensures forall u: char | u in {'s', 'm', 'h', 'd'} :: IsWindow(Decimal(n) + [u])
    ensures WindowSeconds(Decimal(n) + ['s']) == n && WindowSeconds(Decimal(n) + ['m']) == 60 * n
    ensures WindowSeconds(Decimal(n) + ['h']) == 3600 * n && WindowSeconds(Decimal(n) + ['d']) == 86400 * n
  {
    DecimalReads(n);
    forall u: char | u in {'s', 'm', 'h', 'd'}
      ensures IsWindow(Decimal(n) + [u]) && (Decimal(n) + [u])[..|Decimal(n)|] == Decimal(n)
    {
      WindowsAreNumbersWithUnits(Decimal(n) + [u]);
    }
  }

  /** strings.TrimSpace. */
  function TrimLeft(s: string): string { if s != "" && IsSpace(s[0]) then TrimLeft(s[1..]) else s }

  function TrimRight(s: string): string {
    if s != "" && IsSpace(s[|s| - 1]) then TrimRight(s[..|s| - 1]) else s
  }

  function TrimSpace(s: string): string { TrimRight(TrimLeft(s)) }

  function ParseUsageWindow(value: string): Option<string> {
    var v := TrimSpace(value);
    if v == "" then Some("") else if IsWindow(v) then Some(v) else None
  }

  // ---- E-mail domains ----

  /** None is the error; lower is strings.ToLower. */
  function EmailDomains(value: string, lower: string -> string): Option<seq<string>> {
    if TrimSpace(value) == "" then Some([])
    else
      var ds := Domains(Split(value, ','), lower);
      if ds == [] then None else Some(ds)
  }

  function Domains(parts: seq<string>, lower: string -> string): seq<string> {
    if parts == [] then []
    else
      var d := lower(TrimSpace(parts[|parts| - 1]));
      Domains(parts[..|parts| - 1], lower) + (if d == "" then [] else [d])
  }

  method ParseEmailDomains(value: string, lower: string -> string) returns (r: Option<seq<string>>)
    ensures r == EmailDomains(value, lower)
  {
    if TrimSpace(value) == "" {
      return Some([]);
    }
    var parts := Split(value, ',');
    var domains := [];
    for i := 0 to |parts|
      invariant domains == Domains(parts[..i], lower)
    {
      assert parts[..i + 1][..i] == parts[..i];
      var domain := lower(TrimSpace(parts[i]));
      if domain != "" {
        domains := domains + [domain];
      }
    }
    assert parts[..|parts|] == parts;
    if |domains| == 0 {
      return None;
    }
    return Some(domains);
  }

  // ---- What the domains are like ----

  lemma {:induction false} TrimmedLeft(s: string)
    ensures var t := TrimLeft(s); (forall c | c in t :: c in s) && (t != "" ==> !IsSpace(t[0]))
    ensures TrimLeft(s) == "" <==> forall c | c in s :: IsSpace(c)
  {
    if s != "" && IsSpace(s[0]) {
      TrimmedLeft(s[1..]);
      assert forall c | c in s :: c == s[0] || c in s[1..];
    } else if s != "" {
      assert s[0] in s;
    }
  }

  lemma {:induction false} TrimmedRight(s: string)
    requires s != "" ==> !IsSpace(s[0])
    ensures var t := TrimRight(s);
            && (forall c | c in t :: c in s)
            && (s != "" ==> t != "" && t[0] == s[0] && !IsSpace(t[|t| - 1]))
  {
    if s != "" && IsSpace(s[|s| - 1]) { TrimmedRight(s[..|s| - 1]); }
  }

  predicate AllSpace(s: string) { forall i | 0 <= i < |s| :: IsSpace(s[i]) }

  lemma {:induction false} LeftCut(s: string)
    ensures exists l :: AllSpace(l) && s == l + TrimLeft(s)
  {
    if s != "" && IsSpace(s[0]) {
      LeftCut(s[1..]);
      var l :| AllSpace(l) && s[1..] == l + TrimLeft(s[1..]);
      assert s == ([s[0]] + l) + TrimLeft(s);
    } else {
      assert s == "" + TrimLeft(s);
    }
  }

  lemma {:induction false} RightCut(s: string)
    ensures exists r :: AllSpace(r) && s == TrimRight(s) + r
  {
    var n := |s| - 1;
    if s != "" && IsSpace(s[n]) {
      RightCut(s[..n]);
      var r :| AllSpace(r) && s[..n] == TrimRight(s[..n]) + r;
      assert s == TrimRight(s) + (r + [s[n]]);
    } else {
      assert s == TrimRight(s) + "";
    }
  }

  /** Trimming takes white space off the ends, all of it, and nothing else. */
  lemma TrimSpaceCuts(s: string)
    ensures Trimmed(TrimSpace(s))
    ensures exists l, r :: AllSpace(l) && AllSpace(r) && s == l + TrimSpace(s) + r
  {
    TrimSpaceTrims(s);
    var l, r := TrimmedOff(s);
  }

  lemma TrimmedOff(s: string) returns (l: string, r: string)
    ensures AllSpace(l) && AllSpace(r) && s == l + TrimSpace(s) + r
  {
    LeftCut(s);
    l :| AllSpace(l) && s == l + TrimLeft(s);
    RightCut(TrimLeft(s));
    r :| AllSpace(r) && TrimLeft(s) == TrimSpace(s) + r;
  }

  /** A usage window is accepted, without the white space around it, exactly
      when it is empty or a window. */
  lemma WindowAccepted(value: string, w: string)
    ensures ParseUsageWindow(value) == Some(w) <==>
            (w == "" || IsWindow(w)) && Trimmed(w) && exists l, r :: AllSpace(l) && AllSpace(r) && value == l + w + r
  {
    TrimSpaceCuts(value);
    if Trimmed(w) {
      if l, r :| AllSpace(l) && AllSpace(r) && value == l + w + r { TrimUnique(l, w, r); }
    }
  }

  lemma {:induction false} TrimUnique(l: string, w: string, r: string)
    requires AllSpace(l) && AllSpace(r) && Trimmed(w)
    ensures TrimSpace(l + w + r) == w
    decreases |l| + |r|
  {
    var s := l + w + r;
    if l != "" {
      assert s[0] == l[0] && s[1..] == l[1..] + w + r;
      TrimUnique(l[1..], w, r);
    } else if w == "" {
      assert s == r && forall c | c in s :: IsSpace(c);
      TrimSpaceTrims(s);
    } else {
      assert s[0] == w[0];
      TrimRightUnique(w, r);
      assert s == w + r;
    }
  }

  lemma {:induction false} TrimRightUnique(w: string, r: string)
    requires AllSpace(r) && w != "" && !IsSpace(w[|w| - 1])
    ensures TrimRight(w + r) == w
  {
    if r == "" {
      assert w + r == w;
    } else {
      assert (w + r)[..|w + r| - 1] == w + r[..|r| - 1];
      TrimRightUnique(w, r[..|r| - 1]);
    }
  }

  /** No white space at either end. */
  predicate Trimmed(s: string) { s != "" ==> !IsSpace(s[0]) && !IsSpace(s[|s| - 1]) }

  lemma TrimSpaceTrims(s: string)
    ensures Trimmed(TrimSpace(s)) && forall c | c in TrimSpace(s) :: c in s
    ensures TrimSpace(s) == "" <==> forall c | c in s :: IsSpace(c)
    ensures Trimmed(s) ==> TrimSpace(s) == s
  {
    TrimmedLeft(s);
    TrimmedRight(TrimLeft(s));
  }

  /** What is assumed of strings.ToLower. */
  ghost predicate Folds(lower: string -> string) {
    && (forall s :: lower(lower(s)) == lower(s))
    && (forall s :: ',' in lower(s) ==> ',' in s)
    && (forall s :: Trimmed(s) ==> Trimmed(lower(s)))
  }

  /** One domain as it is stored. */
  predicate IsDomain(d: string, lower: string -> string) { d != "" && ',' !in d && Trimmed(d) && lower(d) == d }

  /** The domains are the entries, trimmed and in lower case, that are not
      empty. */
  lemma {:induction false} DomainsAreClean(parts: seq<string>, lower: string -> string)
    ensures forall d :: d in Domains(parts, lower) <==> d != "" && exists p | p in parts :: d == lower(TrimSpace(p))
  {
    if parts != [] {
      var n := |parts| - 1;
      var front := parts[..n];
      DomainsAreClean(front, lower);
      assert forall p :: p in parts <==> p in front || p == parts[n];
    }
  }

  lemma DomainIsDomain(value: string, lower: string -> string, d: string)
    requires Folds(lower) && d in Domains(Split(value, ','), lower)
    ensures IsDomain(d, lower)
  {
    DomainsAreClean(Split(value, ','), lower);
    var p :| p in Split(value, ',') && d == lower(TrimSpace(p));
    SplitPieces(value, ',');
    TrimSpaceTrims(p);
  }

  lemma {:induction false} DomainsOfDomains(ds: seq<string>, lower: string -> string)
    requires forall d | d in ds :: IsDomain(d, lower)
    ensures Domains(ds, lower) == ds
  {
    if ds != [] {
      var n := |ds| - 1;
      TrimSpaceTrims(ds[n]);
      assert ds[n] in ds && forall d | d in ds[..n] :: d in ds;
      DomainsOfDomains(ds[..n], lower);
      assert ds == ds[..n] + [ds[n]];
    }
  }

  /** Written with commas between them and read again, the domains come back:
      all of them, in order. */
  lemma DomainsRoundTrip(value: string, lower: string -> string)
    requires Folds(lower) && EmailDomains(value, lower).Some? && EmailDomains(value, lower).value != []
    ensures var ds := EmailDomains(value, lower).value;
            && (forall d | d in ds :: IsDomain(d, lower))
            && EmailDomains(Join(ds, ","), lower) == Some(ds)
  {
    var ds := EmailDomains(value, lower).value;
    forall d | d in ds ensures IsDomain(d, lower) { DomainIsDomain(value, lower, d); }
    DomainsOfDomains(ds, lower);
    forall k | 0 <= k < |ds| ensures ',' !in ds[k] { assert ds[k] in ds; }
    SplitJoin(ds, ',');
    assert ds[0] in ds && ds[0][0] == Join(ds, ",")[0];
    TrimSpaceTrims(Join(ds, ","));
  }

  /** The error: the value is not blank, but every entry of it is empty. */
  lemma NoDomainsExactly(value: string, lower: string -> string)
    ensures EmailDomains(value, lower).None? <==>
            !AllSpace(value) && forall p | p in Split(value, ',') :: lower(TrimSpace(p)) == ""
    ensures AllSpace(value) ==> EmailDomains(value, lower) == Some([])
  {
    TrimSpaceTrims(value);
    DomainsAreClean(Split(value, ','), lower);
    var ds := Domains(Split(value, ','), lower);
    if ds != [] { assert ds[0] in ds; }
    assert AllSpace(value) <==> forall c | c in value :: IsSpace(c);
    if p :| p in Split(value, ',') && lower(TrimSpace(p)) != "" { assert lower(TrimSpace(p)) in ds; }
  }
}
