/** String functions of the Go standard library that the models share, with
    the laws they need: splitting and joining, first occurrence, byte order
    and sorting. */
module Text {
  import opened Common

  // ---- Join and split ----

  function Join(parts: seq<string>, sep: string): string {
    if |parts| == 0 then ""
    else if |parts| == 1 then parts[0]
    else parts[0] + sep + Join(parts[1..], sep)
  }

  /** One more character in front of a text that is already split. */
  function PushFront(x: char, parts: seq<string>, c: char): (r: seq<string>)
    requires |parts| >= 1
    ensures |r| >= 1
  {
    if x == c then [""] + parts else [[x] + parts[0]] + parts[1..]
  }

  /** strings.Split with a one-character separator. */
  function Split(s: string, c: char): (r: seq<string>)
    ensures |r| >= 1
  {
    if s == "" then [""] else PushFront(s[0], Split(s[1..], c), c)
  }

  lemma PushFrontAppend(x: char, p: seq<string>, q: seq<string>, c: char)
    requires |p| >= 1
    ensures PushFront(x, p + q, c) == PushFront(x, p, c) + q
  {
    assert (p + q)[1..] == p[1..] + q;
  }

  lemma {:induction false} SplitAtSeparator(a: string, b: string, c: char)
    ensures Split(a + [c] + b, c) == Split(a, c) + Split(b, c)
  {
    if a == "" {
      assert (a + [c] + b)[1..] == b;
    } else {
      assert (a + [c] + b)[1..] == a[1..] + [c] + b;
      SplitAtSeparator(a[1..], b, c);
      PushFrontAppend(a[0], Split(a[1..], c), Split(b, c), c);
    }
  }

  lemma {:induction false} SplitNoSeparator(s: string, c: char)
    requires c !in s
    ensures Split(s, c) == [s]
  {
    if s != "" {
      assert s[0] in s;
      SplitNoSeparator(s[1..], c);
      assert [s[0]] + s[1..] == s;
    }
  }

  lemma JoinCons(h: string, t: seq<string>, sep: string)
    requires |t| >= 1
    ensures Join([h] + t, sep) == h + sep + Join(t, sep)
  {
    assert ([h] + t)[1..] == t;
  }

  lemma Regroup(a: string, b: string, c: string, d: string)
    ensures a + (b + c + d) == (a + b) + c + d
  {
  }

  lemma PushFrontJoin(x: char, parts: seq<string>, c: char)
    requires |parts| >= 1
    ensures Join(PushFront(x, parts, c), [c]) == [x] + Join(parts, [c])
  {
    if x == c {
      JoinCons("", parts, [c]);
      assert "" + [c] == [c];
    } else {
      JoinHead(x, parts[0], parts[1..], [c]);
      assert parts == [parts[0]] + parts[1..];
    }
  }

  lemma JoinHead(x: char, h: string, t: seq<string>, sep: string)
    ensures Join([[x] + h] + t, sep) == [x] + Join([h] + t, sep)
  {
    if t == [] {
      assert [[x] + h] + t == [[x] + h] && [h] + t == [h];
    } else {
      JoinCons(h, t, sep);
      JoinCons([x] + h, t, sep);
      Regroup([x], h, sep, Join(t, sep));
    }
  }

  lemma {:induction false} SplitPieces(s: string, c: char)
    ensures forall k | 0 <= k < |Split(s, c)| :: c !in Split(s, c)[k]
    ensures Join(Split(s, c), [c]) == s
  {
    if s != "" {
      SplitPieces(s[1..], c);
      PushFrontJoin(s[0], Split(s[1..], c), c);
      assert [s[0]] + s[1..] == s;
    }
  }

  lemma {:induction false} SplitJoin(parts: seq<string>, c: char)
    requires |parts| >= 1
    requires forall k | 0 <= k < |parts| :: c !in parts[k]
    ensures Split(Join(parts, [c]), c) == parts
  {
    SplitNoSeparator(parts[0], c);
    if |parts| > 1 {
      SplitJoin(parts[1..], c);
      SplitAtSeparator(parts[0], Join(parts[1..], [c]), c);
      assert [parts[0]] + parts[1..] == parts;
    }
  }

  lemma {:induction false} JoinAppend(a: seq<string>, b: seq<string>, sep: string)
    requires |a| >= 1 && |b| >= 1
    ensures Join(a + b, sep) == Join(a, sep) + sep + Join(b, sep)
  {
    if |a| == 1 {
      assert (a + b)[1..] == b;
    } else {
      assert (a + b)[1..] == a[1..] + b;
      JoinAppend(a[1..], b, sep);
      Regroup(a[0] + sep, Join(a[1..], sep), sep, Join(b, sep));
    }
  }

  // ---- First occurrence ----

  /** strings.Index. */
  function IndexFrom(s: string, sub: string, i: nat): (r: Option<nat>)
    requires i <= |s|
    ensures r.Some? ==> i <= r.value && r.value + |sub| <= |s| && s[r.value..r.value + |sub|] == sub
    ensures r.Some? ==> forall k | i <= k < r.value :: !(sub <= s[k..])
    ensures r.None? ==> forall k | i <= k <= |s| :: !(sub <= s[k..])
    decreases |s| - i
  {
    if sub <= s[i..] then Some(i)
    else if i == |s| then None
    else IndexFrom(s, sub, i + 1)
  }

  function Index(s: string, sub: string): Option<nat> { IndexFrom(s, sub, 0) }

  /** strings.Replace with a count of one. */
  function ReplaceFirst(s: string, was: string, now: string): string {
    match Index(s, was)
    case None => s
    case Some(i) => s[..i] + now + s[i + |was|..]
  }

  // ---- Order ----

  predicate Le(a: string, b: string) {
    a == "" || (b != "" && (a[0] < b[0] || (a[0] == b[0] && Le(a[1..], b[1..]))))
  }

  /** Up to position k the two agree, and there a ends or has the smaller
      byte. */
  predicate LeAt(a: string, b: string, k: int) {
    0 <= k <= |a| && k <= |b| && a[..k] == b[..k] && (k == |a| || (k < |b| && a[k] < b[k]))
  }

  lemma LeAtTail(a: string, b: string, k: int)
    requires a != "" && b != "" && a[0] == b[0]
    ensures LeAt(a[1..], b[1..], k) ==> LeAt(a, b, k + 1)
    ensures LeAt(a, b, k) ==> LeAt(a[1..], b[1..], k - 1)
  {
    if LeAt(a[1..], b[1..], k) {
      assert a[..k + 1] == [a[0]] + a[1..][..k] && b[..k + 1] == [b[0]] + b[1..][..k];
    }
    if LeAt(a, b, k) {
      assert k > 0 by { assert a[0] == b[0]; }
      assert a[1..][..k - 1] == a[..k][1..] && b[1..][..k - 1] == b[..k][1..];
    }
  }

  lemma FirstByte(a: string, b: string, k: int)
    requires LeAt(a, b, k)
    ensures k == 0 || a[0] == b[0]
  {
    if k > 0 { assert a[..k][0] == b[..k][0]; }
  }

  /** The order of sort.Strings: a prefix first, else by the first difference. */
  lemma {:induction false} LeMeans(a: string, b: string)
    ensures Le(a, b) <==> exists k :: LeAt(a, b, k)
  {
    if a == "" {
      assert LeAt(a, b, 0);
    } else if b != "" && a[0] == b[0] {
      LeMeans(a[1..], b[1..]);
      if k :| LeAt(a[1..], b[1..], k) { LeAtTail(a, b, k); }
      if k :| LeAt(a, b, k) { LeAtTail(a, b, k); }
    } else if b != "" {
      if a[0] < b[0] { assert LeAt(a, b, 0); }
      forall k | LeAt(a, b, k) ensures k == 0 || a[0] == b[0] { FirstByte(a, b, k); }
    }
  }

  lemma {:induction false} LeTotal(a: string, b: string)
    ensures Le(a, b) || Le(b, a)
  {
    if a != "" && b != "" && a[0] == b[0] { LeTotal(a[1..], b[1..]); }
  }

  lemma {:induction false} LeAntisymmetric(a: string, b: string)
    requires Le(a, b) && Le(b, a)
    ensures a == b
  {
    if a != "" {
      LeAntisymmetric(a[1..], b[1..]);
      assert a == [a[0]] + a[1..] && b == [b[0]] + b[1..];
    }
  }

  lemma {:induction false} LeTransitive(a: string, b: string, c: string)
    requires Le(a, b) && Le(b, c)
    ensures Le(a, c)
  {
    if a != "" && a[0] == b[0] == c[0] { LeTransitive(a[1..], b[1..], c[1..]); }
  }

  lemma LeReflexive(a: string)
    ensures Le(a, a)
  {
    LeTotal(a, a);
  }

  predicate Sorted(s: seq<string>) {
    forall i, j | 0 <= i < j < |s| :: Le(s[i], s[j])
  }

  /** Where sort.Strings puts one more string. */
  function Insert(s: seq<string>, x: string): seq<string> {
    if |s| == 0 || Le(x, s[0]) then [x] + s else [s[0]] + Insert(s[1..], x)
  }

  /** sort.Strings: the ascending arrangement. */
  function Sort(s: seq<string>): seq<string> {
    if |s| == 0 then [] else Insert(Sort(s[1..]), s[0])
  }

  lemma {:induction false} InsertElements(s: seq<string>, x: string)
    ensures multiset(Insert(s, x)) == multiset(s) + multiset{x}
  {
    if |s| > 0 && !Le(x, s[0]) {
      InsertElements(s[1..], x);
      assert s == [s[0]] + s[1..];
    }
  }

  lemma ConsSorted(x: string, s: seq<string>)
    requires Sorted(s) && forall y | y in multiset(s) :: Le(x, y)
    ensures Sorted([x] + s)
  {
    assert forall j | 0 <= j < |s| :: s[j] in multiset(s);
  }

  lemma {:induction false} InsertSorted(s: seq<string>, x: string)
    requires Sorted(s)
    ensures Sorted(Insert(s, x))
  {
    if |s| == 0 {
    } else if Le(x, s[0]) {
      forall y | y in multiset(s) ensures Le(x, y) {
        HeadIsLeast(s, y);
        LeTransitive(x, s[0], y);
      }
      ConsSorted(x, s);
    } else {
      TailSorted(s);
      InsertSorted(s[1..], x);
      InsertElements(s[1..], x);
      LeTotal(x, s[0]);
      forall y | y in multiset(Insert(s[1..], x)) ensures Le(s[0], y) {
        if y != x { HeadIsLeast(s, y); }
      }
      ConsSorted(s[0], Insert(s[1..], x));
    }
  }

  lemma HeadIsLeast(s: seq<string>, x: string)
    requires Sorted(s) && x in multiset(s)
    ensures Le(s[0], x)
  {
    var k :| 0 <= k < |s| && s[k] == x;
    LeReflexive(x);
  }

  lemma TailSorted(a: seq<string>)
    requires Sorted(a) && |a| > 0
    ensures Sorted(a[1..]) && multiset(a[1..]) == multiset(a) - multiset{a[0]}
  {
    assert a == [a[0]] + a[1..];
  }

  lemma {:induction false} SortSorts(s: seq<string>)
    ensures Sorted(Sort(s)) && multiset(Sort(s)) == multiset(s)
  {
    if |s| > 0 {
      SortSorts(s[1..]);
      InsertSorted(Sort(s[1..]), s[0]);
      InsertElements(Sort(s[1..]), s[0]);
      assert s == [s[0]] + s[1..];
    }
  }

  lemma HeadsEqual(a: seq<string>, b: seq<string>)
    requires Sorted(a) && Sorted(b) && multiset(a) == multiset(b) && |a| > 0 && |b| > 0
    ensures a[0] == b[0]
  {
    assert a[0] in multiset(a) && b[0] in multiset(b);
    HeadIsLeast(a, b[0]);
    HeadIsLeast(b, a[0]);
    LeAntisymmetric(a[0], b[0]);
  }

  /** There is only one ascending arrangement. */
  lemma {:induction false} SortedUnique(a: seq<string>, b: seq<string>)
    requires Sorted(a) && Sorted(b) && multiset(a) == multiset(b)
    ensures a == b
  {
    assert |multiset(a)| == |a| && |multiset(b)| == |b|;
    if |a| > 0 {
      HeadsEqual(a, b);
      TailSorted(a);
      TailSorted(b);
      SortedUnique(a[1..], b[1..]);
      assert a == [a[0]] + a[1..] && b == [b[0]] + b[1..];
    }
  }

  lemma SortIgnoresOrder(a: seq<string>, b: seq<string>)
    requires multiset(a) == multiset(b)
    ensures Sort(a) == Sort(b)
  {
    SortSorts(a);
    SortSorts(b);
    SortedUnique(Sort(a), Sort(b));
  }
}
