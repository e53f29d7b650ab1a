/** How usage is displayed: the averaging window and the rounded quantities. */
module Usage {
  import opened Common
  import opened Text
  import opened Settings

  const SECOND: int := 1_000_000_000
  const MINUTE: int := 60 * SECOND
  const HOUR: int := 60 * MINUTE
  const MAX_INT64: int := 0x7FFF_FFFF_FFFF_FFFF

  // ---- Windows ----

  /** %d of any number. */
  function Print(n: int): string { if n < 0 then "-" + Decimal(-n) else Decimal(n) }

  /** Go's division truncates. */
  function Quo(a: int, b: int): int
    requires b > 0
  {
    if a < 0 then -((-a) / b) else a / b
  }

  function FormatWindow(d: int): string {
    if d % HOUR == 0 then Print(Quo(d, HOUR)) + "h"
    else if d % MINUTE == 0 then Print(Quo(d, MINUTE)) + "m"
    else Print(Quo(d, SECOND)) + "s"
  }

  /** Two's complement wrap-around of 64-bit multiplication. */
  function Wrap64(n: int): int {
    var r := n % 0x1_0000_0000_0000_0000;
    if r > MAX_INT64 then r - 0x1_0000_0000_0000_0000 else r
  }

  /** time.Duration(seconds) * time.Second. */
  function SecondsToDuration(seconds: int): int { Wrap64(seconds * SECOND) }

  lemma {:induction false} TrimKeepsWindow(s: string)
    requires IsWindow(s)
    ensures TrimSpace(s) == s
  {
  }

  /** A printed positive number with a unit is a window for that many units. */
  lemma PrintedWindow(n: nat, unit: char)
    requires n > 0 && IsUnit(unit)
    ensures IsWindow(Decimal(n) + [unit])
    ensures WindowSeconds(Decimal(n) + [unit]) == n * UnitSeconds(unit)
  {
    DecimalReads(n);
    var s := Decimal(n) + [unit];
    assert s[..|s| - 1] == Decimal(n);
    assert s[0] == Decimal(n)[0] && Decimal(n)[0] in Decimal(n);
  }

  lemma WrapSmall(n: int)
    requires 0 <= n <= MAX_INT64
    ensures Wrap64(n) == n
  {
  }

  lemma WrapRange(n: int)
    ensures -MAX_INT64 - 1 <= Wrap64(n) <= MAX_INT64
  {
  }

  function LargestUnit(seconds: int): char {
    if seconds % 3600 == 0 then 'h' else if seconds % 60 == 0 then 'm' else 's'
  }

  lemma WholeUnits(seconds: int)
    requires seconds > 0
    ensures var d := seconds * SECOND;
            && (d % HOUR == 0 <==> seconds % 3600 == 0) && (d % MINUTE == 0 <==> seconds % 60 == 0)
            && (d % HOUR == 0 ==> d / HOUR == seconds / 3600) && (d % MINUTE == 0 ==> d / MINUTE == seconds / 60)
            && d / SECOND == seconds
  {
  }

  lemma FormatWhole(seconds: int)
    requires seconds > 0
    ensures var u := LargestUnit(seconds);
            seconds / UnitSeconds(u) > 0 && FormatWindow(seconds * SECOND) == Decimal(seconds / UnitSeconds(u)) + [u]
            && seconds / UnitSeconds(u) * UnitSeconds(u) == seconds
  {
    WholeUnits(seconds);
  }

  /** A window of a whole positive number of seconds prints as a window that
      the parser takes as it is, that means the same duration, and that uses
      the largest of h, m and s dividing it. */
  lemma WindowRoundTrip(seconds: int)
    requires 0 < seconds && seconds * SECOND <= MAX_INT64
    ensures var s := FormatWindow(SecondsToDuration(seconds));
            && ParseUsageWindow(s) == Some(s)
            && IsWindow(s) && WindowSeconds(s) == seconds
            && s[|s| - 1] == LargestUnit(seconds)
  {
    WrapSmall(seconds * SECOND);
    FormatWhole(seconds);
    var u := LargestUnit(seconds);
    PrintedWindow(seconds / UnitSeconds(u), u);
    TrimKeepsWindow(Decimal(seconds / UnitSeconds(u)) + [u]);
  }

  lemma PrintedMeans(n: int, unit: char, s: string)
    requires IsUnit(unit) && s == Print(n) + [unit] && IsWindow(s)
    ensures n > 0 && WindowSeconds(s) == n * UnitSeconds(unit)
  {
    assert s[0] == Print(n)[0];
    if n > 0 { PrintedWindow(n, unit); }
  }

  /** However many seconds an adapter reports, the printed window means that
      many exactly when the multiplication does not overflow. */
  lemma WindowMeansSecondsExactlyInRange(seconds: int)
    requires 0 < seconds
    ensures var s := FormatWindow(SecondsToDuration(seconds));
            IsWindow(s) && WindowSeconds(s) == seconds <==> seconds * SECOND <= MAX_INT64
  {
    var d := SecondsToDuration(seconds);
    var s := FormatWindow(d);
    WrapRange(seconds * SECOND);
    if seconds * SECOND <= MAX_INT64 {
      WindowRoundTrip(seconds);
    } else if IsWindow(s) {
      if d % HOUR == 0 {
        PrintedMeans(Quo(d, HOUR), 'h', s);
      } else if d % MINUTE == 0 {
        PrintedMeans(Quo(d, MINUTE), 'm', s);
      } else {
        PrintedMeans(Quo(d, SECOND), 's', s);
      }
      assert WindowSeconds(s) * SECOND <= d;
    }
  }

  // ---- Quantities ----

  /** A quantity rounded up to whole units; units per 1.0 is 1000 for CPU and
      1 for memory. */
  function Ceil(q: real): int { -((-q).Floor) }

  function Displayed(q: real, unit: real): int { Ceil(q * unit) }

  /** What is shown is the least whole number of units that is not less. */
  lemma DisplayedIsCeiling(q: real, n: int)
    ensures Displayed(q, CPU_UNIT) == n <==> q * 1000.0 <= n as real < q * 1000.0 + 1.0
    ensures Displayed(q, MEM_UNIT) == n <==> q <= n as real < q + 1.0
  {
  }

  datatype Container = Container(name: string, cpu: Option<real>, mem: Option<real>)

  datatype ContainerUsage = ContainerUsage(name: string, cpu: Option<int>, mem: Option<int>)

  datatype ResourceUsage = ResourceUsage(cpu: int, mem: int, containers: seq<ContainerUsage>)

  const CPU_UNIT: real := 1000.0
  const MEM_UNIT: real := 1.0

  /** What the containers report, in order; those that report nothing are
      passed over. */
  function CPUs(cs: seq<Container>): seq<real> {
    if cs == [] then []
    else CPUs(cs[..|cs| - 1]) + (if cs[|cs| - 1].cpu.Some? then [cs[|cs| - 1].cpu.value] else [])
  }

  function Mems(cs: seq<Container>): seq<real> {
    if cs == [] then []
    else Mems(cs[..|cs| - 1]) + (if cs[|cs| - 1].mem.Some? then [cs[|cs| - 1].mem.value] else [])
  }

  function Sum(qs: seq<real>): real { if qs == [] then 0.0 else Sum(qs[..|qs| - 1]) + qs[|qs| - 1] }

  function UsageOf(c: Container): ContainerUsage {
    ContainerUsage(c.name,
                   if c.cpu.Some? then Some(Displayed(c.cpu.value, CPU_UNIT)) else None,
                   if c.mem.Some? then Some(Displayed(c.mem.value, MEM_UNIT)) else None)
  }

  function UsagesOf(cs: seq<Container>): (r: seq<ContainerUsage>)
    ensures |r| == |cs| && forall i | 0 <= i < |cs| :: r[i] == UsageOf(cs[i])
  {
    if cs == [] then [] else UsagesOf(cs[..|cs| - 1]) + [UsageOf(cs[|cs| - 1])]
  }

  method SumContainerUsage(cs: seq<Container>, perContainer: bool) returns (u: ResourceUsage)
    ensures u.cpu == Displayed(Sum(CPUs(cs)), CPU_UNIT) && u.mem == Displayed(Sum(Mems(cs)), MEM_UNIT)
    ensures |u.containers| == if perContainer then |cs| else 0
    ensures perContainer ==> forall i | 0 <= i < |cs| :: u.containers[i] == UsageOf(cs[i])
  {
    var cpu, mem := 0.0, 0.0;
    var containers: seq<ContainerUsage> := [];
    for i := 0 to |cs|
      invariant cpu == Sum(CPUs(cs[..i])) && mem == Sum(Mems(cs[..i]))
      invariant containers == if perContainer then UsagesOf(cs[..i]) else []
    {
      var c := cs[i];
      var cu := ContainerUsage(c.name, None, None);
      if c.cpu.Some? {
        cu := cu.(cpu := Some(Displayed(c.cpu.value, CPU_UNIT)));
        cpu := cpu + c.cpu.value;
      }
      if c.mem.Some? {
        cu := cu.(mem := Some(Displayed(c.mem.value, MEM_UNIT)));
        mem := mem + c.mem.value;
      }
      assert cu == UsageOf(c);
      assert cs[..i + 1] == cs[..i] + [c];
      OneMore(cs[..i], c);
      if perContainer {
        containers := containers + [cu];
      }
    }
    assert cs[..|cs|] == cs;
    return ResourceUsage(Displayed(cpu, CPU_UNIT), Displayed(mem, MEM_UNIT), containers);
  }

  lemma OneMore(cs: seq<Container>, c: Container)
    ensures Sum(CPUs(cs + [c])) == Sum(CPUs(cs)) + if c.cpu.Some? then c.cpu.value else 0.0
    ensures Sum(Mems(cs + [c])) == Sum(Mems(cs)) + if c.mem.Some? then c.mem.value else 0.0
    ensures UsagesOf(cs + [c]) == UsagesOf(cs) + [UsageOf(c)]
  {
    assert (cs + [c])[..|cs|] == cs;
    assert CPUs(cs) + [] == CPUs(cs) && Mems(cs) + [] == Mems(cs);
    if c.cpu.Some? { SumAppend(CPUs(cs), c.cpu.value); }
    if c.mem.Some? { SumAppend(Mems(cs), c.mem.value); }
  }

  lemma SumAppend(qs: seq<real>, q: real)
    ensures Sum(qs + [q]) == Sum(qs) + q
  {
    assert (qs + [q])[..|qs|] == qs;
  }

  function SumDisplayed(qs: seq<real>, unit: real): int {
    if qs == [] then 0 else SumDisplayed(qs[..|qs| - 1], unit) + Displayed(qs[|qs| - 1], unit)
  }

  lemma {:induction false} DisplayedBounds(qs: seq<real>, unit: real)
    ensures Sum(qs) * unit <= SumDisplayed(qs, unit) as real
    ensures qs != [] ==> (SumDisplayed(qs, unit) - |qs|) as real < Sum(qs) * unit
  {
    if qs != [] {
      var n := |qs| - 1;
      DisplayedBounds(qs[..n], unit);
      assert Sum(qs) * unit == Sum(qs[..n]) * unit + qs[n] * unit;
    }
  }

  /** The displayed container values add up to at least the displayed total
      and to less than one unit per container more. */
  lemma RoundingBound(qs: seq<real>, unit: real)
    requires qs != []
    ensures 0 <= SumDisplayed(qs, unit) - Displayed(Sum(qs), unit) <= |qs| - 1
  {
    DisplayedBounds(qs, unit);
  }

  /** The sum of the values that a listing of containers shows. */
  function ShownCPU(us: seq<ContainerUsage>): int {
    if us == [] then 0
    else ShownCPU(us[..|us| - 1]) + if us[|us| - 1].cpu.Some? then us[|us| - 1].cpu.value else 0
  }

  function ShownMem(us: seq<ContainerUsage>): int {
    if us == [] then 0
    else ShownMem(us[..|us| - 1]) + if us[|us| - 1].mem.Some? then us[|us| - 1].mem.value else 0
  }

  lemma {:induction false} ShownCPUDisplayed(cs: seq<Container>, us: seq<ContainerUsage>)
    requires |us| == |cs| && forall i | 0 <= i < |cs| :: us[i] == UsageOf(cs[i])
    ensures ShownCPU(us) == SumDisplayed(CPUs(cs), CPU_UNIT)
  {
    if cs != [] {
      var n := |cs| - 1;
      ShownCPUDisplayed(cs[..n], us[..n]);
      if cs[n].cpu.Some? { SumDisplayedSnoc(CPUs(cs[..n]), cs[n].cpu.value, CPU_UNIT); }
      assert us[n] == UsageOf(cs[n]) && CPUs(cs[..n]) + [] == CPUs(cs[..n]);
    }
  }

  lemma {:induction false} ShownMemDisplayed(cs: seq<Container>, us: seq<ContainerUsage>)
    requires |us| == |cs| && forall i | 0 <= i < |cs| :: us[i] == UsageOf(cs[i])
    ensures ShownMem(us) == SumDisplayed(Mems(cs), MEM_UNIT)
  {
    if cs != [] {
      var n := |cs| - 1;
      ShownMemDisplayed(cs[..n], us[..n]);
      if cs[n].mem.Some? { SumDisplayedSnoc(Mems(cs[..n]), cs[n].mem.value, MEM_UNIT); }
      assert us[n] == UsageOf(cs[n]) && Mems(cs[..n]) + [] == Mems(cs[..n]);
    }
  }

  lemma SumDisplayedSnoc(qs: seq<real>, q: real, unit: real)
    ensures SumDisplayed(qs + [q], unit) == SumDisplayed(qs, unit) + Displayed(q, unit)
  {
    assert (qs + [q])[..|qs|] == qs;
  }

  /** What SumContainerUsage returns with the containers listed. */
  predicate IsUsageOf(cs: seq<Container>, u: ResourceUsage) {
    && u.cpu == Displayed(Sum(CPUs(cs)), CPU_UNIT) && u.mem == Displayed(Sum(Mems(cs)), MEM_UNIT)
    && |u.containers| == |cs| && forall i | 0 <= i < |cs| :: u.containers[i] == UsageOf(cs[i])
  }

  /** The values listed for the containers add up to the total that is shown
      with them, or to at most one unit less than the number of containers that
      report anything more. */
  lemma ListedValuesAddUp(cs: seq<Container>, u: ResourceUsage)
    requires IsUsageOf(cs, u)
    ensures CPUs(cs) != [] ==> 0 <= ShownCPU(u.containers) - u.cpu <= |CPUs(cs)| - 1
    ensures Mems(cs) != [] ==> 0 <= ShownMem(u.containers) - u.mem <= |Mems(cs)| - 1
    ensures CPUs(cs) == [] ==> ShownCPU(u.containers) == u.cpu == 0
    ensures Mems(cs) == [] ==> ShownMem(u.containers) == u.mem == 0
  {
    ShownCPUDisplayed(cs, u.containers);
    ShownMemDisplayed(cs, u.containers);
    if CPUs(cs) != [] { RoundingBound(CPUs(cs), CPU_UNIT); }
    if Mems(cs) != [] { RoundingBound(Mems(cs), MEM_UNIT); }
  }

  // ---- Pods ----

  function Flatten(pods: seq<seq<Container>>): seq<Container> {
    if pods == [] then [] else Flatten(pods[..|pods| - 1]) + pods[|pods| - 1]
  }

  /** Pod after pod, and within a pod container after container. */
  lemma {:induction false} FlattenInOrder(a: seq<seq<Container>>, b: seq<seq<Container>>, pod: seq<Container>)
    ensures Flatten(a + b) == Flatten(a) + Flatten(b)
    ensures Flatten([pod]) == pod && Flatten([]) == []
    decreases |b|
  {
    assert [pod][..0] == [];
    if b == [] {
      assert a + b == a;
    } else {
      var n := |b| - 1;
      assert (a + b)[..|a| + n] == a + b[..n];
      FlattenInOrder(a, b[..n], pod);
    }
  }

  method FlattenPods(pods: seq<seq<Container>>) returns (cs: seq<Container>)
    ensures cs == Flatten(pods)
  {
    cs := [];
    for i := 0 to |pods|
      invariant cs == Flatten(pods[..i])
    {
      assert pods[..i + 1][..i] == pods[..i];
      cs := cs + pods[i];
    }
    assert pods[..|pods|] == pods;
  }

  function PodTotals(pods: seq<seq<Container>>): (real, real) {
    if pods == [] then (0.0, 0.0)
    else
      var (c, m) := PodTotals(pods[..|pods| - 1]);
      var last := pods[|pods| - 1];
      (c + Sum(CPUs(last)), m + Sum(Mems(last)))
  }

  lemma {:induction false} SumConcat(a: seq<real>, b: seq<real>)
    ensures Sum(a + b) == Sum(a) + Sum(b)
  {
    if b == [] {
      assert a + b == a;
    } else {
      var n := |b| - 1;
      assert (a + b)[..|a| + n] == a + b[..n];
      SumConcat(a, b[..n]);
    }
  }

  lemma {:induction false} ReportsConcat(a: seq<Container>, b: seq<Container>)
    ensures CPUs(a + b) == CPUs(a) + CPUs(b) && Mems(a + b) == Mems(a) + Mems(b)
  {
    if b == [] {
      assert a + b == a;
    } else {
      var n := |b| - 1;
      assert (a + b)[..|a| + n] == a + b[..n];
      ReportsConcat(a, b[..n]);
    }
  }

  /** Summing the containers of all pods at once is summing the pods' exact
      totals: nothing is rounded in between. */
  lemma {:induction false} FlatteningKeepsTotals(pods: seq<seq<Container>>)
    ensures PodTotals(pods) == (Sum(CPUs(Flatten(pods))), Sum(Mems(Flatten(pods))))
  {
    if pods != [] {
      var n := |pods| - 1;
      FlatteningKeepsTotals(pods[..n]);
      ReportsConcat(Flatten(pods[..n]), pods[n]);
      SumConcat(CPUs(Flatten(pods[..n])), CPUs(pods[n]));
      SumConcat(Mems(Flatten(pods[..n])), Mems(pods[n]));
    }
  }
}
