/** The fleet's health score: penalties for hosts that are down or short of resources and for stopped machines. */
module HealthScore {
  import opened Common
  import opened HealthState

  /** What the score looks at in a probed host, and in a virtual machine. */
  datatype Probe = Probe(state: Maybe<State>, status: Maybe<Alias>, ram: real, disk: real)
  datatype Vm = Vm(template: bool, stopped: bool)

  predicate IsBadState(s: State)
  {
    s.AuthFailed? || s.Degraded? || s.Unreachable?
  }

  predicate IsDown(p: Probe)
  {
    if p.state.Some? then IsBadState(p.state.value)
    else p.status.Some? && p.status.value.Token? && IsBadState(p.status.value.state)
  }

  predicate IsStale(p: Probe)
  {
    if p.state.Some? then p.state.value.Stale? else p.status == Some(Token(Stale))
  }

  predicate HighRam(p: Probe) { p.ram > 80.0 }
  predicate HighDisk(p: Probe) { p.disk > 80.0 }
  predicate IsReal(v: Vm) { !v.template }
  predicate IsStopped(v: Vm) { !v.template && v.stopped }

  function Number<T>(s: seq<T>, f: T -> bool): (n: nat)
    ensures n <= |s|
  {
    if s == [] then 0 else Number(s[..|s| - 1], f) + if f(s[|s| - 1]) then 1 else 0
  }

  /** Rounding to the nearest integer, halves to the even one. */
  function RoundHalfEven(x: real): int
  {
    var f := x.Floor;
    var d := x - f as real;
    if d < 0.5 then f else if d > 0.5 then f + 1 else if f % 2 == 0 then f else f + 1
  }

  function UpPercent(down: nat, total: nat): int
    requires down <= total && total > 0
  {
    RoundHalfEven((total - down) as real / total as real * 100.0)
  }

  function DownPenalty(down: nat, total: nat): int
    requires down <= total && total > 0
  {
    Min(40, (100 - UpPercent(down, total)) * 2)
  }

  datatype Factor = HostsDown | HostsStale | RamPressure | DiskPressure | VmsStopped

  function Total(factors: seq<(Factor, int)>): int
  {
    if factors == [] then 0 else Total(factors[..|factors| - 1]) + factors[|factors| - 1].1
  }

  lemma TotalSnoc(factors: seq<(Factor, int)>, f: (Factor, int))
    ensures Total(factors + [f]) == Total(factors) + f.1
  {
    assert (factors + [f])[..|factors|] == factors;
  }

  /** All that is taken off for the hosts and for the machines. */
  function HostPenalty(hosts: seq<Probe>): int
  {
    if hosts == [] then 0
    else
      DownPenalty(Number(hosts, IsDown), |hosts|)
      + Min(15, Number(hosts, HighRam) * 5)
      + Min(15, Number(hosts, HighDisk) * 5)
  }

  function VmPenalty(vms: seq<Vm>): int
  {
    var total := Number(vms, IsReal);
    var stopped := Number(vms, IsStopped);
    if total > 0 && stopped as real > total as real * 0.3 then Min(10, stopped) else 0
  }

  function Clamped(score: int): int
  {
    if Min(100, score) < 0 then 0 else Min(100, score)
  }

  datatype Grade = A | B | C | D | F

  function GradeOf(score: int): Grade
  {
    if score >= 90 then A else if score >= 75 then B else if score >= 60 then C else if score >= 40 then D else F
  }

  lemma RoundIsMonotone(x: real, y: real)
    requires x <= y
    ensures RoundHalfEven(x) <= RoundHalfEven(y)
  {
  }

  lemma PercentRange(down: nat, total: nat)
    requires down <= total && total > 0
    ensures 0 <= UpPercent(down, total) <= 100
    ensures 0 <= DownPenalty(down, total) <= 40
  {
    var share := (total - down) as real / total as real;
    assert 0.0 <= share <= 1.0;
    RoundIsMonotone(0.0, share * 100.0);
    RoundIsMonotone(share * 100.0, 100.0);
  }

  lemma QuotientIsMonotone(a: real, b: real, t: real)
    requires a <= b && t > 0.0
    ensures a / t <= b / t
  {
    assert b / t - a / t == (b - a) / t;
  }

  lemma MoreDownMorePenalty(down: nat, more: nat, total: nat)
    requires down <= more <= total && total > 0
    ensures DownPenalty(down, total) <= DownPenalty(more, total)
  {
    var t := total as real;
    QuotientIsMonotone((total - more) as real, (total - down) as real, t);
    RoundIsMonotone((total - more) as real / t * 100.0, (total - down) as real / t * 100.0);
  }

  /** Take a penalty off the score and report it. */
  method TakeOff(before: int, reported: seq<(Factor, int)>, f: Factor, penalty: int)
    returns (score: int, factors: seq<(Factor, int)>)
    ensures score == before - penalty
    ensures factors == reported + [(f, penalty)] && Total(factors) == Total(reported) + penalty
  {
    TotalSnoc(reported, (f, penalty));
    score, factors := before - penalty, reported + [(f, penalty)];
  }

  /** The factors for hosts that are down, or stale at no cost. */
  method JudgeStates(hosts: seq<Probe>) returns (score: int, factors: seq<(Factor, int)>)
    requires hosts != []
    ensures score == 100 - DownPenalty(Number(hosts, IsDown), |hosts|) == 100 - Total(factors)
    ensures (HostsStale, 0) in factors <==> Number(hosts, IsStale) > 0
  {
    score, factors := 100, [];
    var down, stale := Number(hosts, IsDown), Number(hosts, IsStale);
    PercentRange(down, |hosts|);
    if UpPercent(down, |hosts|) < 100 {
      score, factors := TakeOff(score, factors, HostsDown, DownPenalty(down, |hosts|));
    }
    if stale > 0 {
      score, factors := TakeOff(score, factors, HostsStale, 0);
    }
  }

  /** The factors for hosts short of memory or disk. */
  method JudgeCapacity(hosts: seq<Probe>, before: int, reported: seq<(Factor, int)>)
    returns (score: int, factors: seq<(Factor, int)>)
    ensures var penalty := Min(15, Number(hosts, HighRam) * 5) + Min(15, Number(hosts, HighDisk) * 5);
      score == before - penalty && Total(factors) == Total(reported) + penalty
    ensures reported <= factors
  {
    score, factors := before, reported;
    var highRam, highDisk := Number(hosts, HighRam), Number(hosts, HighDisk);
    if highRam > 0 {
      score, factors := TakeOff(score, factors, RamPressure, Min(15, highRam * 5));
    }
    if highDisk > 0 {
      score, factors := TakeOff(score, factors, DiskPressure, Min(15, highDisk * 5));
    }
  }

  /** The factors that come from the hosts. */
  method JudgeHosts(hosts: seq<Probe>) returns (score: int, factors: seq<(Factor, int)>)
    ensures score == 100 - HostPenalty(hosts) == 100 - Total(factors)
  {
    score, factors := 100, [];
    if hosts != [] {
      score, factors := JudgeStates(hosts);
      score, factors := JudgeCapacity(hosts, score, factors);
    }
  }

  lemma PenaltyRange(hosts: seq<Probe>)
    ensures 0 <= HostPenalty(hosts) <= 70
  {
    if hosts != [] {
      PercentRange(Number(hosts, IsDown), |hosts|);
    }
  }

  /** The factor that comes from the virtual machines. */
  method JudgeVms(vms: seq<Vm>, before: int, reported: seq<(Factor, int)>)
    returns (score: int, factors: seq<(Factor, int)>)
    ensures score == before - VmPenalty(vms) && Total(factors) == Total(reported) + VmPenalty(vms)
    ensures 0 <= VmPenalty(vms) <= 10
  {
    score, factors := before, reported;
    var total, stopped := Number(vms, IsReal), Number(vms, IsStopped);
    if total > 0 && stopped as real > total as real * 0.3 {
      score, factors := TakeOff(score, factors, VmsStopped, Min(10, stopped));
    }
  }

  /** The score, its grade and the factors reported; without hosts or machines to judge nothing is taken off. */
  method ComputeScore(hosts: Maybe<seq<Probe>>, vms: Maybe<seq<Vm>>)
    returns (score: int, grade: Grade, factors: seq<(Factor, int)>)
    ensures score
         == 100 - (if hosts.Some? then HostPenalty(hosts.value) else 0)
                - (if vms.Some? then VmPenalty(vms.value) else 0)
    ensures score == 100 - Total(factors) && 20 <= score <= 100
    ensures grade == GradeOf(score)
  {
    score, factors := 100, [];
    if hosts.Some? {
      PenaltyRange(hosts.value);
      score, factors := JudgeHosts(hosts.value);
    }
    if vms.Some? {
      score, factors := JudgeVms(vms.value, score, factors);
    }
    score := Clamped(score);
    grade := GradeOf(score);
  }

  lemma {:induction false} NumberAfterChange<T>(s: seq<T>, i: nat, x: T, f: T -> bool)
    requires i < |s|
    ensures Number(s[i := x], f) == Number(s, f) - (if f(s[i]) then 1 else 0) + (if f(x) then 1 else 0)
    decreases |s|
  {
    var n := |s| - 1;
    if i == n {
      assert s[i := x][..n] == s[..n];
    } else {
      assert s[i := x][..n] == s[..n][i := x];
      NumberAfterChange(s[..n], i, x, f);
    }
  }

  function BadHost(p: Probe, s: State): Probe
  {
    p.(state := Some(s))
  }

  /** A host that goes down with its memory and disk readings unchanged never raises the score or betters the grade. */
  lemma GoingDownNeverHelps(hosts: seq<Probe>, i: nat, s: State, vmPenalty: int)
    requires i < |hosts| && IsBadState(s)
    ensures HostPenalty(hosts) <= HostPenalty(hosts[i := BadHost(hosts[i], s)])
    ensures var before := 100 - HostPenalty(hosts) - vmPenalty;
      var after := 100 - HostPenalty(hosts[i := BadHost(hosts[i], s)]) - vmPenalty;
      after <= before && GradeRank(GradeOf(after)) >= GradeRank(GradeOf(before))
  {
    var bad := BadHost(hosts[i], s);
    NumberAfterChange(hosts, i, bad, IsDown);
    NumberAfterChange(hosts, i, bad, HighRam);
    NumberAfterChange(hosts, i, bad, HighDisk);
    MoreDownMorePenalty(Number(hosts, IsDown), Number(hosts[i := bad], IsDown), |hosts|);
  }

  /** A is the best grade. */
  function GradeRank(g: Grade): nat
  {
    match g case A => 0 case B => 1 case C => 2 case D => 3 case F => 4
  }

  // ---------- what costs how much ----------

  /** Rounding goes to the nearest integer, and from the middle to the even one. */
  lemma RoundsToNearest(x: real)
    ensures var r := RoundHalfEven(x) as real;
      -0.5 <= x - r <= 0.5 && ((x - r == 0.5 || r - x == 0.5) ==> RoundHalfEven(x) % 2 == 0)
  {
  }

  lemma RoundOfInteger(n: int)
    ensures RoundHalfEven(n as real) == n
  {
  }

  /** Every whole per cent of hosts that are down costs two points, up to 40. */
  lemma PercentDownCosts(down: nat, total: nat, percent: nat)
    requires down <= total && total > 0 && down * 100 == percent * total
    ensures DownPenalty(down, total) == if percent >= 20 then 40 else 2 * percent
  {
    UpShare(down, total, percent);
    RoundOfInteger(100 - percent);
  }

  lemma UpShare(down: nat, total: nat, percent: nat)
    requires down <= total && total > 0 && down * 100 == percent * total
    ensures (total - down) as real / total as real * 100.0 == (100 - percent) as real
  {
    var t, d, p := total as real, down as real, percent as real;
    assert d * 100.0 == p * t;
    assert (t - d) * 100.0 == (100.0 - p) * t;
    QuotientTimes(t - d, t, 100.0 - p);
    assert (total - down) as real == t - d && (100 - percent) as real == 100.0 - p;
  }

  lemma QuotientTimes(a: real, t: real, q: real)
    requires t > 0.0 && a * 100.0 == q * t
    ensures a / t * 100.0 == q
  {
    assert a / t * 100.0 * t == a * 100.0;
    assert (a / t * 100.0 - q) * t == 0.0;
  }

  /** A host is down if its probe was refused, unanswered or of no use; without a state its alias says so. */
  lemma DownExactly(p: Probe)
    ensures p.state.Some? ==> (IsDown(p) <==> p.state.value in {AuthFailed, Degraded, Unreachable})
    ensures p.state.None? ==>
      (IsDown(p) <==> p.status in {Some(Token(AuthFailed)), Some(Token(Degraded)), Some(Token(Unreachable))})
    ensures IsStale(p) <==> p.state == Some(Stale) || (p.state.None? && p.status == Some(Token(Stale)))
  {
  }

  /** No host costs nothing; one alone 40 points if it is down, and 5 each for memory and disk above 80 per cent. */
  lemma OneHostCosts(p: Probe)
    ensures HostPenalty([]) == 0
    ensures HostPenalty([p])
         == (if IsDown(p) then 40 else 0) + (if p.ram > 80.0 then 5 else 0) + (if p.disk > 80.0 then 5 else 0)
  {
    assert [p][..0] == [];
    PercentDownCosts(if IsDown(p) then 1 else 0, 1, if IsDown(p) then 100 else 0);
  }

  /** Machines: nothing up to three in ten stopped, then a point for each, up to 10; templates do not count. */
  lemma StoppedCosts(vms: seq<Vm>, inUse: nat, stopped: nat)
    requires inUse == Number(vms, (v: Vm) => !v.template)
    requires stopped == Number(vms, (v: Vm) => !v.template && v.stopped)
    ensures VmPenalty(vms) == if 10 * stopped > 3 * inUse then (if stopped > 10 then 10 else stopped) else 0
  {
    SameNumber(vms, IsReal, (v: Vm) => !v.template);
    SameNumber(vms, IsStopped, (v: Vm) => !v.template && v.stopped);
    assert stopped as real > inUse as real * 0.3 <==> 10 * stopped > 3 * inUse;
    NoMoreThanAll(vms, IsStopped, IsReal);
  }

  lemma {:induction false} SameNumber<T(!new)>(s: seq<T>, f: T -> bool, g: T -> bool)
    requires forall x: T :: f(x) == g(x)
    ensures Number(s, f) == Number(s, g)
    decreases |s|
  {
    if s != [] {
      SameNumber(s[..|s| - 1], f, g);
    }
  }

  lemma {:induction false} NoMoreThanAll<T(!new)>(s: seq<T>, f: T -> bool, g: T -> bool)
    requires forall x: T :: f(x) ==> g(x)
    ensures Number(s, f) <= Number(s, g)
    decreases |s|
  {
    if s != [] {
      NoMoreThanAll(s[..|s| - 1], f, g);
    }
  }

  lemma GradesAre(score: int)
    ensures GradeOf(score) == A <==> score >= 90
    ensures GradeOf(score) == B <==> 75 <= score < 90
    ensures GradeOf(score) == C <==> 60 <= score < 75
    ensures GradeOf(score) == D <==> 40 <= score < 60
    ensures GradeOf(score) == F <==> score < 40
  {
  }
}
