/**
 One lock and one time stamp keep SSH sessions to an iDRAC apart: a section waits until the gap since the last stamp
 is over, opens its session, and stamps the time when it is done. Reads use a gap of 2 s, terminal spawns one of 10 s.
 Time is the process's monotonic clock.
 */
module IdracSpacing {
  datatype Kind = Read | Spawn

  function Gap(kind: Kind): real
  {
    if kind.Read? then 2.0 else 10.0
  }

  /** A section that opened a session; `stamped` says whether it got as far as the stamp, made at `endedAt`. */
  datatype Section = Section(kind: Kind, openedAt: real, endedAt: real, stamped: bool)

  /** When a section that looks at the clock at `now` goes on, if its sleep is not late. */
  function NotBefore(last: real, now: real, kind: Kind): real
  {
    var since := now - last;
    if since < Gap(kind) then now + (Gap(kind) - since) else now
  }

  class Throttle {
    var lastSessionAt: real

    constructor ()
      ensures lastSessionAt == 0.0
    {
      lastSessionAt := 0.0;
    }

    /**
     A section, run while holding the lock: the clock shows `now` on entry, a sleep returns `late` after its time, the
     work takes `work` and either completes or raises.
     */
    method RunSection(kind: Kind, now: real, late: real, work: real, completes: bool) returns (s: Section)
      requires late >= 0.0 && work >= 0.0
      modifies this
      ensures s.kind == kind && s.stamped == completes && s.endedAt == s.openedAt + work
      ensures kind.Read? ==>
        s.openedAt == if now >= old(lastSessionAt) + 2.0 then now else old(lastSessionAt) + 2.0 + late
      ensures kind.Spawn? ==>
        s.openedAt == if now >= old(lastSessionAt) + 10.0 then now else old(lastSessionAt) + 10.0 + late
      ensures lastSessionAt == if completes then s.endedAt else old(lastSessionAt)
    {
      var clock := now;
      var since := clock - lastSessionAt;
      if since < Gap(kind) {
        clock := clock + (Gap(kind) - since) + late;
      }
      var openedAt := clock;
      clock := clock + work;
      if completes {
        lastSessionAt := clock;
      }
      return Section(kind, openedAt, clock, completes);
    }
  }

  // ---------- all interleavings ----------

  /** Where the holder of the lock is; threads that wait for the lock have no state of their own. */
  datatype Holder =
    | Free
    | Entered(kind: Kind)
    | Sleeping(kind: Kind, notBefore: real)
    | Working(kind: Kind, openedAt: real)

  datatype State = State(clock: real, last: real, holder: Holder, log: seq<Section>)

  datatype Label = Acquire(kind: Kind) | Sample | OpenSession | Stamp | Raise | Wait(until: real)

  ghost predicate Init(s: State)
  {
    s.last == 0.0 && s.clock >= 0.0 && s.holder == Free && s.log == []
  }

  ghost predicate Next(s: State, l: Label, s': State)
  {
    match l
    case Acquire(kind) =>
      s.holder.Free? && s' == s.(holder := Entered(kind))
    case Sample =>
      s.holder.Entered? && s' == s.(holder := Sleeping(s.holder.kind, NotBefore(s.last, s.clock, s.holder.kind)))
    case OpenSession =>
      && s.holder.Sleeping? && s.clock >= s.holder.notBefore
      && s' == s.(holder := Working(s.holder.kind, s.clock))
    case Stamp =>
      && s.holder.Working?
      && s' == State(s.clock, s.clock, Free, s.log + [Section(s.holder.kind, s.holder.openedAt, s.clock, true)])
    case Raise =>
      && s.holder.Working?
      && s' == s.(holder := Free, log := s.log + [Section(s.holder.kind, s.holder.openedAt, s.clock, false)])
    case Wait(until) =>
      s.clock <= until && s' == s.(clock := until)
  }

  /** Steps of the system one after the other, from any state. */
  ghost predicate IsPath(path: seq<State>, labels: seq<Label>)
  {
    |path| == |labels| + 1 && forall i :: 0 <= i < |labels| ==> Next(path[i], labels[i], path[i + 1])
  }

  ghost predicate IsRun(run: seq<State>, labels: seq<Label>)
  {
    IsPath(run, labels) && Init(run[0])
  }

  /** Sections follow one another, and each keeps its gap to every earlier section that was stamped. */
  ghost predicate Spaced(log: seq<Section>)
  {
    && (forall i :: 0 <= i < |log| ==> log[i].openedAt <= log[i].endedAt)
    && (forall i, j :: 0 <= i < j < |log| ==> log[i].endedAt <= log[j].openedAt)
    && (forall i, j :: 0 <= i < j < |log| && log[i].stamped ==> log[j].openedAt >= log[i].endedAt + Gap(log[j].kind))
  }

  ghost predicate Inv(s: State)
  {
    && Spaced(s.log)
    && s.last <= s.clock
    && (forall i :: 0 <= i < |s.log| ==> s.log[i].endedAt <= s.clock)
    && (forall i :: 0 <= i < |s.log| && s.log[i].stamped ==> s.log[i].endedAt <= s.last)
    && (s.holder.Sleeping? ==> s.holder.notBefore >= s.last + Gap(s.holder.kind))
    && (s.holder.Working? ==>
          && s.last + Gap(s.holder.kind) <= s.holder.openedAt <= s.clock
          && forall i :: 0 <= i < |s.log| ==> s.log[i].endedAt <= s.holder.openedAt)
  }

  lemma SpacedSnoc(log: seq<Section>, next: Section)
    requires Spaced(log) && next.openedAt <= next.endedAt
    requires forall i :: 0 <= i < |log| ==> log[i].endedAt <= next.openedAt
    requires forall i :: 0 <= i < |log| && log[i].stamped ==> next.openedAt >= log[i].endedAt + Gap(next.kind)
    ensures Spaced(log + [next])
  {
  }

  lemma NextKeepsInv(s: State, l: Label, s': State)
    requires Inv(s) && Next(s, l, s')
    ensures Inv(s')
  {
    if l.Stamp? || l.Raise? {
      SpacedSnoc(s.log, Section(s.holder.kind, s.holder.openedAt, s.clock, l.Stamp?));
    }
  }

  lemma {:induction false} RunKeepsInv(run: seq<State>, labels: seq<Label>, n: nat)
    requires IsRun(run, labels) && n < |run|
    ensures Inv(run[n])
  {
    if n > 0 {
      RunKeepsInv(run, labels, n - 1);
      NextKeepsInv(run[n - 1], labels[n - 1], run[n]);
    }
  }

  /**
   In every run no two sections overlap, and after every section that was stamped a read opens no earlier than 2 s and
   a terminal spawn no earlier than 10 s.
   */
  lemma RunIsSpaced(run: seq<State>, labels: seq<Label>, n: nat)
    requires IsRun(run, labels) && n < |run|
    ensures forall i, j :: 0 <= i < j < |run[n].log| ==>
      run[n].log[i].openedAt <= run[n].log[i].endedAt <= run[n].log[j].openedAt
    ensures forall i, j :: 0 <= i < j < |run[n].log| && run[n].log[i].stamped ==>
      && (run[n].log[j].kind.Read? ==> run[n].log[j].openedAt >= run[n].log[i].endedAt + 2.0)
      && (run[n].log[j].kind.Spawn? ==> run[n].log[j].openedAt >= run[n].log[i].endedAt + 10.0)
  {
    RunKeepsInv(run, labels, n);
  }

  // ---------- a gap after every section that was stamped, and only after those ----------

  /** Every section behind section `i` opens at least its own gap after that one ended. */
  ghost predicate KeepsGap(log: seq<Section>, i: nat)
    requires i < |log|
  {
    forall j :: i < j < |log| ==> log[j].openedAt >= log[i].endedAt + Gap(log[j].kind)
  }

  lemma {:induction false} PathKeepsInv(path: seq<State>, labels: seq<Label>, n: nat)
    requires IsPath(path, labels) && Inv(path[0]) && n < |path|
    ensures Inv(path[n]) && path[0].log <= path[n].log
  {
    if n > 0 {
      PathKeepsInv(path, labels, n - 1);
      NextKeepsInv(path[n - 1], labels[n - 1], path[n]);
    }
  }

  /** The lock is free and a section has just ended, with or without a stamp. */
  ghost predicate JustEnded(s: State)
  {
    && Inv(s) && s.holder.Free? && s.log != []
    && var last := s.log[|s.log| - 1];
       last.endedAt == s.clock && if last.stamped then s.last == s.clock else s.last < s.clock
  }

  /** Every section that ends in a run leaves such a state. */
  lemma EndedIsJustEnded(s: State, l: Label, s': State)
    requires Inv(s) && Next(s, l, s') && (l.Stamp? || l.Raise?)
    ensures JustEnded(s') && s'.log == s.log + [s'.log[|s.log|]] && s'.log[|s.log|].stamped == l.Stamp?
  {
    NextKeepsInv(s, l, s');
  }

  /** When the next section can open if it comes at once. */
  function Earliest(s: State, kind: Kind): real
  {
    if s.clock >= s.last + Gap(kind) then s.clock else s.last + Gap(kind)
  }

  /** The next section comes at once, sleeps no longer than it must, opens, and is stamped. */
  lemma NextAtOnce(s: State, kind: Kind) returns (path: seq<State>, labels: seq<Label>)
    requires JustEnded(s)
    ensures IsPath(path, labels) && path[0] == s
    ensures path[|labels|].log == s.log + [Section(kind, Earliest(s, kind), Earliest(s, kind), true)]
  {
    var at := Earliest(s, kind);
    var entered := s.(holder := Entered(kind));
    var sleeping := s.(holder := Sleeping(kind, at));
    var awake := sleeping.(clock := at);
    var working := awake.(holder := Working(kind, at));
    var left := State(at, at, Free, s.log + [Section(kind, at, at, true)]);
    path := [s, entered, sleeping, awake, working, left];
    labels := [Acquire(kind), Sample, Wait(at), OpenSession, Stamp];
    assert NotBefore(s.last, s.clock, kind) == at;
  }

  ghost predicate LeadsTo(s: State, log: seq<Section>)
  {
    exists path: seq<State>, labels :: IsPath(path, labels) && path[0] == s && path[|labels|].log == log
  }

  /**
   After a section that raised, the next section of either kind may open at once, or as soon as its gap to the last
   stamp is over: in any case before its gap to the section that raised is.
   */
  lemma NoGapAfterRaise(s: State, kind: Kind)
    requires JustEnded(s) && !s.log[|s.log| - 1].stamped
    ensures Earliest(s, kind) < s.clock + Gap(kind)
    ensures LeadsTo(s, s.log + [Section(kind, Earliest(s, kind), Earliest(s, kind), true)])
  {
    var path, labels := NextAtOnce(s, kind);
  }

  /** Whatever comes next keeps its gap to the section that has just ended exactly if that section was stamped. */
  lemma GapExactlyIfStamped(s: State)
    requires JustEnded(s)
    ensures (forall log :: LeadsTo(s, log) ==> |log| >= |s.log| && KeepsGap(log, |s.log| - 1))
      <==> s.log[|s.log| - 1].stamped
  {
    var i := |s.log| - 1;
    if s.log[i].stamped {
      forall log | LeadsTo(s, log)
        ensures |log| >= |s.log| && KeepsGap(log, i)
      {
        var path: seq<State>, labels :| IsPath(path, labels) && path[0] == s && path[|labels|].log == log;
        PathKeepsInv(path, labels, |labels|);
      }
    } else {
      NoGapAfterRaise(s, Read);
      var more := s.log + [Section(Read, Earliest(s, Read), Earliest(s, Read), true)];
      assert more[i] == s.log[i] && more[i + 1].openedAt < more[i].endedAt + Gap(Read);
    }
  }

  /** The atomic section of the class is one pass of the lock through its phases. */
  lemma SectionIsARun(s: State, kind: Kind, late: real, work: real, completes: bool, made: Section)
    requires s.holder.Free? && late >= 0.0 && work >= 0.0
    requires s.last <= s.clock
    requires made.kind == kind && made.stamped == completes && made.endedAt == made.openedAt + work
    requires made.openedAt == (if s.clock >= s.last + Gap(kind) then s.clock else s.last + Gap(kind) + late)
    ensures var entered := s.(holder := Entered(kind));
      var sleeping := s.(holder := Sleeping(kind, NotBefore(s.last, s.clock, kind)));
      var awake := sleeping.(clock := made.openedAt);
      var working := awake.(holder := Working(kind, made.openedAt));
      var worked := working.(clock := made.endedAt);
      var left := State(made.endedAt, if completes then made.endedAt else s.last, Free, s.log + [made]);
      && Next(s, Acquire(kind), entered)
      && Next(entered, Sample, sleeping)
      && Next(sleeping, Wait(made.openedAt), awake)
      && Next(awake, OpenSession, working)
      && Next(working, Wait(made.endedAt), worked)
      && Next(worked, if completes then Stamp else Raise, left)
  {
  }
}
