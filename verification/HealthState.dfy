/**
 The six states of a probed host, the classification of failed probes, and the rollup of hosts into one fleet state.
 */
module HealthState {
  import opened Common
  import opened Lines

  datatype State = Live | Recovering | Stale | Degraded | Unreachable | AuthFailed

  /** How bad a state is. */
  function Rank(s: State): nat
  {
    match s
    case Live => 0
    case Recovering => 1
    case Stale => 2
    case Degraded => 3
    case Unreachable => 4
    case AuthFailed => 5
  }

  /** The alias for older consumers. */
  datatype Alias = Healthy | Token(state: State)

  function AliasOf(s: State): Alias
  {
    if s.Live? || s.Recovering? then Healthy else Token(s)
  }

  /** An entry as `entry_base` builds it and `mark_stale` keeps it; entries older than that have no state. */
  datatype Entry = Entry(host: string, state: Maybe<State>, status: Maybe<Alias>, reason: string)

  function EntryBase(host: string, s: State, reason: string): Entry
  {
    Entry(host, Some(s), Some(AliasOf(s)), reason)
  }

  function MarkStale(e: Entry, reason: string): Entry
  {
    e.(state := Some(Stale), status := Some(AliasOf(Stale)), reason := reason)
  }

  function StateOf(e: Entry): State
  {
    if e.state.Some? then e.state.value else if e.status == Some(Healthy) then Live else Unreachable
  }

  // ---------- the rollup ----------

  const PRIORITY: seq<State> := [AuthFailed, Unreachable, Degraded, Stale, Recovering, Live]

  function Count(es: seq<Entry>, s: State): nat
  {
    if es == [] then 0 else Count(es[..|es| - 1], s) + if StateOf(es[|es| - 1]) == s then 1 else 0
  }

  function Worse(a: State, b: State): State
  {
    if Rank(a) >= Rank(b) then a else b
  }

  /** The worst state of a fleet; an empty fleet counts as degraded. */
  function Worst(es: seq<Entry>): State
  {
    if es == [] then Degraded
    else if |es| == 1 then StateOf(es[0])
    else Worse(Worst(es[..|es| - 1]), StateOf(es[|es| - 1]))
  }

  /** What the aggregate says: the state, how many of how many hosts are in it, and the first of them. */
  datatype Rollup = NoHosts | AllLive(total: nat) | Bad(state: State, bad: nat, total: nat, first: nat)

  method CountStates(es: seq<Entry>) returns (counts: map<State, nat>)
    ensures forall s: State :: s in counts && counts[s] == Count(es, s)
  {
    counts := map[AuthFailed := 0, Unreachable := 0, Degraded := 0, Stale := 0, Recovering := 0, Live := 0];
    forall s: State
      ensures s in counts && counts[s] == 0
    {
      match s
      case Live =>
      case Recovering =>
      case Stale =>
      case Degraded =>
      case Unreachable =>
      case AuthFailed =>
    }
    var i := 0;
    while i < |es|
      invariant 0 <= i <= |es|
      invariant forall s: State :: s in counts && counts[s] == Count(es[..i], s)
    {
      CountOneMore(es, i);
      var s := StateOf(es[i]);
      counts := counts[s := counts[s] + 1];
      i := i + 1;
    }
    assert es[..i] == es;
  }

  /** The first host in a state that some host is in. */
  method FirstIn(es: seq<Entry>, s: State) returns (first: nat)
    requires exists k :: 0 <= k < |es| && StateOf(es[k]) == s
    ensures first < |es| && StateOf(es[first]) == s
    ensures forall i :: 0 <= i < first ==> StateOf(es[i]) != s
  {
    first := 0;
    while StateOf(es[first]) != s
      invariant 0 <= first < |es|
      invariant forall k :: 0 <= k < first ==> StateOf(es[k]) != s
      invariant exists k :: first <= k < |es| && StateOf(es[k]) == s
      decreases |es| - first
    {
      first := first + 1;
    }
  }

  method Aggregate(es: seq<Entry>) returns (top: State, report: Rollup)
    ensures top == Worst(es)
    ensures es == [] <==> report == NoHosts
    ensures es != [] && top == Live ==> report == AllLive(|es|)
    ensures es != [] && top != Live ==>
      && report.Bad? && report.state == top && report.bad == Count(es, top) && report.total == |es|
      && report.first < |es| && StateOf(es[report.first]) == top
      && forall i :: 0 <= i < report.first ==> StateOf(es[i]) != top
  {
    if es == [] {
      return Degraded, NoHosts;
    }
    var counts := CountStates(es);
    top := Live;
    var p := 0;
    while p < |PRIORITY|
      invariant 0 <= p <= |PRIORITY|
      invariant forall q :: 0 <= q < p ==> Count(es, PRIORITY[q]) == 0
      invariant top == Live
    {
      if counts[PRIORITY[p]] > 0 {
        top := PRIORITY[p];
        break;
      }
      p := p + 1;
    }
    TopIsWorst(es, p);
    if top == Live {
      return top, AllLive(|es|);
    }
    WorstOccurs(es);
    var first := FirstIn(es, top);
    return top, Bad(top, counts[top], |es|, first);
  }

  lemma CountOneMore(es: seq<Entry>, i: nat)
    requires i < |es|
    ensures forall s: State :: Count(es[..i + 1], s) == Count(es[..i], s) + if StateOf(es[i]) == s then 1 else 0
  {
    assert es[..i + 1][..i] == es[..i];
  }

  lemma {:induction false} CountPositive(es: seq<Entry>, s: State)
    ensures Count(es, s) > 0 <==> exists i :: 0 <= i < |es| && StateOf(es[i]) == s
    decreases |es|
  {
    if es != [] {
      CountPositive(es[..|es| - 1], s);
      if exists i :: 0 <= i < |es| - 1 && StateOf(es[i]) == s {
        var i :| 0 <= i < |es| - 1 && StateOf(es[i]) == s;
        assert StateOf(es[..|es| - 1][i]) == s;
      }
    }
  }

  /** The worst state is one that some host is in, and no host is in a worse one. */
  lemma {:induction false} WorstOccurs(es: seq<Entry>)
    requires es != []
    ensures exists i :: 0 <= i < |es| && StateOf(es[i]) == Worst(es)
    ensures forall i :: 0 <= i < |es| ==> Rank(StateOf(es[i])) <= Rank(Worst(es))
    decreases |es|
  {
    if |es| == 1 {
      assert StateOf(es[0]) == Worst(es);
    } else {
      var before := es[..|es| - 1];
      WorstOccurs(before);
      var i :| 0 <= i < |before| && StateOf(before[i]) == Worst(before);
      assert StateOf(es[i]) == Worst(before);
    }
  }

  lemma WorstIs(es: seq<Entry>, s: State, i: nat)
    requires i < |es| && StateOf(es[i]) == s
    requires forall k :: 0 <= k < |es| ==> Rank(StateOf(es[k])) <= Rank(s)
    ensures Worst(es) == s
  {
    WorstOccurs(es);
  }

  lemma TopIsWorst(es: seq<Entry>, p: nat)
    requires es != [] && p <= |PRIORITY|
    requires forall q :: 0 <= q < p ==> Count(es, PRIORITY[q]) == 0
    requires p < |PRIORITY| ==> Count(es, PRIORITY[p]) > 0
    ensures Worst(es) == if p < |PRIORITY| then PRIORITY[p] else Live
  {
    WorstOccurs(es);
    CountPositive(es, Worst(es));
    var w := 5 - Rank(Worst(es));
    assert PRIORITY[w] == Worst(es);
    if p < |PRIORITY| {
      CountPositive(es, PRIORITY[p]);
      assert Rank(PRIORITY[p]) == 5 - p;
    }
  }

  /** The order of the hosts does not matter. */
  lemma OrderDoesNotMatter(a: seq<Entry>, b: seq<Entry>)
    requires multiset(a) == multiset(b)
    ensures Worst(a) == Worst(b)
  {
    if a == [] {
      assert |multiset(b)| == 0;
    } else {
      assert a[0] in multiset(b);
      WorstOccurs(a);
      var i :| 0 <= i < |a| && StateOf(a[i]) == Worst(a);
      assert a[i] in multiset(b);
      var j :| 0 <= j < |b| && b[j] == a[i];
      forall k | 0 <= k < |b|
        ensures Rank(StateOf(b[k])) <= Rank(Worst(a))
      {
        assert b[k] in multiset(a);
      }
      WorstIs(b, Worst(a), j);
    }
  }

  /** Joining two fleets that have hosts gives the worse of their states. */
  lemma {:induction false} WorstOfJoin(a: seq<Entry>, b: seq<Entry>)
    requires a != [] && b != []
    ensures Worst(a + b) == Worse(Worst(a), Worst(b))
  {
    WorstOccurs(a);
    WorstOccurs(b);
    var i :| 0 <= i < |a| && StateOf(a[i]) == Worst(a);
    var j :| 0 <= j < |b| && StateOf(b[j]) == Worst(b);
    assert (a + b)[i] == a[i] && (a + b)[|a| + j] == b[j];
    WorstIs(a + b, Worse(Worst(a), Worst(b)), if Rank(Worst(a)) >= Rank(Worst(b)) then i else |a| + j);
  }

  lemma LiveIffAllLive(es: seq<Entry>)
    requires es != []
    ensures Worst(es) == Live <==> forall i :: 0 <= i < |es| ==> StateOf(es[i]) == Live
  {
    WorstOccurs(es);
  }

  // ---------- failed probes ----------

  const AUTH_MARKERS: seq<string> := ["permission denied", "publickey", "no supported authentication methods",
                                      "too many authentication failures"]

  const REACH_MARKERS: seq<string> := ["connection refused", "no route to host", "network is unreachable",
                                       "host is down",
                                       "connection timed out", "connection closed", "connection reset",
                                       "name or service not known", "could not resolve hostname", "banner exchange"]

  predicate HasAny(text: string, words: seq<string>)
  {
    exists i :: 0 <= i < |words| && Contains(text, words[i])
  }

  /** The state of a host whose probe failed; without a known marker something answered, so the host is degraded. */
  function Classify(returncode: int, stderr: string): State
  {
    var err := Lower(Strip(stderr));
    if returncode == 124 || Contains(err, "timed out after") then Unreachable
    else if HasAny(err, AUTH_MARKERS) then AuthFailed
    else if HasAny(err, REACH_MARKERS) then Unreachable
    else Degraded
  }

  lemma FailureIsBad(returncode: int, stderr: string)
    ensures Rank(Classify(returncode, stderr)) >= Rank(Degraded)
  {
  }

  /**
   A failed probe shows: whatever it printed, its host has no healthy alias, and a fleet with it is at best degraded.
   */
  lemma FailureShows(es: seq<Entry>, i: nat, host: string, returncode: int, stderr: string, reason: string)
    requires i < |es| && es[i] == EntryBase(host, Classify(returncode, stderr), reason)
    ensures es[i].status == Some(Token(StateOf(es[i])))
    ensures Rank(Worst(es)) >= Rank(Degraded)
  {
    FailureIsBad(returncode, stderr);
    WorstOccurs(es);
  }

  /** An entry reused from the cache no longer counts as live, and its alias says so. */
  lemma StaleShows(es: seq<Entry>, i: nat, e: Entry, reason: string)
    requires i < |es| && es[i] == MarkStale(e, reason)
    ensures es[i].status == Some(Token(Stale)) && es[i].host == e.host
    ensures Rank(Worst(es)) >= Rank(Stale)
  {
    WorstOccurs(es);
  }

  // ---------- the order of the states, and what a failure is called ----------

  predicate SomeIn(es: seq<Entry>, s: State)
  {
    exists i :: 0 <= i < |es| && StateOf(es[i]) == s
  }

  /** A refused login is worse than silence, silence than bad answers, and those than stale ones. */
  lemma WorstIsFirstOf(es: seq<Entry>)
    requires es != []
    ensures Worst(es) ==
      if SomeIn(es, AuthFailed) then AuthFailed
      else if SomeIn(es, Unreachable) then Unreachable
      else if SomeIn(es, Degraded) then Degraded
      else if SomeIn(es, Stale) then Stale
      else if SomeIn(es, Recovering) then Recovering
      else Live
  {
    WorstOccurs(es);
    var i :| 0 <= i < |es| && StateOf(es[i]) == Worst(es);
    assert SomeIn(es, StateOf(es[i]));
  }

  lemma NoHostsIsDegraded()
    ensures Worst([]) == Degraded
  {
  }

  /** An entry has the healthy alias exactly if it is live or recovering; otherwise its alias is its state. */
  lemma AliasTells(host: string, s: State, reason: string)
    ensures var e := EntryBase(host, s, reason);
      && StateOf(e) == s && e.host == host && e.reason == reason
      && e.status == if s in {Live, Recovering} then Some(Healthy) else Some(Token(s))
  {
  }

  /** An entry without a state is taken by its alias. */
  lemma OldEntryTells(e: Entry)
    requires e.state.None?
    ensures StateOf(e) == if e.status == Some(Healthy) then Live else Unreachable
  {
  }

  /** What the probe printed tells that the login was refused. */
  predicate SaysRefused(err: string)
  {
    || Contains(err, "permission denied") || Contains(err, "publickey")
    || Contains(err, "no supported authentication methods") || Contains(err, "too many authentication failures")
  }

  /** Or that nobody answered. */
  predicate SaysSilent(err: string)
  {
    || Contains(err, "connection refused") || Contains(err, "no route to host")
    || Contains(err, "network is unreachable") || Contains(err, "host is down")
    || Contains(err, "connection timed out") || Contains(err, "connection closed")
    || Contains(err, "connection reset") || Contains(err, "name or service not known")
    || Contains(err, "could not resolve hostname") || Contains(err, "banner exchange")
  }

  lemma AuthMarkersSayRefused(err: string)
    ensures HasAny(err, AUTH_MARKERS) <==> SaysRefused(err)
  {
    if SaysRefused(err) {
      assert Contains(err, AUTH_MARKERS[0]) || Contains(err, AUTH_MARKERS[1]) || Contains(err, AUTH_MARKERS[2])
             || Contains(err, AUTH_MARKERS[3]);
    }
  }

  lemma ReachMarkersSaySilent(err: string)
    ensures HasAny(err, REACH_MARKERS) <==> SaysSilent(err)
  {
    if SaysSilent(err) {
      assert Contains(err, REACH_MARKERS[0]) || Contains(err, REACH_MARKERS[1]) || Contains(err, REACH_MARKERS[2])
             || Contains(err, REACH_MARKERS[3]) || Contains(err, REACH_MARKERS[4]) || Contains(err, REACH_MARKERS[5])
             || Contains(err, REACH_MARKERS[6]) || Contains(err, REACH_MARKERS[7]) || Contains(err, REACH_MARKERS[8])
             || Contains(err, REACH_MARKERS[9]);
    }
  }

  /**
   A probe that timed out counts as unreachable whatever it printed; otherwise a refused login comes before an
   unanswered connection, and anything else is a host that works badly.
   */
  lemma ClassifiedExactly(returncode: int, stderr: string)
    ensures var err, state := Lower(Strip(stderr)), Classify(returncode, stderr);
      var timedOut := returncode == 124 || Contains(err, "timed out after");
      && (state == AuthFailed <==> !timedOut && SaysRefused(err))
      && (state == Unreachable <==> timedOut || (!SaysRefused(err) && SaysSilent(err)))
      && (state == Degraded <==> !timedOut && !SaysRefused(err) && !SaysSilent(err))
  {
    AuthMarkersSayRefused(Lower(Strip(stderr)));
    ReachMarkersSaySilent(Lower(Strip(stderr)));
  }
}
