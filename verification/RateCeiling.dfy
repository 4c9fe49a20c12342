/**
 Many login handlers at once. A handler checks the limiter, then verifies the password, then records the outcome; the
 check and the record are atomic, what lies between them is not. Each check prunes and answers as the limiter does, from
 what it remembers; the limiter's ceilings on the complete history hold up to the number of handlers in between.
 */
module RateCeiling {
  import opened Common
  import opened RateLimit

  /** `inFlight` are the logins that have passed the check and not yet recorded their outcome. */
  datatype State = State(history: seq<Item>, inFlight: seq<Login>, clock: real)

  /** A check reads the clock before it takes the lock, so its time may lag behind. */
  datatype Label =
    | Check(login: Login, sampled: real)
    | Record(handler: nat, success: bool)
    | GiveUp(handler: nat)
    | Wait(until: real)

  function Without(s: seq<Login>, i: nat): seq<Login>
    requires i < |s|
  {
    s[..i] + s[i + 1..]
  }

  ghost predicate Init(s: State)
  {
    s.history == [] && s.inFlight == []
  }

  ghost predicate Next(s: State, l: Label, s': State)
  {
    match l
    case Check(login, sampled) =>
      var (history, ok) := CheckStep(s.history, login, sampled);
      && sampled <= s.clock
      && s' == s.(history := history, inFlight := if ok then s.inFlight + [login] else s.inFlight)
    case Record(h, success) =>
      && h < |s.inFlight|
      && s' == s.(history := s.history + [Recorded(Event(s.inFlight[h], success, s.clock, s.clock))],
                  inFlight := Without(s.inFlight, h))
    case GiveUp(h) =>
      h < |s.inFlight| && s' == s.(inFlight := Without(s.inFlight, h))
    case Wait(until) =>
      s.clock <= until && s' == s.(clock := until)
  }

  ghost predicate IsRun(run: seq<State>, labels: seq<Label>)
  {
    && |run| == |labels| + 1
    && Init(run[0])
    && forall i :: 0 <= i < |labels| ==> Next(run[i], labels[i], run[i + 1])
  }

  /** How many handlers in flight concern `key`. */
  function Pending(inFlight: seq<Login>, key: Key): nat
  {
    if inFlight == [] then 0
    else Pending(inFlight[..|inFlight| - 1], key) + if Concerns(inFlight[|inFlight| - 1], key) then 1 else 0
  }

  lemma PendingSnoc(inFlight: seq<Login>, login: Login, key: Key)
    ensures Pending(inFlight + [login], key) == Pending(inFlight, key) + if Concerns(login, key) then 1 else 0
  {
    SnocParts(inFlight, login);
  }

  lemma {:induction false} PendingWithout(inFlight: seq<Login>, i: nat, key: Key)
    requires i < |inFlight|
    ensures Pending(Without(inFlight, i), key) + (if Concerns(inFlight[i], key) then 1 else 0) == Pending(inFlight, key)
    decreases |inFlight|
  {
    var n := |inFlight| - 1;
    if i == n {
      assert Without(inFlight, i) == inFlight[..n];
    } else {
      assert Without(inFlight, i) == Without(inFlight[..n], i) + [inFlight[n]];
      PendingWithout(inFlight[..n], i, key);
      PendingSnoc(Without(inFlight[..n], i), inFlight[n], key);
    }
  }

  /** Failures only leave the window as time passes. */
  lemma {:induction false} FailuresFade(log: seq<Event>, key: Key, now: real, later: real)
    requires now <= later
    ensures Failures(log, key, later) <= Failures(log, key, now)
  {
    if log != [] {
      FailuresFade(log[..|log| - 1], key, now, later);
    }
  }

  /** The failures that count against `key` now, over the complete history. */
  function Counted(s: State, key: Key): nat
  {
    Failures(LogOf(s.history), key, s.clock)
  }

  /** The failures that count now, together with those that may still be recorded. */
  ghost predicate WithinCeiling(s: State, key: Key, k: nat)
  {
    PrunedBy(s.history, s.clock) && Counted(s, key) + Pending(s.inFlight, key) <= Ceiling(key) - 1 + k
  }

  /** At a time that lags behind, at least those failures are remembered that still count now. */
  lemma {:induction false} LaggingCheckRemembers(h: seq<Item>, key: Key, sampled: real, clock: real, cut: Maybe<real>)
    requires PrunedBy(h, clock) && sampled <= clock && (cut.Some? ==> cut.value <= clock)
    ensures Failures(LogOf(h), key, clock) <= Remembered(h, key, sampled, cut)
    decreases |h|
  {
    if h != [] {
      var before, last := h[..|h| - 1], h[|h| - 1];
      match last
      case Pruned(k, at) =>
        LaggingCheckRemembers(before, key, sampled, clock, if k == key then Later(cut, at) else cut);
        assert LogOf(before) + [] == LogOf(before);
      case Recorded(e) =>
        LaggingCheckRemembers(before, key, sampled, clock, cut);
        FailuresSnoc(LogOf(before), e, key, clock);
    }
  }

  lemma CheckKeepsPruned(h: seq<Item>, login: Login, sampled: real, clock: real)
    requires PrunedBy(h, clock) && sampled <= clock
    ensures PrunedBy(CheckStep(h, login, sampled).0, clock)
  {
  }

  lemma CheckKeepsCeiling(s: State, login: Login, sampled: real, s': State, key: Key, k: nat)
    requires Next(s, Check(login, sampled), s') && Tracked(key) && WithinCeiling(s, key, k)
    requires Pending(s'.inFlight, key) <= k
    ensures WithinCeiling(s', key, k)
  {
    LaggingCheckRemembers(s.history, key, sampled, s.clock, None);
    CheckKeepsPruned(s.history, login, sampled, s.clock);
    CheckKeepsLog(s.history, login, sampled);
    PendingSnoc(s.inFlight, login, key);
  }

  lemma RecordKeepsCeiling(s: State, h: nat, success: bool, s': State, key: Key, k: nat)
    requires Next(s, Record(h, success), s') && WithinCeiling(s, key, k)
    ensures WithinCeiling(s', key, k)
  {
    var e := Event(s.inFlight[h], success, s.clock, s.clock);
    PendingWithout(s.inFlight, h, key);
    LogOfRecorded(s.history, e);
    FailuresSnoc(LogOf(s.history), e, key, s.clock);
  }

  lemma NextKeepsCeiling(s: State, l: Label, s': State, key: Key, k: nat)
    requires Next(s, l, s') && Tracked(key) && WithinCeiling(s, key, k)
    requires Pending(s'.inFlight, key) <= k
    ensures WithinCeiling(s', key, k)
  {
    match l
    case Check(login, sampled) => CheckKeepsCeiling(s, login, sampled, s', key, k);
    case Record(h, success) => RecordKeepsCeiling(s, h, success, s', key, k);
    case GiveUp(h) => PendingWithout(s.inFlight, h, key);
    case Wait(until) => FailuresFade(LogOf(s.history), key, s.clock, until);
  }

  /**
   If no more than `k` handlers for one address or user name are ever between check and record, then the failures
   counted against it never exceed 9 + k (for an address) or 4 + k (for a user name, since its last success).
   */
  lemma {:induction false} RateCeilingHolds(run: seq<State>, labels: seq<Label>, key: Key, k: nat, n: nat)
    requires IsRun(run, labels) && Tracked(key) && n < |run|
    requires forall i :: 0 <= i < |run| ==> Pending(run[i].inFlight, key) <= k
    ensures WithinCeiling(run[n], key, k)
    ensures Counted(run[n], key) <= (if key.Ip? then 9 else 4) + k
  {
    if n > 0 {
      RateCeilingHolds(run, labels, key, k, n - 1);
      NextKeepsCeiling(run[n - 1], labels[n - 1], run[n], key, k);
    }
  }

  // ---------- the ceiling is reached ----------

  /** Different attackers on one key: from one address against many names, or from many addresses against one name. */
  function Attacker(key: Key, i: nat): Login
  {
    var name := seq(i + 1, _ => 'x');
    match key
    case Ip(ip) => Login(ip, name)
    case User(user) => Login(name, user)
  }

  function Failed(key: Key, n: nat): seq<Event>
  {
    seq(n, i requires 0 <= i < n => Event(Attacker(key, i), false, 0.0, 0.0))
  }

  /** `n` failures have been recorded; the next `waiting` attackers have passed the check. */
  ghost predicate Attacked(s: State, key: Key, n: nat, waiting: nat)
  {
    && LogOf(s.history) == Failed(key, n) && PrunedBy(s.history, 0.0) && s.clock == 0.0
    && s.inFlight == Waiting(key, n, waiting)
  }

  function Waiting(key: Key, n: nat, waiting: nat): seq<Login>
  {
    seq(waiting, i requires 0 <= i < waiting => Attacker(key, n + i))
  }

  lemma FailedSnoc(key: Key, n: nat)
    ensures Failed(key, n + 1) == Failed(key, n) + [Event(Attacker(key, n), false, 0.0, 0.0)]
  {
  }

  /** The attacked key has every failure counted; the other key of a new attacker has none. */
  lemma {:induction false} AttackCounts(key: Key, n: nat, next: nat)
    requires n <= next
    ensures Failures(Failed(key, n), key, 0.0) == n
    ensures var other := if key.Ip? then User(Attacker(key, next).user) else Ip(Attacker(key, next).ip);
      Failures(Failed(key, n), other, 0.0) == 0
  {
    if n > 0 {
      AttackCounts(key, n - 1, next);
      FailedSnoc(key, n - 1);
      SnocParts(Failed(key, n - 1), Event(Attacker(key, n - 1), false, 0.0, 0.0));
      assert |seq(next + 1, _ => 'x')| == next + 1 && |seq(n, _ => 'x')| == n;
    }
  }

  lemma {:induction false} AttackPending(key: Key, n: nat, waiting: nat)
    ensures Pending(Waiting(key, n, waiting), key) == waiting
  {
    if waiting > 0 {
      AttackPending(key, n, waiting - 1);
      assert Waiting(key, n, waiting) == Waiting(key, n, waiting - 1) + [Attacker(key, n + waiting - 1)];
      PendingSnoc(Waiting(key, n, waiting - 1), Attacker(key, n + waiting - 1), key);
    }
  }

  /** A run on which no more than `k` handlers for `key` are in flight and that ends in `s`. */
  ghost predicate RunTo(run: seq<State>, labels: seq<Label>, key: Key, k: nat, s: State)
  {
    && IsRun(run, labels)
    && (forall i :: 0 <= i < |run| ==> Pending(run[i].inFlight, key) <= k)
    && run[|labels|] == s
  }

  ghost predicate Reaches(key: Key, k: nat, s: State)
  {
    exists run, labels :: RunTo(run, labels, key, k, s)
  }

  ghost predicate ReachesAttacked(key: Key, k: nat, n: nat, waiting: nat)
  {
    exists s :: Reaches(key, k, s) && Attacked(s, key, n, waiting)
  }

  lemma ReachesNext(key: Key, k: nat, s: State, l: Label, s': State)
    requires Reaches(key, k, s) && Next(s, l, s') && Pending(s'.inFlight, key) <= k
    ensures Reaches(key, k, s')
  {
    var run, labels :| RunTo(run, labels, key, k, s);
    assert RunTo(run + [s'], labels + [l], key, k, s');
  }

  lemma AttackerIsAllowed(key: Key, n: nat, waiting: nat)
    requires Tracked(key) && n < Ceiling(key)
    ensures Allowed(Failed(key, n), Attacker(key, n + waiting), 0.0)
  {
    AttackCounts(key, n, n + waiting);
  }

  /** An attacker that passes the check joins those who wait. */
  lemma CheckPasses(s: State, key: Key, n: nat, waiting: nat) returns (s': State)
    requires Tracked(key) && n < Ceiling(key) && Attacked(s, key, n, waiting)
    ensures Next(s, Check(Attacker(key, n + waiting), 0.0), s') && Attacked(s', key, n, waiting + 1)
  {
    var login := Attacker(key, n + waiting);
    AttackerIsAllowed(key, n, waiting);
    CheckIsExact(s.history, login, 0.0);
    s' := State(CheckStep(s.history, login, 0.0).0, s.inFlight + [login], 0.0);
    assert s'.inFlight == Waiting(key, n, waiting + 1);
  }

  /** One more attacker passes the check while the key has not reached its ceiling. */
  lemma OneMoreCheck(key: Key, k: nat, n: nat, waiting: nat)
    requires Tracked(key) && n < Ceiling(key) && waiting < k && ReachesAttacked(key, k, n, waiting)
    ensures ReachesAttacked(key, k, n, waiting + 1)
  {
    var s :| Reaches(key, k, s) && Attacked(s, key, n, waiting);
    var s' := CheckPasses(s, key, n, waiting);
    AttackPending(key, n, waiting + 1);
    ReachesNext(key, k, s, Check(Attacker(key, n + waiting), 0.0), s');
  }

  lemma WaitingWithoutFirst(key: Key, n: nat, waiting: nat)
    requires waiting >= 1
    ensures Waiting(key, n, waiting)[0] == Attacker(key, n)
    ensures Without(Waiting(key, n, waiting), 0) == Waiting(key, n + 1, waiting - 1)
  {
  }

  /** The first of those who wait fails. */
  lemma FirstFails(s: State, key: Key, n: nat, waiting: nat) returns (s': State)
    requires waiting >= 1 && Attacked(s, key, n, waiting)
    ensures Next(s, Record(0, false), s') && Attacked(s', key, n + 1, waiting - 1)
  {
    var e := Event(Attacker(key, n), false, 0.0, 0.0);
    WaitingWithoutFirst(key, n, waiting);
    FailedSnoc(key, n);
    LogOfRecorded(s.history, e);
    s' := State(s.history + [Recorded(e)], Without(s.inFlight, 0), 0.0);
  }

  lemma OneMoreFailure(key: Key, k: nat, n: nat, waiting: nat)
    requires 1 <= waiting <= k && ReachesAttacked(key, k, n, waiting)
    ensures ReachesAttacked(key, k, n + 1, waiting - 1)
  {
    var s :| Reaches(key, k, s) && Attacked(s, key, n, waiting);
    var s' := FirstFails(s, key, n, waiting);
    AttackPending(key, n + 1, waiting - 1);
    ReachesNext(key, k, s, Record(0, false), s');
  }

  lemma {:induction false} ReachAttacked(key: Key, k: nat, n: nat, waiting: nat)
    requires Tracked(key) && k >= 1 && waiting <= k && n + waiting <= Ceiling(key) - 1 + k
    requires n < Ceiling(key) || n + waiting == Ceiling(key) - 1 + k
    ensures ReachesAttacked(key, k, n, waiting)
    decreases n, waiting
  {
    if n == 0 && waiting == 0 {
      var run, labels: seq<Label> := [State([], [], 0.0)], [];
      assert RunTo(run, labels, key, k, run[0]);
      assert Failed(key, 0) == [] && Waiting(key, 0, 0) == [];
      assert Attacked(run[0], key, 0, 0);
    } else if waiting > 0 && n < Ceiling(key) {
      ReachAttacked(key, k, n, waiting - 1);
      OneMoreCheck(key, k, n, waiting - 1);
    } else {
      ReachAttacked(key, k, n - 1, waiting + 1);
      OneMoreFailure(key, k, n - 1, waiting + 1);
    }
  }

  /**
   The ceiling is exact: for every k there is a run that records 9 + k failures for an address, or 4 + k for a user
   name.
   */
  lemma CeilingIsReached(key: Key, k: nat)
    requires Tracked(key) && k >= 1
    ensures exists s :: Reaches(key, k, s) && Counted(s, key) == (if key.Ip? then 9 else 4) + k
  {
    var n := Ceiling(key) - 1 + k;
    ReachAttacked(key, k, n, 0);
    var s :| Reaches(key, k, s) && Attacked(s, key, n, 0);
    AttackCounts(key, n, n);
  }
}
