/**
 The login rate limiter: one bucket of recent attempts for each client address and one for each user name, both pruned
 as they are read. The specification is a count over the complete history, which the limiter does not keep. The two
 agree as long as the clock does not run backwards; how they part when it does is worked out as well.
 */
module RateLimit {
  import opened Common

  const WINDOW: real := 300.0
  const MAX_FAILURES_IP: nat := 10
  const MAX_FAILURES_USER: nat := 5

  datatype Attempt = Attempt(time: real, success: bool)

  /** Whose failures are counted. The empty user name has no bucket. */
  datatype Key = Ip(ip: string) | User(name: string)

  predicate Tracked(key: Key)
  {
    key.User? ==> key.name != ""
  }

  function Ceiling(key: Key): nat
  {
    if key.Ip? then MAX_FAILURES_IP else MAX_FAILURES_USER
  }

  datatype Login = Login(ip: string, user: string)

  predicate Concerns(login: Login, key: Key)
  {
    match key
    case Ip(ip) => login.ip == ip
    case User(name) => login.user == name
  }

  // ---------- the specification: counting over everything that ever happened ----------

  /** A recorded login. The two buckets read the clock one after the other. */
  datatype Event = Event(login: Login, success: bool, ipTime: real, userTime: real)

  function TimeFor(e: Event, key: Key): real
  {
    if key.Ip? then e.ipTime else e.userTime
  }

  /** Failures inside the window; for a user name, only those since its last success. */
  function Failures(log: seq<Event>, key: Key, now: real): nat
  {
    if log == [] then 0
    else
      var e, before := log[|log| - 1], log[..|log| - 1];
      if !Concerns(e.login, key) then Failures(before, key, now)
      else if e.success then (if key.User? then 0 else Failures(before, key, now))
      else Failures(before, key, now) + if now - TimeFor(e, key) < WINDOW then 1 else 0
  }

  predicate Allowed(log: seq<Event>, login: Login, now: real)
  {
    && Failures(log, Ip(login.ip), now) < MAX_FAILURES_IP
    && (login.user != "" ==> Failures(log, User(login.user), now) < MAX_FAILURES_USER)
  }

  // ---------- what the limiter can still know ----------

  /** Everything that has happened to the limiter: recorded logins, and prunings of the bucket of some key. */
  datatype Item = Recorded(event: Event) | Pruned(key: Key, at: real)

  function LogOf(h: seq<Item>): seq<Event>
  {
    if h == [] then []
    else
      var last := h[|h| - 1];
      LogOf(h[..|h| - 1]) + if last.Recorded? then [last.event] else []
  }

  /** The later of two prunings, of which the first need not have happened. */
  function Later(cut: Maybe<real>, at: real): Maybe<real>
  {
    if cut.Some? && cut.value > at then cut else Some(at)
  }

  /** A pruning drops what was made at `time`. */
  predicate Drops(cut: Maybe<real>, time: real)
  {
    cut.Some? && cut.value - time >= WINDOW
  }

  /**
   The failures that count as in `Failures`, but without those dropped by a pruning that came after them, or by `cut`.
   */
  function Remembered(h: seq<Item>, key: Key, now: real, cut: Maybe<real>): nat
  {
    if h == [] then 0
    else
      var before := h[..|h| - 1];
      match h[|h| - 1]
      case Pruned(k, at) => Remembered(before, key, now, if k == key then Later(cut, at) else cut)
      case Recorded(e) =>
        if !Concerns(e.login, key) then Remembered(before, key, now, cut)
        else if e.success then (if key.User? then 0 else Remembered(before, key, now, cut))
        else
          var t := TimeFor(e, key);
          Remembered(before, key, now, cut) + if now - t < WINDOW && !Drops(cut, t) then 1 else 0
  }

  /** Those that were dropped. */
  function Forgotten(h: seq<Item>, key: Key, now: real, cut: Maybe<real>): nat
  {
    if h == [] then 0
    else
      var before := h[..|h| - 1];
      match h[|h| - 1]
      case Pruned(k, at) => Forgotten(before, key, now, if k == key then Later(cut, at) else cut)
      case Recorded(e) =>
        if !Concerns(e.login, key) then Forgotten(before, key, now, cut)
        else if e.success then (if key.User? then 0 else Forgotten(before, key, now, cut))
        else
          var t := TimeFor(e, key);
          Forgotten(before, key, now, cut) + if now - t < WINDOW && Drops(cut, t) then 1 else 0
  }

  /** What a check does to the history, and its answer; the user's bucket is looked at only if the address passes. */
  function CheckStep(h: seq<Item>, login: Login, now: real): (seq<Item>, bool)
  {
    var ip, user := Ip(login.ip), User(login.user);
    if Remembered(h, ip, now, None) >= MAX_FAILURES_IP then (h + [Pruned(ip, now)], false)
    else if login.user == "" then (h + [Pruned(ip, now)], true)
    else (h + [Pruned(ip, now)] + [Pruned(user, now)], Remembered(h, user, now, None) < MAX_FAILURES_USER)
  }

  // ---------- the limiter ----------

  /** The attempts still inside the window. */
  function Live(attempts: seq<Attempt>, now: real): seq<Attempt>
  {
    if attempts == [] then []
    else
      var last := attempts[|attempts| - 1];
      Live(attempts[..|attempts| - 1], now) + if now - last.time < WINDOW then [last] else []
  }

  function Successes(attempts: seq<Attempt>): seq<Attempt>
  {
    if attempts == [] then []
    else
      var last := attempts[|attempts| - 1];
      Successes(attempts[..|attempts| - 1]) + if last.success then [last] else []
  }

  function FailureCount(attempts: seq<Attempt>): nat
  {
    if attempts == [] then 0
    else FailureCount(attempts[..|attempts| - 1]) + if attempts[|attempts| - 1].success then 0 else 1
  }

  function Bucket(buckets: map<string, seq<Attempt>>, key: string): seq<Attempt>
  {
    if key in buckets then buckets[key] else []
  }

  /** How many failures a bucket would show at time `now`, had it been pruned at `cut`. */
  function Shown(attempts: seq<Attempt>, now: real, cut: Maybe<real>): nat
  {
    if attempts == [] then 0
    else
      var last := attempts[|attempts| - 1];
      Shown(attempts[..|attempts| - 1], now, cut)
      + if !last.success && now - last.time < WINDOW && !Drops(cut, last.time) then 1 else 0
  }

  lemma SnocParts<T>(s: seq<T>, x: T)
    ensures (s + [x])[..|s|] == s && (s + [x])[|s|] == x
  {
  }

  lemma ShownSnoc(attempts: seq<Attempt>, a: Attempt, now: real, cut: Maybe<real>)
    ensures Shown(attempts + [a], now, cut)
         == Shown(attempts, now, cut) + if !a.success && now - a.time < WINDOW && !Drops(cut, a.time) then 1 else 0
  {
    SnocParts(attempts, a);
  }

  /** Counting after a pruning is counting with that pruning as one more cut. */
  lemma {:induction false} PruningIsCut(attempts: seq<Attempt>, at: real, now: real, cut: Maybe<real>)
    ensures Shown(Live(attempts, at), now, cut) == Shown(attempts, now, Later(cut, at))
  {
    if attempts != [] {
      var before, last := attempts[..|attempts| - 1], attempts[|attempts| - 1];
      PruningIsCut(before, at, now, cut);
      if at - last.time < WINDOW {
        ShownSnoc(Live(before, at), last, now, cut);
      } else {
        assert Live(before, at) + [] == Live(before, at);
      }
    }
  }

  /** Failures inside the window at `other` that a pruning at `now` drops. */
  predicate LosesAny(attempts: seq<Attempt>, now: real, other: real)
  {
    exists i :: 0 <= i < |attempts| && Loses(attempts[i], now, other)
  }

  predicate Loses(a: Attempt, now: real, other: real)
  {
    !a.success && now - a.time >= WINDOW && other - a.time < WINDOW
  }

  /**
   Pruning at `now` changes what is seen at another time exactly if it drops a failure that is inside the window then.
   */
  lemma {:induction false} PruningForgetsExactly(attempts: seq<Attempt>, now: real, other: real)
    ensures Shown(Live(attempts, now), other, None) <= Shown(attempts, other, None)
    ensures Shown(Live(attempts, now), other, None) == Shown(attempts, other, None) <==> !LosesAny(attempts, now, other)
  {
    PruningIsCut(attempts, now, other, None);
    if attempts != [] {
      var before, last := attempts[..|attempts| - 1], attempts[|attempts| - 1];
      PruningForgetsExactly(before, now, other);
      PruningIsCut(before, now, other, None);
      LosesAnySnoc(before, last, now, other);
      assert attempts == before + [last];
    }
  }

  lemma LosesAnySnoc(before: seq<Attempt>, last: Attempt, now: real, other: real)
    ensures LosesAny(before + [last], now, other) <==> LosesAny(before, now, other) || Loses(last, now, other)
  {
    var all := before + [last];
    SnocParts(before, last);
    assert forall i :: 0 <= i < |before| ==> all[i] == before[i];
    if LosesAny(before, now, other) {
      var i :| 0 <= i < |before| && Loses(before[i], now, other);
      assert Loses(all[i], now, other);
    }
  }

  /** So pruning changes nothing that is seen at any later time. */
  lemma PruningIsInvisible(attempts: seq<Attempt>, now: real, later: real)
    requires now <= later
    ensures Shown(Live(attempts, now), later, None) == Shown(attempts, later, None)
  {
    PruningForgetsExactly(attempts, now, later);
  }

  lemma {:induction false} SuccessesShowNothing(attempts: seq<Attempt>, now: real, cut: Maybe<real>)
    ensures Shown(Successes(attempts), now, cut) == 0
  {
    if attempts != [] {
      var before, last := attempts[..|attempts| - 1], attempts[|attempts| - 1];
      SuccessesShowNothing(before, now, cut);
      if last.success {
        ShownSnoc(Successes(before), last, now, cut);
      } else {
        assert Successes(before) + [] == Successes(before);
      }
    }
  }

  lemma {:induction false} LiveCounts(attempts: seq<Attempt>, now: real)
    ensures FailureCount(Live(attempts, now)) == Shown(attempts, now, None)
  {
    if attempts != [] {
      var before, last := attempts[..|attempts| - 1], attempts[|attempts| - 1];
      LiveCounts(before, now);
      if now - last.time < WINDOW {
        SnocParts(Live(before, now), last);
      } else {
        assert Live(before, now) + [] == Live(before, now);
      }
    }
  }

  function KeyFor(forIp: bool, name: string): Key
  {
    if forIp then Ip(name) else User(name)
  }

  /** Every bucket shows what is remembered of the history, at every time and whatever is pruned next. */
  ghost predicate Faithful(buckets: map<string, seq<Attempt>>, h: seq<Item>, forIp: bool)
  {
    forall name: string, now: real, cut: Maybe<real> :: Tracked(KeyFor(forIp, name)) ==>
      Shown(Bucket(buckets, name), now, cut) == Remembered(h, KeyFor(forIp, name), now, cut)
  }

  class Limiter {
    var byIp: map<string, seq<Attempt>>
    var byUser: map<string, seq<Attempt>>
    ghost var history: seq<Item>

    ghost predicate Valid()
      reads this
    {
      Faithful(byIp, history, true) && Faithful(byUser, history, false)
    }

    constructor ()
      ensures Valid() && history == []
    {
      byIp, byUser, history := map[], map[], [];
    }

    /** Drop what has left the window from one bucket; `attempts` is what stays of it. */
    static method Prune(buckets: map<string, seq<Attempt>>, key: string, now: real)
      returns (pruned: map<string, seq<Attempt>>, attempts: seq<Attempt>)
      ensures attempts == Live(Bucket(buckets, key), now)
      ensures pruned == buckets[key := attempts]
    {
      var all := if key in buckets then buckets[key] else [];
      attempts := [];
      var i := 0;
      while i < |all|
        invariant 0 <= i <= |all|
        invariant attempts == Live(all[..i], now)
      {
        assert all[..i + 1][..i] == all[..i];
        if now - all[i].time < WINDOW {
          attempts := attempts + [all[i]];
        }
        i := i + 1;
      }
      assert all[..i] == all;
      pruned := buckets[key := attempts];
    }

    /** Whether a login may be tried. The answer is that of the failures remembered. */
    method CheckRateLimit(login: Login, now: real) returns (ok: bool)
      requires Valid()
      modifies this
      ensures Valid() && (history, ok) == CheckStep(old(history), login, now)
    {
      ghost var h := history;
      var attempts: seq<Attempt>;
      PruneKeepsFaithful(byIp, h, true, login.ip, now);
      PruneOfOther(byUser, h, false, Ip(login.ip), now);
      byIp, attempts := Prune(byIp, login.ip, now);
      history := h + [Pruned(Ip(login.ip), now)];
      if FailureCount(attempts) >= MAX_FAILURES_IP {
        return false;
      }
      if login.user != "" {
        ok := CheckUser(login.user, now);
        PrunedSnoc(h, Ip(login.ip), now, User(login.user), now, None);
        return ok;
      }
      return true;
    }

    /** The second half of a check. */
    method CheckUser(user: string, now: real) returns (ok: bool)
      requires Valid() && user != ""
      modifies this
      ensures Valid() && history == old(history) + [Pruned(User(user), now)]
      ensures ok <==> Remembered(old(history), User(user), now, None) < MAX_FAILURES_USER
    {
      ghost var h := history;
      var attempts: seq<Attempt>;
      PruneKeepsFaithful(byUser, h, false, user, now);
      PruneOfOther(byIp, h, true, User(user), now);
      byUser, attempts := Prune(byUser, user, now);
      history := h + [Pruned(User(user), now)];
      return FailureCount(attempts) < MAX_FAILURES_USER;
    }

    /** Record an outcome in both buckets; a success clears the failures of its user name. */
    method RecordLoginAttempt(login: Login, success: bool, ipTime: real, userTime: real)
      requires Valid()
      modifies this
      ensures Valid() && history == old(history) + [Recorded(Event(login, success, ipTime, userTime))]
    {
      ghost var e := Event(login, success, ipTime, userTime);
      RecordKeepsIp(byIp, history, e);
      RecordKeepsUser(byUser, history, e);
      byIp := byIp[login.ip := Bucket(byIp, login.ip) + [Attempt(ipTime, success)]];
      if login.user != "" {
        var attempts := Bucket(byUser, login.user) + [Attempt(userTime, success)];
        byUser := byUser[login.user := if success then Successes(attempts) else attempts];
      }
      history := history + [Recorded(e)];
    }
  }

  lemma PrunedSnoc(h: seq<Item>, k: Key, at: real, key: Key, now: real, cut: Maybe<real>)
    ensures Remembered(h + [Pruned(k, at)], key, now, cut)
         == Remembered(h, key, now, if k == key then Later(cut, at) else cut)
  {
    SnocParts(h, Pruned(k, at));
  }

  lemma PruneKeepsFaithful(buckets: map<string, seq<Attempt>>, h: seq<Item>, forIp: bool, name: string, at: real)
    requires Faithful(buckets, h, forIp) && Tracked(KeyFor(forIp, name))
    ensures Faithful(buckets[name := Live(Bucket(buckets, name), at)], h + [Pruned(KeyFor(forIp, name), at)], forIp)
    ensures FailureCount(Live(Bucket(buckets, name), at)) == Remembered(h, KeyFor(forIp, name), at, None)
  {
    var pruned := buckets[name := Live(Bucket(buckets, name), at)];
    forall other: string, now: real, cut: Maybe<real> | Tracked(KeyFor(forIp, other))
      ensures Shown(Bucket(pruned, other), now, cut)
           == Remembered(h + [Pruned(KeyFor(forIp, name), at)], KeyFor(forIp, other), now, cut)
    {
      PrunedSnoc(h, KeyFor(forIp, name), at, KeyFor(forIp, other), now, cut);
      PruningIsCut(Bucket(buckets, name), at, now, cut);
    }
    LiveCounts(Bucket(buckets, name), at);
  }

  lemma PruneOfOther(buckets: map<string, seq<Attempt>>, h: seq<Item>, forIp: bool, k: Key, at: real)
    requires Faithful(buckets, h, forIp) && k.Ip? != forIp
    ensures Faithful(buckets, h + [Pruned(k, at)], forIp)
  {
    forall name: string, now: real, cut: Maybe<real> | Tracked(KeyFor(forIp, name))
      ensures Shown(Bucket(buckets, name), now, cut) == Remembered(h + [Pruned(k, at)], KeyFor(forIp, name), now, cut)
    {
      PrunedSnoc(h, k, at, KeyFor(forIp, name), now, cut);
    }
  }

  lemma RecordedSnoc(h: seq<Item>, e: Event, key: Key, now: real, cut: Maybe<real>)
    ensures Remembered(h + [Recorded(e)], key, now, cut)
         == if !Concerns(e.login, key) then Remembered(h, key, now, cut)
            else if e.success then (if key.User? then 0 else Remembered(h, key, now, cut))
            else Remembered(h, key, now, cut)
                 + if now - TimeFor(e, key) < WINDOW && !Drops(cut, TimeFor(e, key)) then 1 else 0
  {
    SnocParts(h, Recorded(e));
  }

  lemma RecordKeepsIp(buckets: map<string, seq<Attempt>>, h: seq<Item>, e: Event)
    requires Faithful(buckets, h, true)
    ensures Faithful(buckets[e.login.ip := Bucket(buckets, e.login.ip) + [Attempt(e.ipTime, e.success)]],
                     h + [Recorded(e)], true)
  {
    var a := Attempt(e.ipTime, e.success);
    var after := buckets[e.login.ip := Bucket(buckets, e.login.ip) + [a]];
    forall ip: string, now: real, cut: Maybe<real>
      ensures Shown(Bucket(after, ip), now, cut) == Remembered(h + [Recorded(e)], Ip(ip), now, cut)
    {
      RecordedSnoc(h, e, Ip(ip), now, cut);
      ShownSnoc(Bucket(buckets, e.login.ip), a, now, cut);
      assert Tracked(KeyFor(true, ip)) && KeyFor(true, ip) == Ip(ip);
    }
  }

  lemma RecordKeepsUser(buckets: map<string, seq<Attempt>>, h: seq<Item>, e: Event)
    requires Faithful(buckets, h, false)
    ensures var attempts := Bucket(buckets, e.login.user) + [Attempt(e.userTime, e.success)];
      var kept := if e.success then Successes(attempts) else attempts;
      Faithful(if e.login.user != "" then buckets[e.login.user := kept] else buckets, h + [Recorded(e)], false)
  {
    var a := Attempt(e.userTime, e.success);
    var attempts := Bucket(buckets, e.login.user) + [a];
    var kept := if e.success then Successes(attempts) else attempts;
    var after := if e.login.user != "" then buckets[e.login.user := kept] else buckets;
    forall user: string, now: real, cut: Maybe<real> | Tracked(KeyFor(false, user))
      ensures Shown(Bucket(after, user), now, cut) == Remembered(h + [Recorded(e)], KeyFor(false, user), now, cut)
    {
      RecordedSnoc(h, e, User(user), now, cut);
      if user == e.login.user {
        ShownSnoc(Bucket(buckets, user), a, now, cut);
        SuccessesShowNothing(attempts, now, cut);
      }
      assert KeyFor(false, user) == User(user);
    }
  }

  // ---------- theorems ----------

  /** What is remembered and what is forgotten add up to the count over the complete history. */
  lemma {:induction false} RememberedAndForgotten(h: seq<Item>, key: Key, now: real, cut: Maybe<real>)
    ensures Remembered(h, key, now, cut) + Forgotten(h, key, now, cut) == Failures(LogOf(h), key, now)
    decreases |h|
  {
    if h != [] {
      var before, last := h[..|h| - 1], h[|h| - 1];
      match last
      case Pruned(k, at) =>
        RememberedAndForgotten(before, key, now, if k == key then Later(cut, at) else cut);
        assert LogOf(before) + [] == LogOf(before);
      case Recorded(e) =>
        RememberedAndForgotten(before, key, now, cut);
        FailuresSnoc(LogOf(before), e, key, now);
    }
  }

  lemma FailuresSnoc(log: seq<Event>, e: Event, key: Key, now: real)
    ensures Failures(log + [e], key, now)
         == if !Concerns(e.login, key) then Failures(log, key, now)
            else if e.success then (if key.User? then 0 else Failures(log, key, now))
            else Failures(log, key, now) + if now - TimeFor(e, key) < WINDOW then 1 else 0
  {
    SnocParts(log, e);
  }

  /** Item `i` is a failure that counts against `key` at `now`, and a later pruning, or `cut`, has dropped it. */
  ghost predicate LostAt(h: seq<Item>, key: Key, now: real, cut: Maybe<real>, i: nat)
    requires i < |h|
  {
    && h[i].Recorded? && !h[i].event.success && Concerns(h[i].event.login, key)
    && now - TimeFor(h[i].event, key) < WINDOW
    && (key.User? ==>
          forall j :: i < j < |h| && h[j].Recorded? && Concerns(h[j].event.login, key) ==> !h[j].event.success)
    && (Drops(cut, TimeFor(h[i].event, key))
        || exists j :: i < j < |h| && h[j].Pruned? && h[j].key == key && Drops(Some(h[j].at), TimeFor(h[i].event, key)))
  }

  ghost predicate LostAny(h: seq<Item>, key: Key, now: real, cut: Maybe<real>)
  {
    exists i :: 0 <= i < |h| && LostAt(h, key, now, cut, i)
  }

  /** Something is forgotten exactly if some counting failure was dropped by a pruning that came after it. */
  lemma {:induction false} ForgottenExactly(h: seq<Item>, key: Key, now: real, cut: Maybe<real>)
    ensures Forgotten(h, key, now, cut) > 0 <==> LostAny(h, key, now, cut)
    decreases |h|
  {
    if h != [] {
      var before, last := h[..|h| - 1], h[|h| - 1];
      var cut' := if last.Pruned? && last.key == key then Later(cut, last.at) else cut;
      ForgottenExactly(before, key, now, cut');
      LostAnySnoc(before, last, key, now, cut);
      assert h == before + [last];
    }
  }

  lemma LostAnySnoc(before: seq<Item>, last: Item, key: Key, now: real, cut: Maybe<real>)
    ensures LostAny(before + [last], key, now, cut) <==>
      match last
      case Pruned(k, at) => LostAny(before, key, now, if k == key then Later(cut, at) else cut)
      case Recorded(e) =>
        || (!Clears(e, key) && LostAny(before, key, now, cut))
        || (Concerns(e.login, key) && !e.success && now - TimeFor(e, key) < WINDOW && Drops(cut, TimeFor(e, key)))
  {
    var h, n := before + [last], |before|;
    var cut' := if last.Pruned? && last.key == key then Later(cut, last.at) else cut;
    SnocParts(before, last);
    if LostAny(h, key, now, cut) {
      var i :| 0 <= i < |h| && LostAt(h, key, now, cut, i);
      if i < n {
        LostAtSnoc(before, last, key, now, cut, i);
      }
    }
    if LostAny(before, key, now, cut') {
      var i :| 0 <= i < n && LostAt(before, key, now, cut', i);
      LostAtSnoc(before, last, key, now, cut, i);
    }
    assert LostAt(h, key, now, cut, n) <==>
      last.Recorded? && Concerns(last.event.login, key) && !last.event.success
      && now - TimeFor(last.event, key) < WINDOW && Drops(cut, TimeFor(last.event, key));
  }

  /** A success clears the failures of its user name. */
  predicate Clears(e: Event, key: Key)
  {
    Concerns(e.login, key) && e.success && key.User?
  }

  lemma LostAtSnoc(before: seq<Item>, last: Item, key: Key, now: real, cut: Maybe<real>, i: nat)
    requires i < |before|
    ensures var cut' := if last.Pruned? && last.key == key then Later(cut, last.at) else cut;
      LostAt(before + [last], key, now, cut, i) <==>
        LostAt(before, key, now, cut', i) && !(last.Recorded? && Clears(last.event, key))
  {
    var h, n := before + [last], |before|;
    assert h[n] == last;
    assert forall j :: 0 <= j < n ==> h[j] == before[j];
  }

  /** No pruning of the history was at a time later than `now`. */
  ghost predicate PrunedBy(h: seq<Item>, now: real)
  {
    forall i :: 0 <= i < |h| && h[i].Pruned? ==> h[i].at <= now
  }

  /**
   As long as the clock has not run backwards nothing is forgotten, and a check answers as the complete history does.
   */
  lemma NothingForgotten(h: seq<Item>, key: Key, now: real)
    requires PrunedBy(h, now)
    ensures Forgotten(h, key, now, None) == 0
    ensures Remembered(h, key, now, None) == Failures(LogOf(h), key, now)
  {
    ForgottenExactly(h, key, now, None);
    RememberedAndForgotten(h, key, now, None);
  }

  lemma CheckIsExact(h: seq<Item>, login: Login, now: real)
    requires PrunedBy(h, now)
    ensures CheckStep(h, login, now).1 <==>
      && Failures(LogOf(h), Ip(login.ip), now) < 10
      && (login.user != "" ==> Failures(LogOf(h), User(login.user), now) < 5)
    ensures PrunedBy(CheckStep(h, login, now).0, now) && LogOf(CheckStep(h, login, now).0) == LogOf(h)
  {
    NothingForgotten(h, Ip(login.ip), now);
    NothingForgotten(h, User(login.user), now);
    CheckKeepsLog(h, login, now);
    CheckKeepsPruned(h, login, now);
  }

  lemma CheckKeepsPruned(h: seq<Item>, login: Login, now: real)
    requires PrunedBy(h, now)
    ensures PrunedBy(CheckStep(h, login, now).0, now)
  {
  }

  lemma CheckKeepsLog(h: seq<Item>, login: Login, now: real)
    ensures LogOf(CheckStep(h, login, now).0) == LogOf(h)
  {
    LogOfPruned(h, Ip(login.ip), now);
    LogOfPruned(h + [Pruned(Ip(login.ip), now)], User(login.user), now);
  }

  lemma LogOfPruned(h: seq<Item>, key: Key, at: real)
    ensures LogOf(h + [Pruned(key, at)]) == LogOf(h)
  {
    SnocParts(h, Pruned(key, at));
    assert LogOf(h) + [] == LogOf(h);
  }

  lemma LogOfRecorded(h: seq<Item>, e: Event)
    ensures LogOf(h + [Recorded(e)]) == LogOf(h) + [e]
  {
    SnocParts(h, Recorded(e));
  }

  /**
   What a check forgets: from the bucket of the address always, and from that of a user name if the address passes,
   what is 300 s old by its clock. No other bucket forgets anything.
   */
  lemma CheckForgets(h: seq<Item>, login: Login, now: real, key: Key, other: real)
    ensures var seen := key == Ip(login.ip)
        || (login.user != "" && key == User(login.user) && CheckStep(h, Login(login.ip, ""), now).1);
      Forgotten(CheckStep(h, login, now).0, key, other, None)
      == Forgotten(h, key, other, if seen then Some(now) else None)
  {
    ForgottenSnoc(h, Ip(login.ip), now, key, other, None);
    ForgottenSnoc(h, Ip(login.ip), now, key, other, Some(now));
    ForgottenSnoc(h + [Pruned(Ip(login.ip), now)], User(login.user), now, key, other, None);
  }

  lemma ForgottenSnoc(h: seq<Item>, k: Key, at: real, key: Key, now: real, cut: Maybe<real>)
    ensures Forgotten(h + [Pruned(k, at)], key, now, cut)
         == Forgotten(h, key, now, if k == key then Later(cut, at) else cut)
  {
    SnocParts(h, Pruned(k, at));
  }

  /**
   Whatever the clock does, a check never refuses what the complete history allows, and it lets a login through against
   the history exactly if forgetting brings every count below its limit of which at least one was not.
   */
  lemma CheckIsLenientExactly(h: seq<Item>, login: Login, now: real)
    ensures Allowed(LogOf(h), login, now) ==> CheckStep(h, login, now).1
    ensures var ip, user := Ip(login.ip), User(login.user);
      var ipDue, userDue := Failures(LogOf(h), ip, now), Failures(LogOf(h), user, now);
      CheckStep(h, login, now).1 && !Allowed(LogOf(h), login, now) <==>
        && ipDue - Forgotten(h, ip, now, None) < 10
        && (login.user != "" ==> userDue - Forgotten(h, user, now, None) < 5)
        && (ipDue >= 10 || (login.user != "" && userDue >= 5))
  {
    RememberedAndForgotten(h, Ip(login.ip), now, None);
    RememberedAndForgotten(h, User(login.user), now, None);
  }

  // ---------- what a failure count counts ----------

  /**
   Entry `i` is a failure of the last five minutes, from that address, or for that user with no success of theirs since.
   */
  predicate Counts(log: seq<Event>, key: Key, now: real, i: nat)
    requires i < |log|
  {
    && !log[i].success
    && match key
       case Ip(ip) => log[i].login.ip == ip && now - log[i].ipTime < 300.0
       case User(user) =>
         && log[i].login.user == user && now - log[i].userTime < 300.0
         && forall j :: i < j < |log| && log[j].login.user == user ==> !log[j].success
  }

  function Counting(log: seq<Event>, key: Key, now: real): set<nat>
  {
    set i: nat | i < |log| && Counts(log, key, now, i)
  }

  lemma CountingSnoc(log: seq<Event>, e: Event, key: Key, now: real)
    ensures var clears := e.success && key.User? && e.login.user == key.name;
      var counts := !e.success && Concerns(e.login, key) && now - TimeFor(e, key) < 300.0;
      Counting(log + [e], key, now)
      == (if clears then {} else Counting(log, key, now)) + (if counts then {|log|} else {})
  {
    var more := log + [e];
    assert more[|log|] == e;
    forall i: nat | i < |log|
      ensures Counts(more, key, now, i) <==>
        Counts(log, key, now, i) && !(e.success && key.User? && e.login.user == key.name)
    {
      assert forall j :: 0 <= j < |log| ==> more[j] == log[j];
    }
  }

  /** The count over the history is the number of such entries. */
  lemma {:induction false} FailuresAreCounted(log: seq<Event>, key: Key, now: real)
    ensures Failures(log, key, now) == |Counting(log, key, now)|
    decreases |log|
  {
    if log == [] {
      assert Counting(log, key, now) == {};
    } else {
      var before, e := log[..|log| - 1], log[|log| - 1];
      FailuresAreCounted(before, key, now);
      CountingSnoc(before, e, key, now);
      assert log == before + [e];
      assert |before| !in Counting(before, key, now);
    }
  }

  // ---------- a clock that runs backwards ----------

  /** `n` failed logins from one address, all at time 0. */
  function FailedLogins(ip: string, n: nat): seq<Item>
  {
    seq(n, _ => Recorded(Event(Login(ip, ""), false, 0.0, 0.0)))
  }

  lemma {:induction false} FailedLoginsCount(ip: string, n: nat, now: real, cut: Maybe<real>)
    requires now < WINDOW
    ensures Remembered(FailedLogins(ip, n), Ip(ip), now, cut) == if Drops(cut, 0.0) then 0 else n
    ensures Failures(LogOf(FailedLogins(ip, n)), Ip(ip), now) == n
  {
    if n > 0 {
      var e := Event(Login(ip, ""), false, 0.0, 0.0);
      FailedLoginsCount(ip, n - 1, now, cut);
      assert FailedLogins(ip, n) == FailedLogins(ip, n - 1) + [Recorded(e)];
      RecordedSnoc(FailedLogins(ip, n - 1), e, Ip(ip), now, cut);
      LogOfRecorded(FailedLogins(ip, n - 1), e);
      FailuresSnoc(LogOf(FailedLogins(ip, n - 1)), e, Ip(ip), now);
    }
  }

  /**
   Ten failures at time 0 and a check at 300: when the clock is then set back by a second, the next login is let
   through, although all ten failures are inside the window again.
   */
  lemma ClockSetBack(ip: string)
    ensures var h := CheckStep(FailedLogins(ip, 10), Login(ip, ""), 300.0).0;
      && CheckStep(h, Login(ip, ""), 299.0).1
      && Failures(LogOf(h), Ip(ip), 299.0) == 10 && !Allowed(LogOf(h), Login(ip, ""), 299.0)
  {
    var h := FailedLogins(ip, 10);
    FailedLoginsCount(ip, 10, 299.0, Some(300.0));
    PrunedSnoc(h, Ip(ip), 300.0, Ip(ip), 299.0, None);
    LogOfPruned(h, Ip(ip), 300.0);
    CheckKeepsLog(h, Login(ip, ""), 300.0);
    NothingYet(h, ip);
  }

  lemma NothingYet(h: seq<Item>, ip: string)
    requires h == FailedLogins(ip, 10)
    ensures CheckStep(h, Login(ip, ""), 300.0).0 == h + [Pruned(Ip(ip), 300.0)]
  {
  }
}
