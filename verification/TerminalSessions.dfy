/**
 The store of open terminal sessions and the descriptors it owns. The store itself changes only under its lock, so
 each method is one atomic step; opening a session is two such steps with a gap in between.
 */
module TerminalSessions {

  /** Session identifiers and descriptors are fresh values; only their identity matters. */
  type Sid = nat
  type Fd = nat

  datatype Session = Session(fd: Fd, lastActive: real)

  const SESSION_TIMEOUT: real := 900.0
  const MAX_SESSIONS: nat := 20

  /** The store as a value, with how often each descriptor has been closed. */
  datatype Store = Store(sessions: map<Sid, Session>, closed: multiset<Fd>)

  predicate IsStale(s: Session, now: real)
  {
    now - s.lastActive > SESSION_TIMEOUT
  }

  function StaleSids(sessions: map<Sid, Session>, now: real): set<Sid>
  {
    set sid | sid in sessions && IsStale(sessions[sid], now)
  }

  function Descriptors(sessions: map<Sid, Session>, sids: set<Sid>): set<Fd>
    requires sids <= sessions.Keys
  {
    set sid | sid in sids :: sessions[sid].fd
  }

  /** The descriptors of all sessions. */
  function Held(sessions: map<Sid, Session>): set<Fd>
  {
    Descriptors(sessions, sessions.Keys)
  }

  /** No two sessions share a descriptor. */
  ghost predicate Distinct(sessions: map<Sid, Session>)
  {
    forall a, b :: a in sessions && b in sessions && sessions[a].fd == sessions[b].fd ==> a == b
  }

  function Killed(s: Store, sid: Sid): Store
  {
    if sid in s.sessions then Store(s.sessions - {sid}, s.closed + multiset{s.sessions[sid].fd}) else s
  }

  /** The sessions `sids` taken out, each of their descriptors closed once more. */
  function Removed(s: Store, sids: set<Sid>): Store
    requires sids <= s.sessions.Keys
  {
    Store(s.sessions - sids, s.closed + multiset(Descriptors(s.sessions, sids)))
  }

  function Swept(s: Store, now: real): Store
  {
    Removed(s, StaleSids(s.sessions, now))
  }

  predicate HasRoomIn(s: Store)
  {
    |s.sessions| < MAX_SESSIONS
  }

  function Inserted(s: Store, sid: Sid, fd: Fd, now: real): Store
  {
    s.(sessions := s.sessions[sid := Session(fd, now)])
  }

  function Touched(s: Store, sid: Sid, now: real): Store
  {
    if sid in s.sessions then s.(sessions := s.sessions[sid := s.sessions[sid].(lastActive := now)]) else s
  }

  /** Removing several sessions is killing them one by one. */
  lemma KilledAfterRemoved(s: Store, done: set<Sid>, sid: Sid)
    requires Distinct(s.sessions) && done <= s.sessions.Keys && sid in s.sessions && sid !in done
    ensures Killed(Removed(s, done), sid) == Removed(s, done + {sid})
  {
    var fd := s.sessions[sid].fd;
    assert Descriptors(s.sessions, done + {sid}) == Descriptors(s.sessions, done) + {fd};
    assert fd !in Descriptors(s.sessions, done);
    assert s.sessions - done - {sid} == s.sessions - (done + {sid});
  }

  lemma NothingRemoved(s: Store, none: set<Sid>)
    requires none == {}
    ensures Removed(s, none) == s
  {
  }

  class SessionStore {
    var sessions: map<Sid, Session>
    var closed: multiset<Fd>

    function Abs(): Store
      reads this
    {
      Store(sessions, closed)
    }

    constructor ()
      ensures Abs() == Store(map[], multiset{})
    {
      sessions, closed := map[], multiset{};
    }

    /** Take a session out and close its descriptor; nothing happens when it is already gone. */
    method KillSession(sid: Sid)
      modifies this
      ensures Abs() == Killed(old(Abs()), sid)
    {
      if sid !in sessions {
        return;
      }
      var s := sessions[sid];
      sessions := sessions - {sid};
      closed := closed + multiset{s.fd};
    }

    /** Kill every session idle for longer than the timeout at the sampled time `now`. */
    method CleanupStale(now: real)
      requires Distinct(sessions)
      modifies this
      ensures Abs() == Swept(old(Abs()), now)
    {
      ghost var before := Abs();
      var stale := StaleSids(sessions, now);
      ghost var all := stale;
      NothingRemoved(before, all - stale);
      while stale != {}
        invariant stale <= all <= before.sessions.Keys
        invariant Abs() == Removed(before, all - stale)
        decreases |stale|
      {
        var sid :| sid in stale;
        KilledAfterRemoved(before, all - stale, sid);
        assert all - (stale - {sid}) == all - stale + {sid};
        KillSession(sid);
        stale := stale - {sid};
      }
      assert all - stale == all;
    }

    /** The limit check that comes first when a session is issued. */
    method HasRoom() returns (ok: bool)
      ensures ok <==> HasRoomIn(Abs())
    {
      ok := |sessions| < MAX_SESSIONS;
    }

    /** The insert that comes last when a session is issued. */
    method Insert(sid: Sid, fd: Fd, now: real)
      modifies this
      ensures Abs() == Inserted(old(Abs()), sid, fd, now)
    {
      sessions := sessions[sid := Session(fd, now)];
    }

    /** Close on request, and when the bridge of a session ends. */
    method Close(sid: Sid)
      modifies this
      ensures Abs() == Killed(old(Abs()), sid)
    {
      if sid in sessions {
        KillSession(sid);
      }
    }

    /** The bridge marks its session as active on every turn; it stops when the session is gone. */
    method Touch(sid: Sid, now: real) returns (alive: bool)
      modifies this
      ensures alive <==> sid in old(sessions)
      ensures Abs() == Touched(old(Abs()), sid, now)
    {
      alive := sid in sessions;
      if alive {
        sessions := sessions[sid := sessions[sid].(lastActive := now)];
      }
    }
  }

  // ---------- all interleavings ----------

  /**
   Requests in flight have passed the limit check and not yet inserted; `issued` are all descriptors ever inserted,
   `lost` those of terminals that were opened but whose process could not be started.
   */
  datatype Config = Config(store: Store, inFlight: nat, issued: set<Fd>, lost: set<Fd>, clock: real)

  datatype Label =
    | CheckRoom
    | GiveUp
    | SpawnFails(fd: Fd)
    | InsertNew(sid: Sid, fd: Fd)
    | CloseSession(sid: Sid)
    | Sweep(sampled: real)
    | TouchSession(sid: Sid)
    | Wait(until: real)

  ghost predicate Init(c: Config)
  {
    c.store == Store(map[], multiset{}) && c.inFlight == 0 && c.issued == {} && c.lost == {}
  }

  /**
   One atomic step of some request: what one of the methods above does to the store. The time of a sweep is sampled
   before the lock is taken, so it may lag behind.
   */
  ghost predicate Next(c: Config, l: Label, c': Config)
  {
    match l
    case CheckRoom =>
      c' == if HasRoomIn(c.store) then c.(inFlight := c.inFlight + 1) else c
    case GiveUp =>
      c.inFlight > 0 && c' == c.(inFlight := c.inFlight - 1)
    case SpawnFails(fd) =>
      && c.inFlight > 0 && fd !in c.issued && fd !in c.lost
      && c' == c.(inFlight := c.inFlight - 1, lost := c.lost + {fd})
    case InsertNew(sid, fd) =>
      && c.inFlight > 0 && sid !in c.store.sessions && fd !in c.issued && fd !in c.lost
      && c' == Config(Inserted(c.store, sid, fd, c.clock), c.inFlight - 1, c.issued + {fd}, c.lost, c.clock)
    case CloseSession(sid) =>
      c' == c.(store := Killed(c.store, sid))
    case Sweep(sampled) =>
      sampled <= c.clock && c' == c.(store := Swept(c.store, sampled))
    case TouchSession(sid) =>
      sid in c.store.sessions && c' == c.(store := Touched(c.store, sid, c.clock))
    case Wait(until) =>
      c.clock <= until && c' == c.(clock := until)
  }

  ghost predicate IsRun(run: seq<Config>, labels: seq<Label>)
  {
    && |run| == |labels| + 1
    && Init(run[0])
    && forall i :: 0 <= i < |labels| ==> Next(run[i], labels[i], run[i + 1])
  }

  /**
   Every descriptor ever inserted is either held by one session and never closed, or held by none and closed once; one
   whose process did not start is held by none and never closed.
   */
  ghost predicate OwnedOrClosedOnce(c: Config)
  {
    && Distinct(c.store.sessions)
    && (forall sid :: sid in c.store.sessions ==> c.store.sessions[sid].fd in c.issued)
    && c.issued !! c.lost
    && (forall fd :: c.store.closed[fd] ==
                       if fd in c.issued && fd !in Held(c.store.sessions) then 1 else 0)
  }

  lemma HeldAfterRemoval(sessions: map<Sid, Session>, sids: set<Sid>)
    requires Distinct(sessions) && sids <= sessions.Keys
    ensures Distinct(sessions - sids)
    ensures Held(sessions - sids) == Held(sessions) - Descriptors(sessions, sids)
  {
    var left := sessions - sids;
    forall fd | fd in Held(sessions) - Descriptors(sessions, sids)
      ensures fd in Held(left)
    {
      var sid :| sid in sessions && sessions[sid].fd == fd;
      assert sid in left && left[sid].fd == fd;
    }
  }

  lemma HeldAfterUpdate(sessions: map<Sid, Session>, sid: Sid, s: Session)
    requires Distinct(sessions)
    requires if sid in sessions then s.fd == sessions[sid].fd else s.fd !in Held(sessions)
    ensures Distinct(sessions[sid := s])
    ensures Held(sessions[sid := s]) == Held(sessions) + {s.fd}
  {
    var more := sessions[sid := s];
    assert more[sid].fd in Held(more);
    forall fd | fd in Held(sessions)
      ensures fd in Held(more)
    {
      var other :| other in sessions && sessions[other].fd == fd;
      assert other in more && more[other].fd == fd;
    }
  }

  lemma UpdateKeepsOwnership(c: Config, l: Label, c': Config)
    requires OwnedOrClosedOnce(c) && Next(c, l, c') && (l.InsertNew? || l.TouchSession?)
    ensures OwnedOrClosedOnce(c')
  {
    var s := if l.InsertNew? then Session(l.fd, c.clock) else c.store.sessions[l.sid].(lastActive := c.clock);
    HeldAfterUpdate(c.store.sessions, l.sid, s);
  }

  lemma RemovalKeepsOwnership(c: Config, sids: set<Sid>)
    requires OwnedOrClosedOnce(c) && sids <= c.store.sessions.Keys
    ensures OwnedOrClosedOnce(c.(store := Removed(c.store, sids)))
  {
    HeldAfterRemoval(c.store.sessions, sids);
  }

  lemma NextKeepsOwnership(c: Config, l: Label, c': Config)
    requires OwnedOrClosedOnce(c) && Next(c, l, c')
    ensures OwnedOrClosedOnce(c')
  {
    match l
    case InsertNew(sid, fd) => UpdateKeepsOwnership(c, l, c');
    case TouchSession(sid) => UpdateKeepsOwnership(c, l, c');
    case CloseSession(sid) =>
      if sid in c.store.sessions {
        RemovalKeepsOwnership(c, {sid});
        assert Descriptors(c.store.sessions, {sid}) == {c.store.sessions[sid].fd};
      }
    case Sweep(sampled) => RemovalKeepsOwnership(c, StaleSids(c.store.sessions, sampled));
    case _ =>
  }

  lemma {:induction false} RunKeepsOwnership(run: seq<Config>, labels: seq<Label>, i: nat)
    requires IsRun(run, labels) && i < |run|
    ensures OwnedOrClosedOnce(run[i])
    ensures forall fd :: fd in run[i].lost ==> fd !in Held(run[i].store.sessions) && run[i].store.closed[fd] == 0
  {
    if i > 0 {
      RunKeepsOwnership(run, labels, i - 1);
      NextKeepsOwnership(run[i - 1], labels[i - 1], run[i]);
    }
  }

  lemma NextKeepsBound(c: Config, l: Label, c': Config, k: nat)
    requires Next(c, l, c') && c.inFlight <= k && c'.inFlight <= k
    requires |c.store.sessions| + c.inFlight <= MAX_SESSIONS - 1 + k
    ensures |c'.store.sessions| + c'.inFlight <= MAX_SESSIONS - 1 + k
  {
  }

  /** With at most `k` opens in flight at any time, the store never holds more than 19 + k sessions. */
  lemma {:induction false} SessionBound(run: seq<Config>, labels: seq<Label>, k: nat, i: nat)
    requires IsRun(run, labels) && i < |run|
    requires forall j :: 0 <= j < |run| ==> run[j].inFlight <= k
    ensures |run[i].store.sessions| + run[i].inFlight <= 19 + k
  {
    if i > 0 {
      SessionBound(run, labels, k, i - 1);
      NextKeepsBound(run[i - 1], labels[i - 1], run[i], k);
    }
  }

  /** The first `n` sessions opened one after the other, the first one holding descriptor 0. */
  function FirstSessions(n: nat, now: real): map<Sid, Session>
  {
    map sid: Sid | sid < n :: Session(sid, now)
  }

  /** A run with at most `k` opens in flight at any time that ends in `c`. */
  ghost predicate RunTo(run: seq<Config>, labels: seq<Label>, k: nat, c: Config)
  {
    IsRun(run, labels) && (forall j :: 0 <= j < |run| ==> run[j].inFlight <= k) && run[|labels|] == c
  }

  ghost predicate Reaches(k: nat, c: Config)
  {
    exists run, labels :: RunTo(run, labels, k, c)
  }

  lemma ReachesNext(k: nat, c: Config, l: Label, c': Config)
    requires Reaches(k, c) && Next(c, l, c') && c'.inFlight <= k
    ensures Reaches(k, c')
  {
    var run, labels :| RunTo(run, labels, k, c);
    var run', labels' := run + [c'], labels + [l];
    assert RunTo(run', labels', k, c');
  }

  function Opened(n: nat, inFlight: nat): Config
  {
    Config(Store(FirstSessions(n, 0.0), multiset{}), inFlight, FirstSessions(n, 0.0).Keys, {}, 0.0)
  }

  lemma FirstSessionsSize(n: nat)
    ensures |FirstSessions(n, 0.0)| == n
    ensures FirstSessions(n + 1, 0.0) == FirstSessions(n, 0.0)[n := Session(n, 0.0)]
  {
    if n > 0 {
      FirstSessionsSize(n - 1);
    } else {
      assert FirstSessions(0, 0.0) == map[];
    }
  }

  /** Opening sessions one at a time is possible up to the limit of 20. */
  lemma {:induction false} ReachSequential(k: nat, n: nat)
    requires k >= 1 && n <= MAX_SESSIONS
    ensures Reaches(k, Opened(n, 0))
  {
    if n == 0 {
      var run, labels: seq<Label> := [Opened(0, 0)], [];
      assert Opened(0, 0).store == Store(map[], multiset{});
      assert RunTo(run, labels, k, Opened(0, 0));
    } else {
      ReachSequential(k, n - 1);
      FirstSessionsSize(n - 1);
      ReachesNext(k, Opened(n - 1, 0), CheckRoom, Opened(n - 1, 1));
      OpenOne(k, n - 1, 1);
    }
  }

  lemma OpenOne(k: nat, n: nat, inFlight: nat)
    requires inFlight >= 1 && Reaches(k, Opened(n, inFlight)) && inFlight <= k
    ensures Reaches(k, Opened(n + 1, inFlight - 1))
  {
    FirstSessionsSize(n);
    ReachesNext(k, Opened(n, inFlight), InsertNew(n, n), Opened(n + 1, inFlight - 1));
  }

  lemma {:induction false} ReachConcurrent(k: nat, checks: nat)
    requires k >= 1 && checks <= k
    ensures Reaches(k, Opened(MAX_SESSIONS - 1, checks))
  {
    if checks == 0 {
      ReachSequential(k, MAX_SESSIONS - 1);
    } else {
      ReachConcurrent(k, checks - 1);
      FirstSessionsSize(MAX_SESSIONS - 1);
      ReachesNext(k, Opened(MAX_SESSIONS - 1, checks - 1), CheckRoom, Opened(MAX_SESSIONS - 1, checks));
    }
  }

  lemma {:induction false} ReachInserts(k: nat, inserts: nat)
    requires k >= 1 && inserts <= k
    ensures Reaches(k, Opened(MAX_SESSIONS - 1 + inserts, k - inserts))
  {
    if inserts == 0 {
      ReachConcurrent(k, k);
    } else {
      ReachInserts(k, inserts - 1);
      OpenOne(k, MAX_SESSIONS - 1 + inserts - 1, k - inserts + 1);
    }
  }

  /** The bound is exact: for every k there is a run with at most `k` opens in flight that ends with 19 + k sessions. */
  lemma BoundIsReached(k: nat)
    requires k >= 1
    ensures exists c :: Reaches(k, c) && |c.store.sessions| == 19 + k
  {
    ReachInserts(k, k);
    FirstSessionsSize(MAX_SESSIONS - 1 + k);
    assert Reaches(k, Opened(MAX_SESSIONS - 1 + k, 0));
  }

  /**
   A sweep takes out exactly the sessions idle too long when its time was sampled; all of them are so still when it
   runs.
   */
  lemma SweepIsExact(c: Config, sampled: real, c': Config, sid: Sid)
    requires Next(c, Sweep(sampled), c') && sid in c.store.sessions
    ensures sid !in c'.store.sessions <==> sampled - c.store.sessions[sid].lastActive > 900.0
    ensures sid !in c'.store.sessions ==> c.clock - c.store.sessions[sid].lastActive > 900.0
    ensures sid in c'.store.sessions ==> c'.store.sessions[sid] == c.store.sessions[sid]
  {
  }

  /** A bridge's turn gives its session 900 s from then on, and changes no other session and no descriptor. */
  lemma TouchRenews(c: Config, sid: Sid, c': Config, sampled: real, other: Sid)
    requires Next(c, TouchSession(sid), c')
    ensures c'.store.sessions.Keys == c.store.sessions.Keys && c'.store.closed == c.store.closed
    ensures sid in Swept(c'.store, sampled).sessions <==> sampled <= c.clock + 900.0
    ensures c'.store.sessions[sid].fd == c.store.sessions[sid].fd
    ensures other in c.store.sessions && other != sid ==> c'.store.sessions[other] == c.store.sessions[other]
  {
  }

  /** A new session starts with its descriptor and 900 s to live. */
  lemma InsertStarts(c: Config, sid: Sid, fd: Fd, c': Config, sampled: real, other: Sid)
    requires Next(c, InsertNew(sid, fd), c')
    ensures sid in c'.store.sessions && c'.store.sessions[sid].fd == fd && c'.store.closed == c.store.closed
    ensures sid in Swept(c'.store, sampled).sessions <==> sampled <= c.clock + 900.0
    ensures other != sid ==> (other in c'.store.sessions <==> other in c.store.sessions)
    ensures other in c.store.sessions ==> c'.store.sessions[other] == c.store.sessions[other]
  {
  }
}
