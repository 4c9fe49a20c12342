/**
 Login sessions. The table notices that a session has idled out only when that session is looked up; the specification
 is a table that drops idle sessions the moment they expire.
 */
module AuthSessions {
  import opened Common

  type Token = string

  const SESSION_TIMEOUT: int := 3600

  datatype Session = Session(user: string, role: string, issued: real, lastActivity: real, csrf: string)

  type Table = map<Token, Session>

  predicate Expired(s: Session, now: real)
  {
    now - s.lastActivity > SESSION_TIMEOUT as real
  }

  /** What an eager table would still hold at time `now`. */
  function AliveAt(t: Table, now: real): Table
  {
    map token | token in t && !Expired(t[token], now) :: t[token]
  }

  datatype Op =
    | Establish(token: Token, user: string, role: string, csrf: string)
    | Lookup(token: Token, touch: bool)
    | Logout(token: Token)
    | PurgeUser(user: string)
    | PurgeOthers(user: string, keep: Token)

  datatype Answer = Done | Found(session: Session) | NotFound | Purged(count: nat)

  // ---------- the operations on a table as a value ----------

  function TokensOf(t: Table, user: string): set<Token>
  {
    set token | token in t && t[token].user == user
  }

  function OtherTokensOf(t: Table, user: string, keep: Token): set<Token>
  {
    TokensOf(t, user) - {keep}
  }

  /** The operations of a table that never looks at the clock. */
  function Plain(t: Table, op: Op, now: real): (Table, Answer)
  {
    match op
    case Establish(token, user, role, csrf) => (t[token := Session(user, role, now, now, csrf)], Done)
    case Lookup(token, touch) =>
      if token == "" || token !in t then (t, NotFound)
      else
        var s := if touch then t[token].(lastActivity := now) else t[token];
        (t[token := s], Found(s))
    case Logout(token) => (if token != "" then t - {token} else t, Done)
    case PurgeUser(user) => (t - TokensOf(t, user), Purged(|TokensOf(t, user)|))
    case PurgeOthers(user, keep) => (t - OtherTokensOf(t, user, keep), Purged(|OtherTokensOf(t, user, keep)|))
  }

  /** The specification: idle sessions are dropped first, then the operation runs. */
  function Eager(t: Table, op: Op, now: real): (Table, Answer)
  {
    Plain(AliveAt(t, now), op, now)
  }

  /** The table as it is: only a lookup checks for expiry, and only of its own session. */
  function Lazy(t: Table, op: Op, now: real): (Table, Answer)
  {
    if op.Lookup? && op.token != "" && op.token in t && Expired(t[op.token], now) then (t - {op.token}, NotFound)
    else Plain(t, op, now)
  }

  // ---------- the table in memory ----------

  class SessionTable {
    var tokens: Table

    constructor ()
      ensures tokens == map[]
    {
      tokens := map[];
    }

    method EstablishSession(token: Token, user: string, role: string, csrf: string, now: real)
      modifies this
      ensures tokens == Lazy(old(tokens), Establish(token, user, role, csrf), now).0
    {
      tokens := tokens[token := Session(user, role, now, now, csrf)];
    }

    /** The session behind a token; an expired one is removed on the way. */
    method LookupSession(token: Token, touch: bool, now: real) returns (a: Answer)
      modifies this
      ensures (tokens, a) == Lazy(old(tokens), Lookup(token, touch), now)
    {
      if token == "" {
        return NotFound;
      }
      if token !in tokens {
        return NotFound;
      }
      if Expired(tokens[token], now) {
        tokens := tokens - {token};
        return NotFound;
      }
      if touch {
        tokens := tokens[token := tokens[token].(lastActivity := now)];
      }
      assert !touch ==> tokens[token := tokens[token]] == tokens;
      return Found(tokens[token]);
    }

    method LogoutSession(token: Token, now: real)
      modifies this
      ensures tokens == Lazy(old(tokens), Logout(token), now).0
      ensures token != "" ==> token !in tokens
    {
      if token != "" {
        tokens := tokens - {token};
      }
    }

    /** Remove every session of a user whose password was reset or who was deleted; returns how many there were. */
    method PurgeUserSessions(user: string, now: real) returns (purged: nat)
      modifies this
      ensures (tokens, Purged(purged)) == Lazy(old(tokens), PurgeUser(user), now)
      ensures |old(tokens)| == |tokens| + purged
    {
      purged := Remove(TokensOf(tokens, user));
    }

    /** Remove every session of the user but the caller's own, after a change of password. */
    method PurgeOtherSessions(user: string, keep: Token, now: real) returns (purged: nat)
      modifies this
      ensures (tokens, Purged(purged)) == Lazy(old(tokens), PurgeOthers(user, keep), now)
      ensures |old(tokens)| == |tokens| + purged
    {
      purged := Remove(OtherTokensOf(tokens, user, keep));
    }

    /** Delete the stale tokens one by one, counting them. */
    method Remove(stale: set<Token>) returns (purged: nat)
      requires stale <= tokens.Keys
      modifies this
      ensures tokens == old(tokens) - stale && purged == |stale|
      ensures |old(tokens)| == |tokens| + purged
    {
      ghost var before := tokens;
      var left := stale;
      purged := 0;
      assert before - (stale - left) == before;
      while left != {}
        invariant left <= stale <= before.Keys
        invariant tokens == before - (stale - left)
        invariant purged == |stale| - |left|
        decreases |left|
      {
        var token :| token in left;
        OneTokenLess(before, stale, left, token);
        left := left - {token};
        tokens := tokens - {token};
        purged := purged + 1;
      }
      assert stale - left == stale;
      SizeAfterRemoval(before, stale);
    }
  }

  lemma OneTokenLess(t: Table, stale: set<Token>, left: set<Token>, token: Token)
    requires left <= stale <= t.Keys && token in left
    ensures t - (stale - left) - {token} == t - (stale - (left - {token}))
  {
  }

  lemma SizeAfterRemoval(t: Table, gone: set<Token>)
    requires gone <= t.Keys
    ensures |t| == |t - gone| + |gone|
  {
    assert (t - gone).Keys == t.Keys - gone;
  }

  // ---------- lazy equals eager ----------

  /** Two tables that no later lookup can tell apart. */
  ghost predicate Alike(lazy: Table, eager: Table, now: real)
  {
    AliveAt(lazy, now) == AliveAt(eager, now)
  }

  lemma AliveLater(t: Table, now: real, later: real)
    requires now <= later
    ensures AliveAt(AliveAt(t, now), later) == AliveAt(t, later)
  {
  }

  /** Tokens that have expired but that no lookup has removed yet. */
  function Lingering(t: Table, tokens: set<Token>, now: real): set<Token>
  {
    set token | token in tokens && token in t && Expired(t[token], now)
  }

  /** The tokens a purge takes out of a table. */
  function PurgedTokens(t: Table, op: Op): set<Token>
  {
    match op
    case PurgeUser(user) => TokensOf(t, user)
    case PurgeOthers(user, keep) => OtherTokensOf(t, user, keep)
    case _ => {}
  }

  /** Answers agree, but the count of a purge also includes sessions that had expired unnoticed. */
  ghost predicate SameAnswer(lazy: Answer, eager: Answer, unnoticed: nat)
  {
    if eager.Purged? then lazy == Purged(eager.count + unnoticed) else lazy == eager
  }

  lemma AliveUpdate(t: Table, token: Token, s: Session, now: real)
    requires !Expired(s, now)
    ensures AliveAt(t[token := s], now) == AliveAt(t, now)[token := s]
  {
  }

  lemma AliveRemove(t: Table, gone: set<Token>, now: real)
    ensures AliveAt(t - gone, now) == AliveAt(t, now) - gone
  {
  }

  lemma AliveTwice(t: Table, now: real)
    ensures AliveAt(AliveAt(t, now), now) == AliveAt(t, now)
  {
  }

  /** A purge takes the same living sessions out of the lazy table as out of the living part of it. */
  lemma PurgeAlive(t: Table, op: Op, now: real)
    requires op.PurgeUser? || op.PurgeOthers?
    ensures AliveAt(t, now) - PurgedTokens(t, op) == AliveAt(t, now) - PurgedTokens(AliveAt(t, now), op)
    ensures |PurgedTokens(t, op)| == |PurgedTokens(AliveAt(t, now), op)| + |Lingering(t, PurgedTokens(t, op), now)|
  {
    var all, seen := PurgedTokens(t, op), PurgedTokens(AliveAt(t, now), op);
    assert all == seen + Lingering(t, all, now) && seen !! Lingering(t, all, now);
  }

  lemma SimulateStep(lazy: Table, eager: Table, op: Op, now: real)
    requires Alike(lazy, eager, now)
    ensures Alike(Lazy(lazy, op, now).0, Eager(eager, op, now).0, now)
    ensures SameAnswer(Lazy(lazy, op, now).1, Eager(eager, op, now).1, |Lingering(lazy, PurgedTokens(lazy, op), now)|)
  {
    var alive := AliveAt(lazy, now);
    AliveTwice(lazy, now);
    match op
    case Establish(token, user, role, csrf) =>
      AliveUpdate(lazy, token, Session(user, role, now, now, csrf), now);
      AliveUpdate(alive, token, Session(user, role, now, now, csrf), now);
    case Lookup(token, touch) =>
      if token in alive {
        var s := if touch then lazy[token].(lastActivity := now) else lazy[token];
        AliveUpdate(lazy, token, s, now);
        AliveUpdate(alive, token, s, now);
      } else {
        AliveRemove(lazy, {token}, now);
      }
    case Logout(token) =>
      AliveRemove(lazy, {token}, now);
      AliveRemove(alive, {token}, now);
    case _ =>
      PurgeAlive(lazy, op, now);
      AliveRemove(lazy, PurgedTokens(lazy, op), now);
      AliveRemove(alive, PurgedTokens(alive, op), now);
  }

  // ---------- whole runs ----------

  /** An operation and the time at which it runs. */
  datatype Timed = Timed(op: Op, at: real)

  ghost predicate InOrder(ops: seq<Timed>)
  {
    forall i, j :: 0 <= i < j < |ops| ==> ops[i].at <= ops[j].at
  }

  /** The table before the last operation of `ops`, in either machine. */
  function LazyTable(ops: seq<Timed>): Table
  {
    if ops == [] then map[]
    else Lazy(LazyTable(ops[..|ops| - 1]), ops[|ops| - 1].op, ops[|ops| - 1].at).0
  }

  function EagerTable(ops: seq<Timed>): Table
  {
    if ops == [] then map[]
    else Eager(EagerTable(ops[..|ops| - 1]), ops[|ops| - 1].op, ops[|ops| - 1].at).0
  }

  lemma {:induction false} TablesStayAlike(ops: seq<Timed>, now: real)
    requires InOrder(ops) && forall i :: 0 <= i < |ops| ==> ops[i].at <= now
    ensures Alike(LazyTable(ops), EagerTable(ops), now)
  {
    if ops != [] {
      var before, last := ops[..|ops| - 1], ops[|ops| - 1];
      TablesStayAlike(before, last.at);
      SimulateStep(LazyTable(before), EagerTable(before), last.op, last.at);
      AliveLater(LazyTable(ops), last.at, now);
      AliveLater(EagerTable(ops), last.at, now);
    }
  }

  /**
   After any history of operations at non-decreasing times, the next operation is answered as the eager table answers
   it. Only the count of a purge differs, by the sessions that had expired without being looked up.
   */
  lemma LazyEqualsEager(ops: seq<Timed>, next: Timed)
    requires InOrder(ops + [next])
    ensures SameAnswer(Lazy(LazyTable(ops), next.op, next.at).1, Eager(EagerTable(ops), next.op, next.at).1,
                       |Lingering(LazyTable(ops), PurgedTokens(LazyTable(ops), next.op), next.at)|)
  {
    forall i | 0 <= i < |ops|
      ensures ops[i].at <= next.at
    {
      assert (ops + [next])[i] == ops[i] && (ops + [next])[|ops|] == next;
    }
    forall i, j | 0 <= i < j < |ops|
      ensures ops[i].at <= ops[j].at
    {
      assert (ops + [next])[i] == ops[i] && (ops + [next])[j] == ops[j];
    }
    TablesStayAlike(ops, next.at);
    SimulateStep(LazyTable(ops), EagerTable(ops), next.op, next.at);
  }

  /** Run `ops` on a given lazy table. */
  function Continue(t: Table, ops: seq<Timed>): Table
  {
    if ops == [] then t
    else Lazy(Continue(t, ops[..|ops| - 1]), ops[|ops| - 1].op, ops[|ops| - 1].at).0
  }

  ghost predicate NeverIssues(ops: seq<Timed>, token: Token)
  {
    forall i :: 0 <= i < |ops| && ops[i].op.Establish? ==> ops[i].op.token != token
  }

  /** A session that is missing or expired at `now` is not found at any later time, unless its token is issued again. */
  lemma {:induction false} NeverRevived(t: Table, token: Token, now: real, ops: seq<Timed>, touch: bool, later: real)
    requires token !in AliveAt(t, now) && NeverIssues(ops, token)
    requires InOrder(ops) && now <= later
    requires forall i :: 0 <= i < |ops| ==> now <= ops[i].at <= later
    ensures token !in AliveAt(Continue(t, ops), later)
    ensures Lazy(Continue(t, ops), Lookup(token, touch), later).1 == NotFound
    decreases |ops|
  {
    if ops != [] {
      var before, last := ops[..|ops| - 1], ops[|ops| - 1];
      NeverRevived(t, token, now, before, touch, last.at);
    }
  }

  /** Nothing but a new login changes who a token belongs to, what it may do, when it was issued, or its CSRF token. */
  ghost predicate SameIdentity(s: Session, s': Session)
  {
    s'.user == s.user && s'.role == s.role && s'.issued == s.issued && s'.csrf == s.csrf
  }

  lemma {:induction false} IdentityIsConstant(t: Table, token: Token, ops: seq<Timed>)
    requires token in t && NeverIssues(ops, token) && token in Continue(t, ops)
    ensures SameIdentity(t[token], Continue(t, ops)[token])
    decreases |ops|
  {
    if ops != [] {
      var before := ops[..|ops| - 1];
      if token in Continue(t, before) {
        IdentityIsConstant(t, token, before);
      }
    }
  }

  /** A lookup that does not touch leaves every session exactly as long to live as before. */
  lemma UntouchedLookup(t: Table, token: Token, now: real, later: real)
    requires now <= later
    ensures AliveAt(Lazy(t, Lookup(token, false), now).0, later) == AliveAt(t, later)
  {
  }

  /** A new session is found, as issued, for just one hour after its login; a touch within it starts the hour again. */
  lemma SessionLifetime(t: Table, token: Token, user: string, role: string, csrf: string, now: real, touched: real,
      later: real)
    requires token != "" && now <= touched <= now + 3600.0 && touched <= later
    ensures var issued := Lazy(t, Establish(token, user, role, csrf), now).0;
      && Lazy(issued, Lookup(token, false), later).1
         == (if later <= now + 3600.0 then Found(Session(user, role, now, now, csrf)) else NotFound)
      && var (kept, answer) := Lazy(issued, Lookup(token, true), touched);
         && answer == Found(Session(user, role, now, touched, csrf))
         && Lazy(kept, Lookup(token, false), later).1
            == (if later <= touched + 3600.0 then Found(Session(user, role, now, touched, csrf)) else NotFound)
  {
    assert SESSION_TIMEOUT as real == 3600.0;
  }

  /** A purge takes out every session of its user, but the caller's own where that is to stay, and no other session. */
  lemma PurgeIsExact(t: Table, op: Op, now: real, token: Token)
    requires op.PurgeUser? || op.PurgeOthers?
    ensures var t' := Lazy(t, op, now).0;
      && (token in t' <==> token in t && !(t[token].user == op.user && (op.PurgeOthers? ==> token != op.keep)))
      && (token in t' ==> t'[token] == t[token])
    ensures |t| == |Lazy(t, op, now).0| + Lazy(t, op, now).1.count
  {
    SizeAfterRemoval(t, PurgedTokens(t, op));
  }

  /** A logout takes out the session of its token and no other; without a token it does nothing. */
  lemma LogoutIsExact(t: Table, token: Token, now: real, other: Token)
    ensures var t' := Lazy(t, Logout(token), now).0;
      && (other in t' <==> other in t && (other != token || token == ""))
      && (other in t' ==> t'[other] == t[other])
  {
  }

  /** After a logout the session is not found by any lookup, at any time, until its token is issued again. */
  lemma {:induction false} LoggedOutForGood(t: Table, token: Token, now: real, ops: seq<Timed>, touch: bool,
      later: real)
    requires token != "" && NeverIssues(ops, token)
    ensures token !in Continue(Lazy(t, Logout(token), now).0, ops)
    ensures Lazy(Continue(Lazy(t, Logout(token), now).0, ops), Lookup(token, touch), later).1 == NotFound
    decreases |ops|
  {
    if ops != [] {
      LoggedOutForGood(t, token, now, ops[..|ops| - 1], touch, later);
    }
  }

  /**
   A lookup takes out its own session if that has been idle for more than an hour, renews it if it is touched within
   the hour, and leaves every other session alone.
   */
  lemma LookupIsExact(t: Table, token: Token, touch: bool, now: real, other: Token)
    ensures var t' := Lazy(t, Lookup(token, touch), now).0;
      && (other in t' <==> other in t && !(other == token != "" && now - t[token].lastActivity > 3600.0))
      && (other in t' ==>
            t'[other] == if touch && other == token != "" then t[other].(lastActivity := now) else t[other])
  {
  }

  // ---------- the remaining lifetime that is reported ----------

  /** Seconds left as the verify endpoint reports them: both truncations are to whole seconds. */
  function ReportedTtl(s: Session, now: real): int
  {
    Max(0, SESSION_TIMEOUT - Max(0, (now - s.lastActivity).Floor))
  }

  /**
   An untouched session lives for at least one second less than reported and for less than one second more, and it is
   still alive after exactly the reported time just when it has been idle for a whole number of seconds.
   */
  lemma TtlIsExact(s: Session, now: real)
    requires s.lastActivity <= now && !Expired(s, now)
    ensures var ttl := ReportedTtl(s, now) as real;
      && !Expired(s, now + ttl - 1.0)
      && Expired(s, now + ttl + 1.0)
      && (!Expired(s, now + ttl) <==> (now - s.lastActivity).Floor as real == now - s.lastActivity)
  {
  }
}
