/**
 Requests on credentials as they run side by side. A request takes the vault's lock anew for each of its lookups, reads,
 writes and deletions, and between them others take their steps. What holds of every such run.
 */
module CredentialRuns {
  import opened Common
  import opened CredentialLaws
  import opened Credentials
  import opened VaultFile

  // ---------- requests in flight ----------

  datatype Op =
    | Set(request: SetRequest, done: Effect)
    | Reveal(scope: Maybe<Scope>, id: string)
    | Delete(scope: Maybe<Scope>, id: string, done: Effect)

  function ScopeOf(op: Op): Maybe<Scope>
  {
    if op.Set? then op.request.scope else op.scope
  }

  function IdIn(op: Op): string
  {
    if op.Set? then IdOf(op.request) else op.id
  }

  predicate ContainedOp(op: Op)
  {
    op.Set? ==> Contained(op.request)
  }

  /** The answer to a request; with a secret that is shown goes who typed it. */
  datatype Answer = Replied(reply: Reply) | Showed(meta: Meta, secret: string, author: Maybe<string>)

  /** How far a request has come. Each stage but the last is left in one step under the vault's lock. */
  datatype Stage =
    | Begun
    | Looked(existing: Maybe<Meta>)
    | Saving(meta: Meta, secret: string, author: string)
    | SavingSecret(meta: Meta, secret: string, author: string)
    | Revealing(meta: Meta)
    | Removing
    | RemovingSecret(any: bool)
    | Ended(answer: Answer)

  datatype Job = Job(caller: Caller, op: Op, stage: Stage)

  /** The vault and every request that has been made, in the order of arrival. */
  datatype State = State(vault: Vault, jobs: seq<Job>)

  datatype Label = Arrive(caller: Caller, op: Op) | Advance(job: nat)

  function HostOf(w: Codec, job: Job): Host
  {
    HostFor(w, if ScopeOf(job.op).Some? then ScopeOf(job.op).value else Global, job.caller.user)
  }

  function AuthorAt(v: Vault, host: Host, id: string): Maybe<string>
  {
    if (host, id) in v.authors then Some(v.authors[(host, id)]) else None
  }

  function ProceedSet(w: Codec, v: Vault, c: Caller, r: SetRequest, done: Effect, stage: Stage): (Vault, Stage)
  {
    match stage
    case Begun =>
      (v, match LookUp(w, v.entries, c, r)
          case Denied(reply) => Ended(Replied(reply))
          case Granted(existing) => Looked(existing))
    case Looked(existing) =>
      if r.scope.None? then (v, stage)
      else
        (v, match Settle(w, v.entries, c, r, existing)
            case Refuse(reply) => Ended(Replied(reply))
            case Store(host, meta, secret) => Saving(meta, secret, Author(v, c, r, host)))
    case Saving(meta, secret, author) =>
      (if done.metaDone then v.(entries := Write(w, v.entries, PlaceOf(w, meta), MetaKey(meta.id), w.encode(meta)))
       else v,
       SavingSecret(meta, secret, author))
    case SavingSecret(meta, secret, author) =>
      var host := PlaceOf(w, meta);
      (if done.secretDone
       then Vault(Write(w, v.entries, host, SecretKey(meta.id), secret), v.authors[(host, meta.id) := author])
       else v,
       Ended(Replied(if done.metaDone && done.secretDone then Saved(meta) else Failed)))
    case _ => (v, stage)
  }

  function ProceedReveal(w: Codec, v: Vault, c: Caller, scope: Maybe<Scope>, id: string, stage: Stage): (Vault, Stage)
  {
    match stage
    case Begun =>
      (v, match ToReveal(w, v.entries, c, scope, id)
          case Denied(reply) => Ended(Replied(reply))
          case Granted(meta) => Revealing(meta))
    case Revealing(meta) =>
      var host := HostFor(w, meta.scope, c.user);
      (v, Ended(Showed(meta, GetSecret(w, v.entries, host, id), AuthorAt(v, host, id))))
    case _ => (v, stage)
  }

  function ProceedDelete(w: Codec, v: Vault, c: Caller, scope: Maybe<Scope>, id: string, done: Effect, stage: Stage)
    : (Vault, Stage)
  {
    var host := HostFor(w, if scope.Some? then scope.value else Global, c.user);
    match stage
    case Begun =>
      (v, match ToDelete(w, v.entries, c, scope, id)
          case Denied(reply) => Ended(Replied(reply))
          case Granted(_) => Removing)
    case Removing =>
      (if done.metaDone then v.(entries := Erase(w, v.entries, host, MetaKey(id))) else v,
       RemovingSecret(done.metaDone && At(w, v.entries, host, MetaKey(id)).Some?))
    case RemovingSecret(any) =>
      (if done.secretDone then v.(entries := Erase(w, v.entries, host, SecretKey(id))) else v,
       Ended(Replied(Deleted(any || (done.secretDone && At(w, v.entries, host, SecretKey(id)).Some?)))))
    case _ => (v, stage)
  }

  /** The next step of a request. */
  function Proceed(w: Codec, v: Vault, job: Job): (Vault, Stage)
  {
    match job.op
    case Set(r, done) => ProceedSet(w, v, job.caller, r, done, job.stage)
    case Reveal(scope, id) => ProceedReveal(w, v, job.caller, scope, id, job.stage)
    case Delete(scope, id, done) => ProceedDelete(w, v, job.caller, scope, id, done, job.stage)
  }

  function Next(w: Codec, s: State, l: Label): State
  {
    match l
    case Arrive(caller, op) => s.(jobs := s.jobs + [Job(caller, op, Begun)])
    case Advance(i) =>
      if i >= |s.jobs| then s
      else
        var (vault, stage) := Proceed(w, s.vault, s.jobs[i]);
        State(vault, s.jobs[i := s.jobs[i].(stage := stage)])
  }

  function After(w: Codec, s: State, labels: seq<Label>): State
  {
    if labels == [] then s else Next(w, After(w, s, labels[..|labels| - 1]), labels[|labels| - 1])
  }

  const START: State := State(Vault([], map[]), [])

  lemma {:induction false} AfterConcat(w: Codec, s: State, a: seq<Label>, b: seq<Label>)
    ensures After(w, s, a + b) == After(w, After(w, s, a), b)
    decreases |b|
  {
    if b == [] {
      assert a + b == a;
    } else {
      assert (a + b)[..|a + b| - 1] == a + b[..|b| - 1];
      AfterConcat(w, s, a, b[..|b| - 1]);
    }
  }

  // ---------- a request by itself ----------

  function OnlyStep(w: Codec, v: Vault, c: Caller, op: Op): (Vault, Answer)
  {
    match op
    case Set(r, done) => var (v', reply) := SetStep(w, v, c, r, done); (v', Replied(reply))
    case Reveal(scope, id) =>
      (v, match RevealStep(w, v.entries, c, scope, id)
          case Refused(reply) => Replied(reply)
          case Shown(meta, secret) => Showed(meta, secret, AuthorAt(v, HostFor(w, meta.scope, c.user), id)))
    case Delete(scope, id, done) => var (v', reply) := DeleteStep(w, v, c, scope, id, done); (v', Replied(reply))
  }

  /** Some steps of a request, one right after the other. */
  function Proceeds(w: Codec, v: Vault, job: Job, n: nat): (Vault, Stage)
    decreases n
  {
    if n == 0 then (v, job.stage)
    else
      var (v', stage) := Proceed(w, v, job);
      Proceeds(w, v', job.(stage := stage), n - 1)
  }

  lemma TwoSteps(w: Codec, v: Vault, job: Job)
    ensures var (v1, s1) := Proceed(w, v, job);
      Proceeds(w, v, job, 2) == Proceed(w, v1, job.(stage := s1))
  {
    var (v1, s1) := Proceed(w, v, job);
    var (v2, s2) := Proceed(w, v1, job.(stage := s1));
    assert Proceeds(w, v1, job.(stage := s1), 1) == Proceeds(w, v2, job.(stage := s2), 0);
  }

  lemma {:induction false} MoreSteps(w: Codec, v: Vault, job: Job, n: nat, m: nat)
    ensures var (v', stage) := Proceeds(w, v, job, n);
      Proceeds(w, v, job, n + m) == Proceeds(w, v', job.(stage := stage), m)
    decreases n
  {
    if n > 0 {
      var (v', stage) := Proceed(w, v, job);
      MoreSteps(w, v', job.(stage := stage), n - 1, m);
    }
  }

  lemma {:induction false} EndedStays(w: Codec, v: Vault, job: Job, n: nat)
    requires job.stage.Ended?
    ensures Proceeds(w, v, job, n) == (v, job.stage)
  {
    if n > 0 {
      EndedStays(w, v, job, n - 1);
    }
  }

  /** The first half of a set request. */
  lemma SetSettles(w: Codec, v: Vault, c: Caller, r: SetRequest, done: Effect)
    ensures Proceeds(w, v, Job(c, Set(r, done), Begun), 2) ==
      (v, match PlanSet(w, v.entries, c, r)
          case Refuse(reply) => Ended(Replied(reply))
          case Store(host, meta, secret) => Saving(meta, secret, Author(v, c, r, host)))
  {
    TwoSteps(w, v, Job(c, Set(r, done), Begun));
  }

  lemma RecordIsSaved(w: Codec, v: Vault, job: Job)
    requires job.op.Set? && job.stage.Saving?
    ensures var m := job.stage.meta;
      var es := if job.op.done.metaDone then Write(w, v.entries, PlaceOf(w, m), MetaKey(m.id), w.encode(m))
                else v.entries;
      Proceed(w, v, job) == (Vault(es, v.authors), SavingSecret(m, job.stage.secret, job.stage.author))
  {
  }

  lemma SecretIsSaved(w: Codec, v: Vault, job: Job)
    requires job.op.Set? && job.stage.SavingSecret?
    ensures var m, host, done := job.stage.meta, PlaceOf(w, job.stage.meta), job.op.done;
      Proceed(w, v, job) ==
        (if done.secretDone
         then Vault(Write(w, v.entries, host, SecretKey(m.id), job.stage.secret),
                    v.authors[(host, m.id) := job.stage.author])
         else v,
         Ended(Replied(if done.metaDone && done.secretDone then Saved(m) else Failed)))
  {
  }

  lemma PutIsTwoWrites(w: Codec, es: seq<Entry>, host: Host, m: Meta, secret: string, done: Effect)
    ensures var es' := if done.metaDone then Write(w, es, host, MetaKey(m.id), w.encode(m)) else es;
      Put(w, es, host, m, secret, done)
      == if done.secretDone then Write(w, es', host, SecretKey(m.id), secret) else es'
  {
  }

  /** The second half. */
  lemma SetSaves(w: Codec, v: Vault, job: Job)
    requires job.op.Set? && job.stage.Saving?
    ensures var m, secret, host, done := job.stage.meta, job.stage.secret, PlaceOf(w, job.stage.meta), job.op.done;
      Proceeds(w, v, job, 2) ==
        (Vault(Put(w, v.entries, host, m, secret, done),
               if done.secretDone then v.authors[(host, m.id) := job.stage.author] else v.authors),
         Ended(Replied(if done.metaDone && done.secretDone then Saved(m) else Failed)))
  {
    var (v1, stage) := Proceed(w, v, job);
    TwoSteps(w, v, job);
    RecordIsSaved(w, v, job);
    SecretIsSaved(w, v1, job.(stage := stage));
    PutIsTwoWrites(w, v.entries, PlaceOf(w, job.stage.meta), job.stage.meta, job.stage.secret, job.op.done);
  }

  lemma SetByItself(w: Codec, v: Vault, c: Caller, r: SetRequest, done: Effect)
    requires Sound(w) && WellKept(w, v.entries)
    ensures Proceeds(w, v, Job(c, Set(r, done), Begun), 4)
         == (OnlyStep(w, v, c, Set(r, done)).0, Ended(OnlyStep(w, v, c, Set(r, done)).1))
  {
    var job, plan := Job(c, Set(r, done), Begun), PlanSet(w, v.entries, c, r);
    var stage := Proceeds(w, v, job, 2).1;
    MoreSteps(w, v, job, 2, 2);
    SetSettles(w, v, c, r, done);
    if plan.Refuse? {
      EndedStays(w, v, job.(stage := stage), 2);
    } else {
      PlanStores(w, v.entries, c, r);
      SetSaves(w, v, job.(stage := stage));
    }
  }

  lemma RevealByItself(w: Codec, v: Vault, c: Caller, scope: Maybe<Scope>, id: string)
    requires Sound(w) && WellKept(w, v.entries)
    ensures Proceeds(w, v, Job(c, Reveal(scope, id), Begun), 4)
         == (v, Ended(OnlyStep(w, v, c, Reveal(scope, id)).1))
  {
    var job := Job(c, Reveal(scope, id), Begun);
    TwoSteps(w, v, job);
    SeesOnlyOwn(w, v.entries, c, scope, id);
    MoreSteps(w, v, job, 2, 2);
    EndedStays(w, v, job.(stage := Proceeds(w, v, job, 2).1), 2);
  }

  lemma DeleteByItself(w: Codec, v: Vault, c: Caller, scope: Maybe<Scope>, id: string, done: Effect)
    ensures Proceeds(w, v, Job(c, Delete(scope, id, done), Begun), 4)
         == (OnlyStep(w, v, c, Delete(scope, id, done)).0, Ended(OnlyStep(w, v, c, Delete(scope, id, done)).1))
  {
    var job := Job(c, Delete(scope, id, done), Begun);
    var found := job.(stage := Proceed(w, v, job).1);
    MoreSteps(w, v, job, 1, 3);
    MoreSteps(w, v, found, 2, 1);
    if found.stage.Ended? {
      EndedStays(w, v, found, 3);
    } else {
      RemovesBoth(w, v, found);
      EndedStays(w, Proceeds(w, v, found, 2).0, found.(stage := Proceeds(w, v, found, 2).1), 1);
    }
  }

  lemma RecordIsErased(w: Codec, v: Vault, job: Job)
    requires job.op.Delete? && job.stage.Removing?
    ensures var host, id, done := HostOf(w, job), job.op.id, job.op.done;
      Proceed(w, v, job) == (v.(entries := Remove(w, v.entries, host, id, Effect(done.metaDone, false))),
                             RemovingSecret(done.metaDone && At(w, v.entries, host, MetaKey(id)).Some?))
  {
  }

  lemma SecretIsErased(w: Codec, v: Vault, job: Job)
    requires job.op.Delete? && job.stage.RemovingSecret?
    ensures var host, id, done := HostOf(w, job), job.op.id, job.op.done;
      Proceed(w, v, job) ==
        (v.(entries := if done.secretDone then Erase(w, v.entries, host, SecretKey(id)) else v.entries),
         Ended(Replied(Deleted(job.stage.any || (done.secretDone && At(w, v.entries, host, SecretKey(id)).Some?)))))
  {
  }

  lemma RemovesBoth(w: Codec, v: Vault, job: Job)
    requires job.op.Delete? && job.stage.Removing?
    ensures var host, id, done := HostOf(w, job), job.op.id, job.op.done;
      Proceeds(w, v, job, 2) == (v.(entries := Remove(w, v.entries, host, id, done)),
                                 Ended(Replied(Deleted(RemovesAny(w, v.entries, host, id, done)))))
  {
    var (v1, stage) := Proceed(w, v, job);
    TwoSteps(w, v, job);
    RecordIsErased(w, v, job);
    SecretIsErased(w, v1, job.(stage := stage));
  }

  /** A request that nobody disturbs does what the handler does when it is alone. */
  lemma UndisturbedIsHandler(w: Codec, v: Vault, c: Caller, op: Op)
    requires Sound(w) && WellKept(w, v.entries)
    ensures Proceeds(w, v, Job(c, op, Begun), 4) == (OnlyStep(w, v, c, op).0, Ended(OnlyStep(w, v, c, op).1))
  {
    match op
    case Set(r, done) => SetByItself(w, v, c, r, done);
    case Reveal(scope, id) => RevealByItself(w, v, c, scope, id);
    case Delete(scope, id, done) => DeleteByItself(w, v, c, scope, id, done);
  }

  // ---------- what a request in flight knows ----------

  /** The caller may write in that scope. */
  predicate Cleared(c: Caller, scope: Scope)
  {
    AtLeast(c.role, Operator) && (scope.Global? ==> AtLeast(c.role, Admin))
  }

  /** A record of the scope and id asked for, and of the caller if it is not global. */
  predicate IsAsked(m: Meta, c: Caller, scope: Maybe<Scope>, id: string)
  {
    Some(m.scope) == scope && m.id == id && (m.scope.User? ==> m.owner == c.user)
  }

  predicate AptSet(c: Caller, r: SetRequest, stage: Stage)
  {
    match stage
    case Begun => true
    case Looked(existing) =>
      r.scope.Some? && Cleared(c, r.scope.value) && (existing.Some? ==> IsAsked(existing.value, c, r.scope, IdOf(r)))
    case Saving(m, secret, _) => r.scope.Some? && Cleared(c, r.scope.value) && AptToStore(c, r, m, secret)
    case SavingSecret(m, secret, _) => r.scope.Some? && Cleared(c, r.scope.value) && AptToStore(c, r, m, secret)
    case Ended(answer) => answer.Replied?
    case _ => false
  }

  predicate AptToStore(c: Caller, r: SetRequest, m: Meta, secret: string)
  {
    && r.scope == Some(m.scope) && m.id == IdOf(r) && m.owner == OwnerFor(c, m.scope)
    && secret != "" && Spill(secret) == []
  }

  predicate AptReveal(c: Caller, scope: Maybe<Scope>, id: string, stage: Stage)
  {
    match stage
    case Begun => true
    case Revealing(m) => AtLeast(c.role, Operator) && IsAsked(m, c, scope, id)
    case Ended(answer) => answer.Showed? ==> AtLeast(c.role, Operator) && IsAsked(answer.meta, c, scope, id)
    case _ => false
  }

  predicate AptDelete(c: Caller, scope: Maybe<Scope>, stage: Stage)
  {
    match stage
    case Begun => true
    case Removing => scope.Some? && Cleared(c, scope.value)
    case RemovingSecret(_) => scope.Some? && Cleared(c, scope.value)
    case Ended(answer) => answer.Replied?
    case _ => false
  }

  predicate Apt(job: Job)
  {
    && (match job.op
        case Set(r, _) => AptSet(job.caller, r, job.stage)
        case Reveal(scope, id) => AptReveal(job.caller, scope, id, job.stage)
        case Delete(scope, _, _) => AptDelete(job.caller, scope, job.stage))
    && (!AtLeast(job.caller.role, Operator) ==> job.stage.Begun? || job.stage == Ended(Replied(Forbidden)))
  }

  /** Every record stands at its place, and every request in flight knows what it may. */
  ghost predicate Good(w: Codec, s: State)
  {
    && WellKept(w, s.vault.entries)
    && forall i :: 0 <= i < |s.jobs| ==> ContainedOp(s.jobs[i].op) && Apt(s.jobs[i])
  }

  lemma LookUpKnows(w: Codec, es: seq<Entry>, c: Caller, r: SetRequest)
    requires Sound(w) && WellKept(w, es) && LookUp(w, es, c, r).Granted?
    ensures r.scope.Some? && Cleared(c, r.scope.value)
    ensures var existing := LookUp(w, es, c, r).value;
      existing == ExistingMeta(w, es, c, r.scope.value, r.id)
      && (existing.Some? ==> r.id != "" && IsAsked(existing.value, c, r.scope, IdOf(r)))
  {
    FoundAtHost(w, es, HostFor(w, r.scope.value, c.user), r.id);
  }

  lemma SettleKnows(w: Codec, v: Vault, c: Caller, r: SetRequest, existing: Maybe<Meta>)
    requires Sound(w) && WellKept(w, v.entries) && Contained(r) && r.scope.Some?
    requires existing.Some? ==> IsAsked(existing.value, c, r.scope, IdOf(r))
    requires Settle(w, v.entries, c, r, existing).Store?
    ensures var plan := Settle(w, v.entries, c, r, existing);
      && plan.host == HostFor(w, r.scope.value, c.user) == PlaceOf(w, plan.meta)
      && AptToStore(c, r, plan.meta, plan.secret)
      && (r.secret == "" ==> existing.Some? && At(w, v.entries, plan.host, SecretKey(IdOf(r))).Some?)
  {
    var host := HostFor(w, r.scope.value, c.user);
    if r.secret == "" {
      FoundAtHost(w, v.entries, host, IdOf(r));
      StoredIsContained(v.entries, w.hostName(host), w.keyName(SecretKey(IdOf(r))));
    }
  }

  lemma RevealKnows(w: Codec, es: seq<Entry>, c: Caller, scope: Maybe<Scope>, id: string)
    requires Sound(w) && WellKept(w, es) && ToReveal(w, es, c, scope, id).Granted?
    ensures var m := ToReveal(w, es, c, scope, id).value;
      && AtLeast(c.role, Operator) && IsAsked(m, c, scope, id)
      && At(w, es, HostFor(w, m.scope, c.user), MetaKey(id)).Some?
      && w.decode(At(w, es, HostFor(w, m.scope, c.user), MetaKey(id)).value) == Some(m)
  {
    FoundAtHost(w, es, HostFor(w, scope.value, c.user), id);
  }

  lemma DeleteKnows(w: Codec, es: seq<Entry>, c: Caller, scope: Maybe<Scope>, id: string)
    requires Sound(w) && WellKept(w, es) && ToDelete(w, es, c, scope, id).Granted?
    ensures scope.Some? && Cleared(c, scope.value)
    ensures var m := ToDelete(w, es, c, scope, id).value;
      && IsAsked(m, c, scope, id)
      && At(w, es, HostFor(w, m.scope, c.user), MetaKey(id)).Some?
      && w.decode(At(w, es, HostFor(w, m.scope, c.user), MetaKey(id)).value) == Some(m)
  {
    FoundAtHost(w, es, HostFor(w, scope.value, c.user), id);
  }

  lemma StoreKeepsPlaces(w: Codec, v: Vault, c: Caller, r: SetRequest, m: Meta, secret: string)
    requires Sound(w) && WellKept(w, v.entries) && Contained(r) && AptToStore(c, r, m, secret)
    ensures WellKept(w, Write(w, v.entries, PlaceOf(w, m), MetaKey(m.id), w.encode(m)))
    ensures WellKept(w, Write(w, v.entries, PlaceOf(w, m), SecretKey(m.id), secret))
  {
    RecordIsContained(w, m);
    WriteKeepsPlaces(w, v.entries, m.scope, m.owner, MetaKey(m.id), w.encode(m));
    WriteKeepsPlaces(w, v.entries, m.scope, m.owner, SecretKey(m.id), secret);
  }

  lemma SetKeepsGood(w: Codec, v: Vault, c: Caller, r: SetRequest, done: Effect, stage: Stage)
    requires Sound(w) && WellKept(w, v.entries) && Contained(r) && Apt(Job(c, Set(r, done), stage))
    ensures var (v', stage') := ProceedSet(w, v, c, r, done, stage);
      WellKept(w, v'.entries) && Apt(Job(c, Set(r, done), stage'))
  {
    match stage
    case Begun =>
      if LookUp(w, v.entries, c, r).Granted? {
        LookUpKnows(w, v.entries, c, r);
      }
    case Looked(existing) =>
      if Settle(w, v.entries, c, r, existing).Store? {
        SettleKnows(w, v, c, r, existing);
      }
    case Saving(m, secret, _) => StoreKeepsPlaces(w, v, c, r, m, secret);
    case SavingSecret(m, secret, _) => StoreKeepsPlaces(w, v, c, r, m, secret);
    case _ =>
  }

  lemma DeleteKeepsGood(w: Codec, v: Vault, job: Job)
    requires Sound(w) && WellKept(w, v.entries) && Apt(job) && job.op.Delete?
    ensures var (v', stage') := Proceed(w, v, job); WellKept(w, v'.entries) && Apt(job.(stage := stage'))
  {
    match job.stage
    case Begun =>
      if ToDelete(w, v.entries, job.caller, job.op.scope, job.op.id).Granted? {
        DeleteKnows(w, v.entries, job.caller, job.op.scope, job.op.id);
      }
    case Removing => EraseKeepsPlaces(w, v.entries, HostOf(w, job), MetaKey(job.op.id));
    case RemovingSecret(_) => EraseKeepsPlaces(w, v.entries, HostOf(w, job), SecretKey(job.op.id));
    case _ =>
  }

  lemma RevealKeepsGood(w: Codec, v: Vault, job: Job)
    requires Sound(w) && WellKept(w, v.entries) && Apt(job) && job.op.Reveal?
    ensures var (v', stage') := Proceed(w, v, job); v' == v && Apt(job.(stage := stage'))
  {
    if ToReveal(w, v.entries, job.caller, job.op.scope, job.op.id).Granted? {
      RevealKnows(w, v.entries, job.caller, job.op.scope, job.op.id);
    }
  }

  lemma ProceedKeepsGood(w: Codec, v: Vault, job: Job)
    requires Sound(w) && WellKept(w, v.entries) && ContainedOp(job.op) && Apt(job)
    ensures var (v', stage') := Proceed(w, v, job); WellKept(w, v'.entries) && Apt(job.(stage := stage'))
  {
    match job.op
    case Set(r, done) => SetKeepsGood(w, v, job.caller, r, done, job.stage);
    case Reveal(_, _) => RevealKeepsGood(w, v, job);
    case Delete(_, _, _) => DeleteKeepsGood(w, v, job);
  }

  predicate ContainedLabel(l: Label)
  {
    l.Arrive? ==> ContainedOp(l.op)
  }

  ghost predicate AllContained(labels: seq<Label>)
  {
    forall i :: 0 <= i < |labels| ==> ContainedLabel(labels[i])
  }

  lemma NextKeepsGood(w: Codec, s: State, l: Label)
    requires Sound(w) && Good(w, s) && ContainedLabel(l)
    ensures Good(w, Next(w, s, l))
  {
    match l
    case Arrive(_, _) =>
    case Advance(i) =>
      if i < |s.jobs| {
        ProceedKeepsGood(w, s.vault, s.jobs[i]);
      }
  }

  lemma {:induction false} RunIsGood(w: Codec, s: State, labels: seq<Label>)
    requires Sound(w) && Good(w, s) && AllContained(labels)
    ensures Good(w, After(w, s, labels))
    decreases |labels|
  {
    if labels != [] {
      RunIsGood(w, s, labels[..|labels| - 1]);
      NextKeepsGood(w, After(w, s, labels[..|labels| - 1]), labels[|labels| - 1]);
    }
  }

  /**
   However requests run side by side, as long as they are contained every record in the vault stands at the place of
   its scope and owner, under its own id; and a record is shown to nobody but its owner, unless it is global.
   */
  lemma ReachableIsWellKept(w: Codec, labels: seq<Label>)
    requires Sound(w) && AllContained(labels)
    ensures WellKept(w, After(w, START, labels).vault.entries)
    ensures forall job :: job in After(w, START, labels).jobs && job.stage.Ended? && job.stage.answer.Showed? ==>
      && job.caller.role in {Operator, Admin, Protected} && job.op.Reveal?
      && IsAsked(job.stage.answer.meta, job.caller, job.op.scope, job.op.id)
  {
    assert Good(w, START);
    RunIsGood(w, START, labels);
  }

  // ---------- what a step changes ----------

  /** What a place of a request's own credential holds after its next step. */
  function AfterStep(w: Codec, job: Job, key: Key, was: Maybe<string>): Maybe<string>
  {
    match job.op
    case Set(_, done) =>
      if job.stage.Saving? && done.metaDone && key.MetaKey? then Some(w.encode(job.stage.meta))
      else if job.stage.SavingSecret? && done.secretDone && key.SecretKey? then Some(Kept(job.stage.secret))
      else was
    case Reveal(_, _) => was
    case Delete(_, _, done) =>
      if (job.stage.Removing? && done.metaDone && key.MetaKey?)
         || (job.stage.RemovingSecret? && done.secretDone && key.SecretKey?) then None
      else was
  }

  lemma SetStepAt(w: Codec, v: Vault, job: Job, host: Host, key: Key)
    requires Sound(w) && WellKept(w, v.entries) && ContainedOp(job.op) && Apt(job)
    requires job.op.Set? && (job.stage.Saving? || job.stage.SavingSecret?)
    ensures At(w, Proceed(w, v, job).0.entries, host, key)
         == if host == HostOf(w, job) && key.id == IdIn(job.op) then AfterStep(w, job, key, At(w, v.entries, host, key))
            else At(w, v.entries, host, key)
  {
    var m, secret := job.stage.meta, job.stage.secret;
    assert PlaceOf(w, m) == HostOf(w, job);
    RecordIsContained(w, m);
    if job.stage.Saving? {
      WriteAt(w, v.entries, m.scope, m.owner, MetaKey(m.id), w.encode(m), host, key);
    } else {
      WriteAt(w, v.entries, m.scope, m.owner, SecretKey(m.id), secret, host, key);
    }
  }

  /** The entries after the next step of a delete request. */
  lemma DeleteStepErases(w: Codec, v: Vault, job: Job)
    requires job.op.Delete?
    ensures Proceed(w, v, job).0.entries ==
      if job.stage.Removing? && job.op.done.metaDone then Erase(w, v.entries, HostOf(w, job), MetaKey(job.op.id))
      else if job.stage.RemovingSecret? && job.op.done.secretDone
      then Erase(w, v.entries, HostOf(w, job), SecretKey(job.op.id))
      else v.entries
  {
  }

  lemma DeleteStepAt(w: Codec, v: Vault, job: Job, host: Host, key: Key)
    requires Sound(w) && WellKept(w, v.entries) && job.op.Delete?
    ensures At(w, Proceed(w, v, job).0.entries, host, key)
         == if host == HostOf(w, job) && key.id == IdIn(job.op) then AfterStep(w, job, key, At(w, v.entries, host, key))
            else At(w, v.entries, host, key)
  {
    DeleteStepErases(w, v, job);
    if job.stage.Removing? {
      EraseAt(w, v.entries, HostOf(w, job), MetaKey(job.op.id), host, key);
    } else if job.stage.RemovingSecret? {
      EraseAt(w, v.entries, HostOf(w, job), SecretKey(job.op.id), host, key);
    }
  }

  /** The exact effect of the next step of a contained request on every place. */
  lemma StepAt(w: Codec, v: Vault, job: Job, host: Host, key: Key)
    requires Sound(w) && WellKept(w, v.entries) && ContainedOp(job.op) && Apt(job)
    ensures At(w, Proceed(w, v, job).0.entries, host, key)
         == if host == HostOf(w, job) && key.id == IdIn(job.op) then AfterStep(w, job, key, At(w, v.entries, host, key))
            else At(w, v.entries, host, key)
  {
    if job.op.Delete? {
      DeleteStepAt(w, v, job, host, key);
    } else if job.op.Set? && (job.stage.Saving? || job.stage.SavingSecret?) {
      SetStepAt(w, v, job, host, key);
    }
  }

  /** A request is about to write or delete at a credential. */
  predicate Writes(w: Codec, job: Job, host: Host, id: string)
  {
    && (job.stage.Saving? || job.stage.SavingSecret? || job.stage.Removing? || job.stage.RemovingSecret?)
    && HostOf(w, job) == host && IdIn(job.op) == id
  }

  ghost predicate SameAt(w: Codec, es: seq<Entry>, es': seq<Entry>, host: Host, key: Key)
  {
    At(w, es, host, key) == At(w, es', host, key)
  }

  ghost predicate SameCredential(w: Codec, v: Vault, v': Vault, host: Host, id: string)
  {
    && SameAt(w, v.entries, v'.entries, host, MetaKey(id))
    && SameAt(w, v.entries, v'.entries, host, SecretKey(id))
    && AuthorAt(v, host, id) == AuthorAt(v', host, id)
  }

  lemma UnwrittenAt(w: Codec, v: Vault, job: Job, host: Host, key: Key)
    requires Sound(w) && WellKept(w, v.entries) && ContainedOp(job.op) && Apt(job) && !Writes(w, job, host, key.id)
    ensures SameAt(w, v.entries, Proceed(w, v, job).0.entries, host, key)
  {
    StepAt(w, v, job, host, key);
  }

  /** Who typed a secret changes only when it is written. */
  lemma AuthorAfterStep(w: Codec, v: Vault, job: Job, host: Host, id: string)
    requires Apt(job)
    ensures AuthorAt(Proceed(w, v, job).0, host, id) ==
      if host == HostOf(w, job) && id == IdIn(job.op)
         && job.op.Set? && job.stage.SavingSecret? && job.op.done.secretDone
      then Some(job.stage.author) else AuthorAt(v, host, id)
  {
    if job.op.Set? && job.stage.SavingSecret? {
      assert PlaceOf(w, job.stage.meta) == HostOf(w, job);
    }
  }

  /** What the next step of a request does not write at stays as it is. */
  lemma UnwrittenStays(w: Codec, v: Vault, job: Job, host: Host, id: string)
    requires Sound(w) && WellKept(w, v.entries) && ContainedOp(job.op) && Apt(job) && !Writes(w, job, host, id)
    ensures SameCredential(w, v, Proceed(w, v, job).0, host, id)
  {
    UnwrittenAt(w, v, job, host, MetaKey(id));
    UnwrittenAt(w, v, job, host, SecretKey(id));
    AuthorAfterStep(w, v, job, host, id);
  }

  /** The step of a request by a user of another slug leaves a user's credentials alone. */
  predicate MovesOther(w: Codec, s: State, l: Label, slug: string)
  {
    l.Advance? && l.job < |s.jobs| ==> w.slug(s.jobs[l.job].caller.user) != slug
  }

  lemma NextLeavesOthers(w: Codec, s: State, l: Label, slug: string, id: string)
    requires Sound(w) && Good(w, s) && MovesOther(w, s, l, slug)
    ensures SameCredential(w, s.vault, Next(w, s, l).vault, UserHost(slug), id)
  {
    if l.Advance? && l.job < |s.jobs| {
      UnwrittenStays(w, s.vault, s.jobs[l.job], UserHost(slug), id);
    }
  }

  /**
   However many contained requests of users with other slugs take their steps, in whatever order, and whatever writes
   fail, a user's credentials stay as they are.
   */
  lemma {:induction false} NoInterference(w: Codec, s: State, labels: seq<Label>, slug: string, id: string)
    requires Sound(w) && Good(w, s) && AllContained(labels)
    requires forall i :: 0 <= i < |labels| ==> MovesOther(w, After(w, s, labels[..i]), labels[i], slug)
    ensures SameCredential(w, s.vault, After(w, s, labels).vault, UserHost(slug), id)
    decreases |labels|
  {
    if labels != [] {
      var before := labels[..|labels| - 1];
      forall i | 0 <= i < |before|
        ensures MovesOther(w, After(w, s, before[..i]), before[i], slug)
      {
        assert before[..i] == labels[..i];
      }
      NoInterference(w, s, before, slug, id);
      RunIsGood(w, s, before);
      NextLeavesOthers(w, After(w, s, before), labels[|labels| - 1], slug, id);
    }
  }

  /**
   The request of a viewer, or of a caller without a role, changes nothing and is told that it is forbidden; nor does
   any step of a contained request of an operator change a global credential.
   */
  lemma RolesGuard(w: Codec, labels: seq<Label>, i: nat, id: string)
    requires Sound(w) && AllContained(labels) && i < |After(w, START, labels).jobs|
    ensures var s, s' := After(w, START, labels), Next(w, After(w, START, labels), Advance(i));
      && (s.jobs[i].caller.role in {Viewer, NoRole} ==>
            s'.vault == s.vault && s'.jobs[i].stage == Ended(Replied(Forbidden)))
      && (s.jobs[i].caller.role in {Viewer, Operator, NoRole} ==>
            SameCredential(w, s.vault, s'.vault, GlobalHost, id))
  {
    var s := After(w, START, labels);
    assert Good(w, START);
    RunIsGood(w, START, labels);
    if s.jobs[i].caller.role in {Viewer, NoRole} {
      ForbiddenStep(w, s.vault, s.jobs[i]);
    }
    if s.jobs[i].caller.role in {Viewer, Operator, NoRole} {
      LowerStep(w, s.vault, s.jobs[i], id);
    }
  }

  lemma ForbiddenStep(w: Codec, v: Vault, job: Job)
    requires Apt(job) && job.caller.role in {Viewer, NoRole}
    ensures Proceed(w, v, job) == (v, Ended(Replied(Forbidden)))
  {
  }

  lemma LowerStep(w: Codec, v: Vault, job: Job, id: string)
    requires Sound(w) && WellKept(w, v.entries) && ContainedOp(job.op) && Apt(job)
    requires job.caller.role in {Viewer, Operator, NoRole}
    ensures SameCredential(w, v, Proceed(w, v, job).0, GlobalHost, id)
  {
    UnwrittenStays(w, v, job, GlobalHost, id);
  }

  // ---------- whose secret is shown ----------

  /** The place is one of that user, who made one of the requests. */
  ghost predicate ByUserOf(w: Codec, jobs: seq<Job>, host: Host, author: Maybe<string>)
  {
    && author.Some? && host == UserHost(w.slug(author.value))
    && exists i :: 0 <= i < |jobs| && jobs[i].caller.user == author.value
  }

  /** Every secret at a user's place was typed by some user of that slug. */
  ghost predicate Authored(w: Codec, v: Vault, jobs: seq<Job>)
  {
    forall host: Host, id: string :: host.UserHost? && At(w, v.entries, host, SecretKey(id)).Some? ==>
      ByUserOf(w, jobs, host, AuthorAt(v, host, id))
  }

  /** And so was every secret that a request carries or has been shown. */
  ghost predicate JobAuthored(w: Codec, jobs: seq<Job>, job: Job)
  {
    HostOf(w, job).UserHost? ==>
      && (job.stage.Saving? || job.stage.SavingSecret? ==> ByUserOf(w, jobs, HostOf(w, job), Some(job.stage.author)))
      && (job.stage.Ended? && job.stage.answer.Showed? && job.stage.answer.secret != "" ==>
            ByUserOf(w, jobs, HostOf(w, job), job.stage.answer.author))
  }

  ghost predicate AllAuthored(w: Codec, s: State)
  {
    Authored(w, s.vault, s.jobs) && forall i :: 0 <= i < |s.jobs| ==> JobAuthored(w, s.jobs, s.jobs[i])
  }

  ghost predicate SameCallers(jobs: seq<Job>, jobs': seq<Job>)
  {
    |jobs| <= |jobs'| && forall i :: 0 <= i < |jobs| ==> jobs'[i].caller == jobs[i].caller
  }

  lemma ByUserLater(w: Codec, jobs: seq<Job>, jobs': seq<Job>, host: Host, author: Maybe<string>)
    requires ByUserOf(w, jobs, host, author) && SameCallers(jobs, jobs')
    ensures ByUserOf(w, jobs', host, author)
  {
    var i :| 0 <= i < |jobs| && jobs[i].caller.user == author.value;
    assert jobs'[i].caller.user == author.value;
  }

  lemma SettledIsAuthored(w: Codec, v: Vault, jobs: seq<Job>, job: Job)
    requires Sound(w) && WellKept(w, v.entries) && ContainedOp(job.op) && Apt(job) && Authored(w, v, jobs)
    requires job in jobs && job.op.Set? && job.stage.Looked?
    ensures JobAuthored(w, jobs, job.(stage := Proceed(w, v, job).1))
  {
    var r, plan := job.op.request, Settle(w, v.entries, job.caller, job.op.request, job.stage.existing);
    if plan.Store? && HostOf(w, job).UserHost? {
      SettleKnows(w, v, job.caller, r, job.stage.existing);
      if r.secret == "" {
        assert ByUserOf(w, jobs, plan.host, AuthorAt(v, plan.host, IdOf(r)));
      }
    }
  }

  lemma ShownIsAuthored(w: Codec, v: Vault, jobs: seq<Job>, job: Job)
    requires Sound(w) && WellKept(w, v.entries) && Apt(job) && Authored(w, v, jobs)
    requires job.op.Reveal? && job.stage.Revealing?
    ensures JobAuthored(w, jobs, job.(stage := Proceed(w, v, job).1))
  {
    FoundAtHost(w, v.entries, HostOf(w, job), job.op.id);
  }

  lemma ProceedIsAuthored(w: Codec, v: Vault, jobs: seq<Job>, job: Job)
    requires Sound(w) && WellKept(w, v.entries) && ContainedOp(job.op) && Apt(job) && Authored(w, v, jobs)
    requires job in jobs && JobAuthored(w, jobs, job)
    ensures JobAuthored(w, jobs, job.(stage := Proceed(w, v, job).1))
  {
    if job.op.Set? && job.stage.Looked? {
      SettledIsAuthored(w, v, jobs, job);
    } else if job.op.Reveal? && job.stage.Revealing? {
      ShownIsAuthored(w, v, jobs, job);
    }
  }

  lemma WrittenIsAuthored(w: Codec, v: Vault, jobs: seq<Job>, job: Job)
    requires Sound(w) && WellKept(w, v.entries) && ContainedOp(job.op) && Apt(job) && HostOf(w, job).UserHost?
    requires Authored(w, v, jobs) && JobAuthored(w, jobs, job)
    requires At(w, Proceed(w, v, job).0.entries, HostOf(w, job), SecretKey(IdIn(job.op))).Some?
    ensures ByUserOf(w, jobs, HostOf(w, job), AuthorAt(Proceed(w, v, job).0, HostOf(w, job), IdIn(job.op)))
  {
    var host, id := HostOf(w, job), IdIn(job.op);
    StepAt(w, v, job, host, SecretKey(id));
    if !(job.op.Set? && job.stage.SavingSecret? && job.op.done.secretDone) {
      assert At(w, v.entries, host, SecretKey(id)).Some?;
      assert AuthorAt(Proceed(w, v, job).0, host, id) == AuthorAt(v, host, id);
    }
  }

  lemma StepKeepsAuthored(w: Codec, v: Vault, jobs: seq<Job>, job: Job)
    requires Sound(w) && WellKept(w, v.entries) && ContainedOp(job.op) && Apt(job)
    requires Authored(w, v, jobs) && JobAuthored(w, jobs, job)
    ensures Authored(w, Proceed(w, v, job).0, jobs)
  {
    var v' := Proceed(w, v, job).0;
    forall host: Host, id: string | host.UserHost? && At(w, v'.entries, host, SecretKey(id)).Some?
      ensures ByUserOf(w, jobs, host, AuthorAt(v', host, id))
    {
      if Writes(w, job, host, id) {
        WrittenIsAuthored(w, v, jobs, job);
      } else {
        UnwrittenStays(w, v, job, host, id);
      }
    }
  }

  lemma NextKeepsAuthored(w: Codec, s: State, l: Label)
    requires Sound(w) && Good(w, s) && AllAuthored(w, s)
    ensures AllAuthored(w, Next(w, s, l))
  {
    var s' := Next(w, s, l);
    assert SameCallers(s.jobs, s'.jobs);
    if l.Advance? && l.job < |s.jobs| {
      ProceedIsAuthored(w, s.vault, s.jobs, s.jobs[l.job]);
      StepKeepsAuthored(w, s.vault, s.jobs, s.jobs[l.job]);
    }
    AuthoredLater(w, s'.vault, s.jobs, s'.jobs);
    forall i | 0 <= i < |s'.jobs|
      ensures JobAuthored(w, s'.jobs, s'.jobs[i])
    {
      if i < |s.jobs| {
        JobAuthoredLater(w, s.jobs, s'.jobs, s'.jobs[i]);
      }
    }
  }

  lemma AuthoredLater(w: Codec, v: Vault, jobs: seq<Job>, jobs': seq<Job>)
    requires Authored(w, v, jobs) && SameCallers(jobs, jobs')
    ensures Authored(w, v, jobs')
  {
    forall host: Host, id: string | host.UserHost? && At(w, v.entries, host, SecretKey(id)).Some?
      ensures ByUserOf(w, jobs', host, AuthorAt(v, host, id))
    {
      ByUserLater(w, jobs, jobs', host, AuthorAt(v, host, id));
    }
  }

  lemma JobAuthoredLater(w: Codec, jobs: seq<Job>, jobs': seq<Job>, job: Job)
    requires JobAuthored(w, jobs, job) && SameCallers(jobs, jobs')
    ensures JobAuthored(w, jobs', job)
  {
    forall author | ByUserOf(w, jobs, HostOf(w, job), author)
      ensures ByUserOf(w, jobs', HostOf(w, job), author)
    {
      ByUserLater(w, jobs, jobs', HostOf(w, job), author);
    }
  }

  lemma {:induction false} RunIsAuthored(w: Codec, labels: seq<Label>)
    requires Sound(w) && AllContained(labels)
    ensures AllAuthored(w, After(w, START, labels))
    decreases |labels|
  {
    if labels != [] {
      var before := labels[..|labels| - 1];
      RunIsAuthored(w, before);
      assert Good(w, START);
      RunIsGood(w, START, before);
      NextKeepsAuthored(w, After(w, START, before), labels[|labels| - 1]);
    }
  }

  /** The request has shown its caller a secret of one of their own credentials that somebody else typed. */
  predicate ShowsForeign(job: Job)
  {
    && job.stage.Ended? && job.stage.answer.Showed? && job.stage.answer.meta.scope.User?
    && job.stage.answer.secret != "" && job.stage.answer.author != Some(job.caller.user)
  }

  /**
   In every run of contained requests side by side, whatever writes the vault loses, a secret revealed to a user for a
   credential of their own was typed by that user, provided that no other user of the run has the same slug.
   */
  lemma RevealedSecretIsOwn(w: Codec, labels: seq<Label>, i: nat)
    requires Sound(w) && AllContained(labels) && i < |After(w, START, labels).jobs|
    requires var jobs := After(w, START, labels).jobs;
      forall j :: 0 <= j < |jobs| && jobs[j].caller.user != jobs[i].caller.user ==>
        w.slug(jobs[j].caller.user) != w.slug(jobs[i].caller.user)
    ensures !ShowsForeign(After(w, START, labels).jobs[i])
  {
    var jobs := After(w, START, labels).jobs;
    RunIsAuthored(w, labels);
    assert Good(w, START);
    RunIsGood(w, START, labels);
    assert JobAuthored(w, jobs, jobs[i]);
  }
}
