/**
 Runs in which a user is shown a secret that another one typed: each of the provisos under which users of one slug are
 kept apart is needed, for any two such users.
 */
module SlugLeaks {
  import opened Common
  import opened CredentialLaws
  import opened CredentialRuns
  import opened Credentials
  import opened SharedSlugs
  import opened VaultFile

  // ---------- one credential, seen from outside ----------

  /** What stands at a user's place under an id, and who typed the secret. */
  ghost predicate Stands(w: Codec, v: Vault, slug: string, id: string, record: Maybe<Meta>, secret: Maybe<string>,
    author: string)
  {
    && WellKept(w, v.entries)
    && At(w, v.entries, UserHost(slug), MetaKey(id)) == (if record.Some? then Some(w.encode(record.value)) else None)
    && At(w, v.entries, UserHost(slug), SecretKey(id)) == secret
    && (secret.Some? ==> AuthorAt(v, UserHost(slug), id) == Some(author))
  }

  const BOTH: Effect := Effect(true, true)

  /** A request to save a credential under an id that its caller has chosen. */
  function Save(id: string, details: Details, secret: string): SetRequest
  {
    SetRequest(Some(User), id, "", details, secret, 0)
  }

  function Saver(u: string, id: string, details: Details, secret: string, done: Effect, stage: Stage): Job
  {
    Job(Caller(u, Operator), Set(Save(id, details, secret), done), stage)
  }

  function Remover(u: string, id: string, stage: Stage): Job
  {
    Job(Caller(u, Operator), Delete(Some(User), id, BOTH), stage)
  }

  function Revealer(u: string, id: string, stage: Stage): Job
  {
    Job(Caller(u, Operator), Reveal(Some(User), id), stage)
  }

  function Record(u: string, id: string, details: Details): Meta
  {
    NewMeta(Caller(u, Operator), Save(id, details, ""), User, u, None)
  }

  /** An id, details and a secret that a request can be made with. */
  predicate Usable(id: string, details: Details, secret: string)
  {
    PlainText(id) && id != "" && details.label_ != "" && CleanValue(secret) && secret != ""
  }

  lemma SaveIsContained(id: string, details: Details, secret: string)
    requires Usable(id, details, secret)
    ensures Contained(Save(id, details, secret)) && Kept(secret) == secret
  {
    OnlyLineOf(secret);
  }

  /** Where nothing stands, a saver looks and settles on storing what was typed. */
  lemma SaverSettles(w: Codec, v: Vault, u: string, id: string, details: Details, secret: string, done: Effect,
      earlier: Maybe<string>, author: string)
    requires Sound(w) && Usable(id, details, secret) && Stands(w, v, w.slug(u), id, None, earlier, author)
    ensures Proceed(w, v, Saver(u, id, details, secret, done, Begun)) == (v, Looked(None))
    ensures Proceed(w, v, Saver(u, id, details, secret, done, Looked(None)))
         == (v, Saving(Record(u, id, details), secret, u))
  {
    FoundAtHost(w, v.entries, UserHost(w.slug(u)), id);
  }

  lemma SaverSaves(w: Codec, v: Vault, u: string, id: string, details: Details, secret: string, done: Effect,
      slug: string, record: Maybe<Meta>, earlier: Maybe<string>, author: string)
    requires Sound(w) && Usable(id, details, secret) && slug == w.slug(u)
    requires Stands(w, v, slug, id, record, earlier, author)
    ensures var job := Saver(u, id, details, secret, done, Saving(Record(u, id, details), secret, u));
      var (v', stage) := Proceed(w, v, job);
      && stage == SavingSecret(Record(u, id, details), secret, u)
      && Stands(w, v', slug, id, if done.metaDone then Some(Record(u, id, details)) else record, earlier, author)
  {
    var job := Saver(u, id, details, secret, done, Saving(Record(u, id, details), secret, u));
    SaveIsContained(id, details, secret);
    OnlyLineOf(secret);
    ProceedKeepsGood(w, v, job);
    StepAt(w, v, job, UserHost(slug), MetaKey(id));
    StepAt(w, v, job, UserHost(slug), SecretKey(id));
    AuthorAfterStep(w, v, job, UserHost(slug), id);
  }

  lemma SaverSavesSecret(w: Codec, v: Vault, u: string, id: string, details: Details, secret: string, done: Effect,
      slug: string, record: Maybe<Meta>, earlier: Maybe<string>, author: string)
    requires Sound(w) && Usable(id, details, secret) && slug == w.slug(u) && done.secretDone
    requires Stands(w, v, slug, id, record, earlier, author)
    ensures var job := Saver(u, id, details, secret, done, SavingSecret(Record(u, id, details), secret, u));
      var (v', stage) := Proceed(w, v, job);
      stage.Ended? && stage.answer.Replied? && Stands(w, v', slug, id, record, Some(secret), u)
  {
    var job := Saver(u, id, details, secret, done, SavingSecret(Record(u, id, details), secret, u));
    SaveIsContained(id, details, secret);
    OnlyLineOf(secret);
    ProceedKeepsGood(w, v, job);
    StepAt(w, v, job, UserHost(slug), MetaKey(id));
    StepAt(w, v, job, UserHost(slug), SecretKey(id));
    AuthorAfterStep(w, v, job, UserHost(slug), id);
  }

  lemma RemoverLooks(w: Codec, v: Vault, u: string, id: string, details: Details, earlier: Maybe<string>,
      author: string)
    requires Sound(w) && id != "" && Stands(w, v, w.slug(u), id, Some(Record(u, id, details)), earlier, author)
    ensures Proceed(w, v, Remover(u, id, Begun)) == (v, Removing)
  {
  }

  lemma RemoverRemoves(w: Codec, v: Vault, u: string, id: string, record: Maybe<Meta>, author: string)
    requires Sound(w) && Stands(w, v, w.slug(u), id, record, None, author)
    ensures var (v', stage) := Proceed(w, v, Remover(u, id, Removing));
      stage.RemovingSecret? && Stands(w, v', w.slug(u), id, None, None, author)
  {
    var job := Remover(u, id, Removing);
    ProceedKeepsGood(w, v, job);
    StepAt(w, v, job, UserHost(w.slug(u)), MetaKey(id));
    StepAt(w, v, job, UserHost(w.slug(u)), SecretKey(id));
  }

  lemma RemoverEnds(w: Codec, v: Vault, u: string, id: string, any: bool, author: string)
    requires Sound(w) && Stands(w, v, w.slug(u), id, None, None, author)
    ensures var (v', stage) := Proceed(w, v, Remover(u, id, RemovingSecret(any)));
      stage.Ended? && stage.answer.Replied? && Stands(w, v', w.slug(u), id, None, None, author)
  {
    var job := Remover(u, id, RemovingSecret(any));
    ProceedKeepsGood(w, v, job);
    StepAt(w, v, job, UserHost(w.slug(u)), MetaKey(id));
    StepAt(w, v, job, UserHost(w.slug(u)), SecretKey(id));
  }

  /** A reveal shows the record and the secret that stand there, whoever typed that. */
  lemma RevealerShows(w: Codec, v: Vault, u: string, id: string, details: Details, secret: string, author: string)
    requires Sound(w) && id != "" && Stands(w, v, w.slug(u), id, Some(Record(u, id, details)), Some(secret), author)
    ensures Proceed(w, v, Revealer(u, id, Begun)) == (v, Revealing(Record(u, id, details)))
    ensures Proceed(w, v, Revealer(u, id, Revealing(Record(u, id, details))))
         == (v, Ended(Showed(Record(u, id, details), secret, Some(author))))
  {
  }

  // ---------- pieces of runs ----------

  lemma AfterOne(w: Codec, s: State, l: Label)
    ensures After(w, s, [l]) == Next(w, s, l)
  {
    assert [l][..0] == [];
  }

  lemma AfterTwo(w: Codec, s: State, a: Label, b: Label)
    ensures After(w, s, [a, b]) == Next(w, Next(w, s, a), b)
  {
    AfterOne(w, s, a);
    assert [a, b][..1] == [a];
  }

  lemma AfterThree(w: Codec, s: State, a: Label, b: Label, c: Label)
    ensures After(w, s, [a, b, c]) == Next(w, Next(w, Next(w, s, a), b), c)
  {
    AfterTwo(w, s, a, b);
    assert [a, b, c][..2] == [a, b];
  }

  lemma AfterFour(w: Codec, s: State, a: Label, b: Label, c: Label, d: Label)
    ensures After(w, s, [a, b, c, d]) == Next(w, Next(w, Next(w, Next(w, s, a), b), c), d)
  {
    AfterThree(w, s, a, b, c);
    assert [a, b, c, d][..3] == [a, b, c];
  }

  /** The last request takes a step. */
  lemma LastMoves(w: Codec, v: Vault, jobs: seq<Job>, job: Job)
    ensures var (v', stage) := Proceed(w, v, job);
      Next(w, State(v, jobs + [job]), Advance(|jobs|)) == State(v', jobs + [job.(stage := stage)])
  {
    var stage := Proceed(w, v, job).1;
    assert (jobs + [job])[|jobs| := job.(stage := stage)] == jobs + [job.(stage := stage)];
  }

  /** A request to save comes in and goes as far as its first write. */
  function SaverIn(n: nat, u: string, id: string, details: Details, secret: string, done: Effect): seq<Label>
  {
    [Arrive(Caller(u, Operator), Set(Save(id, details, secret), done)), Advance(n), Advance(n), Advance(n)]
  }

  lemma SaverComes(w: Codec, s: State, u: string, id: string, details: Details, secret: string, done: Effect,
      slug: string, earlier: Maybe<string>, author: string)
    requires Sound(w) && Usable(id, details, secret) && slug == w.slug(u)
    requires Stands(w, s.vault, slug, id, None, earlier, author)
    ensures var m, s' := Record(u, id, details), After(w, s, SaverIn(|s.jobs|, u, id, details, secret, done));
      && s'.jobs == s.jobs + [Saver(u, id, details, secret, done, SavingSecret(m, secret, u))]
      && Stands(w, s'.vault, slug, id, if done.metaDone then Some(m) else None, earlier, author)
  {
    var v, jobs, n, m := s.vault, s.jobs, |s.jobs|, Record(u, id, details);
    AfterFour(w, s, Arrive(Caller(u, Operator), Set(Save(id, details, secret), done)), Advance(n), Advance(n),
              Advance(n));
    SaverSettles(w, v, u, id, details, secret, done, earlier, author);
    LastMoves(w, v, jobs, Saver(u, id, details, secret, done, Begun));
    LastMoves(w, v, jobs, Saver(u, id, details, secret, done, Looked(None)));
    LastMoves(w, v, jobs, Saver(u, id, details, secret, done, Saving(m, secret, u)));
    SaverSaves(w, v, u, id, details, secret, done, slug, None, earlier, author);
  }

  /** A request to reveal comes in and is answered. */
  function RevealerIn(n: nat, u: string, id: string): seq<Label>
  {
    [Arrive(Caller(u, Operator), Reveal(Some(User), id)), Advance(n), Advance(n)]
  }

  lemma RevealerComes(w: Codec, s: State, u: string, id: string, details: Details, secret: string, author: string)
    requires Sound(w) && id != ""
    requires Stands(w, s.vault, w.slug(u), id, Some(Record(u, id, details)), Some(secret), author)
    ensures After(w, s, RevealerIn(|s.jobs|, u, id)).jobs
         == s.jobs + [Revealer(u, id, Ended(Showed(Record(u, id, details), secret, Some(author))))]
  {
    var v, jobs, n := s.vault, s.jobs, |s.jobs|;
    AfterThree(w, s, Arrive(Caller(u, Operator), Reveal(Some(User), id)), Advance(n), Advance(n));
    RevealerShows(w, v, u, id, details, secret, author);
    LastMoves(w, v, jobs, Revealer(u, id, Begun));
    LastMoves(w, v, jobs, Revealer(u, id, Revealing(Record(u, id, details))));
  }

  /** A request to delete comes in while there is no secret, and is answered. */
  function RemoverIn(n: nat, u: string, id: string): seq<Label>
  {
    [Arrive(Caller(u, Operator), Delete(Some(User), id, BOTH)), Advance(n), Advance(n), Advance(n)]
  }

  lemma RemoverComes(w: Codec, s: State, u: string, id: string, details: Details, author: string)
    requires Sound(w) && id != "" && Stands(w, s.vault, w.slug(u), id, Some(Record(u, id, details)), None, author)
    ensures var s' := After(w, s, RemoverIn(|s.jobs|, u, id));
      && |s'.jobs| == |s.jobs| + 1 && s'.jobs[..|s.jobs|] == s.jobs
      && Stands(w, s'.vault, w.slug(u), id, None, None, author)
      && s'.jobs[|s.jobs|].stage.Ended? && s'.jobs[|s.jobs|].stage.answer.Replied?
      && s'.jobs[|s.jobs|] == Remover(u, id, s'.jobs[|s.jobs|].stage)
  {
    var v, jobs, n := s.vault, s.jobs, |s.jobs|;
    AfterFour(w, s, Arrive(Caller(u, Operator), Delete(Some(User), id, BOTH)), Advance(n), Advance(n), Advance(n));
    RemoverLooks(w, v, u, id, details, None, author);
    LastMoves(w, v, jobs, Remover(u, id, Begun));
    LastMoves(w, v, jobs, Remover(u, id, Removing));
    RemoverRemoves(w, v, u, id, Some(Record(u, id, details)), author);
    var (v', stage) := Proceed(w, v, Remover(u, id, Removing));
    LastMoves(w, v', jobs, Remover(u, id, stage));
    RemoverEnds(w, v', u, id, stage.any, author);
  }

  // ---------- an orphaned secret is shown ----------

  /** The second user saves a credential, and looks at it before its secret is written. */
  function LookEarly(n: nat, u: string, id: string, details: Details, secret: string): seq<Label>
  {
    SaverIn(n, u, id, details, secret, BOTH) + RevealerIn(n + 1, u, id)
  }

  lemma LookEarlyEnds(w: Codec, s: State, u: string, id: string, details: Details, other: string, secret: string,
      author: string)
    requires Sound(w) && Usable(id, details, other)
    requires Stands(w, s.vault, w.slug(u), id, None, Some(secret), author)
    ensures After(w, s, LookEarly(|s.jobs|, u, id, details, other)).jobs ==
      s.jobs + [Saver(u, id, details, other, BOTH, SavingSecret(Record(u, id, details), other, u))]
             + [Revealer(u, id, Ended(Showed(Record(u, id, details), secret, Some(author))))]
  {
    var first := SaverIn(|s.jobs|, u, id, details, other, BOTH);
    SaverComes(w, s, u, id, details, other, BOTH, w.slug(u), Some(secret), author);
    RevealerComes(w, After(w, s, first), u, id, details, secret, author);
    AfterConcat(w, s, first, RevealerIn(|s.jobs| + 1, u, id));
  }

  /** If a secret stands without a record, that shows it. */
  lemma OrphanIsShown(w: Codec, s: State, u: string, id: string, details: Details, other: string, secret: string,
      author: string)
    requires Sound(w) && Usable(id, details, other) && secret != "" && author != u
    requires Stands(w, s.vault, w.slug(u), id, None, Some(secret), author)
    ensures var jobs := After(w, s, LookEarly(|s.jobs|, u, id, details, other)).jobs;
      |jobs| == |s.jobs| + 2 && jobs[|s.jobs| + 1].caller.user == u && ShowsForeign(jobs[|s.jobs| + 1])
      && jobs[|s.jobs| + 1].stage.answer.secret == secret
  {
    LookEarlyEnds(w, s, u, id, details, other, secret, author);
  }

  // ---------- which provisos a run meets ----------

  predicate Came(labels: seq<Label>, job: Job)
  {
    exists k :: 0 <= k < |labels| && labels[k] == Arrive(job.caller, job.op)
  }

  lemma {:induction false} OpsCame(w: Codec, labels: seq<Label>)
    ensures forall i :: 0 <= i < |After(w, START, labels).jobs| ==> Came(labels, After(w, START, labels).jobs[i])
    decreases |labels|
  {
    if labels != [] {
      var before, last := labels[..|labels| - 1], labels[|labels| - 1];
      var jobs, jobs' := After(w, START, before).jobs, After(w, START, labels).jobs;
      OpsCame(w, before);
      forall i | 0 <= i < |jobs'|
        ensures Came(labels, jobs'[i])
      {
        if i < |jobs| {
          assert Came(before, jobs[i]);
          var k :| 0 <= k < |before| && before[k] == Arrive(jobs[i].caller, jobs[i].op);
          assert labels[k] == Arrive(jobs'[i].caller, jobs'[i].op);
        } else {
          assert labels[|labels| - 1] == Arrive(jobs'[i].caller, jobs'[i].op);
        }
      }
    }
  }

  /** Every request to save has an id that its caller chose. */
  predicate IdsChosen(labels: seq<Label>)
  {
    forall k :: 0 <= k < |labels| && labels[k].Arrive? && labels[k].op.Set? ==> labels[k].op.request.id != ""
  }

  predicate NoDeletes(labels: seq<Label>)
  {
    forall k :: 0 <= k < |labels| && labels[k].Arrive? ==> !labels[k].op.Delete?
  }

  lemma ChosenIsFresh(w: Codec, labels: seq<Label>)
    requires IdsChosen(labels)
    ensures AlwaysFresh(w, labels)
  {
    forall k | 0 <= k < |labels|
      ensures FreshLook(w, After(w, START, labels[..k]), labels[k])
    {
      OpsCame(w, labels[..k]);
    }
  }

  lemma NoDeletesNeverClash(w: Codec, labels: seq<Label>, host: Host, id: string)
    requires NoDeletes(labels)
    ensures NeverSaveInDelete(w, labels, host, id)
  {
    forall k | 0 <= k <= |labels|
      ensures NoSaveInDelete(w, After(w, START, labels[..k]).jobs, host, id)
    {
      OpsCame(w, labels[..k]);
    }
  }

  /** The first `m` requests have been answered, all others are by one user. */
  predicate OnlyBusy(jobs: seq<Job>, m: nat, user: string)
  {
    && m <= |jobs|
    && (forall i :: 0 <= i < m ==> jobs[i].stage.Ended?)
    && (forall i :: m <= i < |jobs| ==> jobs[i].caller.user == user)
  }

  predicate ComesFrom(labels: seq<Label>, user: string)
  {
    forall k :: 0 <= k < |labels| && labels[k].Arrive? ==> labels[k].caller.user == user
  }

  lemma {:induction false} StaysBusy(w: Codec, s: State, labels: seq<Label>, m: nat, user: string)
    requires OnlyBusy(s.jobs, m, user) && ComesFrom(labels, user)
    ensures OnlyBusy(After(w, s, labels).jobs, m, user)
    decreases |labels|
  {
    if labels != [] {
      StaysBusy(w, s, labels[..|labels| - 1], m, user);
    }
  }

  /** One user's requests, all answered, and then another user's. */
  lemma TurnsAreOneUser(w: Codec, first: seq<Label>, second: seq<Label>, u: string, u': string, host: Host, id: string)
    requires ComesFrom(first, u) && ComesFrom(second, u')
    requires forall i :: 0 <= i < |After(w, START, first).jobs| ==> After(w, START, first).jobs[i].stage.Ended?
    ensures AlwaysOneUser(w, first + second, host, id)
  {
    var labels, mid := first + second, After(w, START, first);
    forall k | 0 <= k <= |labels|
      ensures OneUser(w, After(w, START, labels[..k]).jobs, host, id)
    {
      if k <= |first| {
        assert labels[..k] == first[..k];
        StaysBusy(w, START, first[..k], 0, u);
      } else {
        assert labels[..k] == first + second[..k - |first|];
        AfterConcat(w, START, first, second[..k - |first|]);
        StaysBusy(w, mid, second[..k - |first|], |mid.jobs|, u');
      }
    }
  }

  /** In that run the user is shown a secret that somebody else typed. */
  ghost predicate Leaks(w: Codec, labels: seq<Label>, user: string, secret: string)
  {
    exists job :: job in After(w, START, labels).jobs && ShowsForeign(job) && job.caller.user == user
                  && job.stage.answer.secret == secret
  }

  lemma NothingStands(w: Codec, slug: string, id: string, author: string)
    ensures Stands(w, START.vault, slug, id, None, None, author)
  {
  }

  lemma OrphanLeaks(w: Codec, first: seq<Label>, u: string, u': string, id: string, details: Details, other: string,
      secret: string, n: nat)
    requires Sound(w) && Usable(id, details, other) && secret != "" && u != u' && n == |After(w, START, first).jobs|
    requires Stands(w, After(w, START, first).vault, w.slug(u'), id, None, Some(secret), u)
    ensures Leaks(w, first + LookEarly(n, u', id, details, other), u', secret)
  {
    AfterConcat(w, START, first, LookEarly(n, u', id, details, other));
    OrphanIsShown(w, After(w, START, first), u', id, details, other, secret, u);
    var job := After(w, START, first + LookEarly(n, u', id, details, other)).jobs[n + 1];
    assert ShowsForeign(job);
  }

  /** What a step of a run can be seen to be: contained, with a chosen id, whole, no deletion. */
  predicate ShapedLabel(l: Label, whole: bool, saves: bool)
  {
    l.Arrive? ==>
      && ContainedOp(l.op) && (l.op.Set? ==> l.op.request.id != "")
      && (whole ==> Whole(l.op)) && (saves ==> !l.op.Delete?)
  }

  predicate Shaped(labels: seq<Label>, whole: bool, saves: bool)
  {
    forall k :: 0 <= k < |labels| ==> ShapedLabel(labels[k], whole, saves)
  }

  lemma ShapeTells(labels: seq<Label>, whole: bool, saves: bool)
    requires Shaped(labels, whole, saves)
    ensures AllContained(labels) && IdsChosen(labels)
    ensures (whole ==> AllWhole(labels)) && (saves ==> NoDeletes(labels))
  {
    forall k | 0 <= k < |labels|
      ensures ContainedLabel(labels[k])
      ensures labels[k].Arrive? && labels[k].op.Set? ==> labels[k].op.request.id != ""
      ensures whole && labels[k].Arrive? ==> Whole(labels[k].op)
      ensures saves && labels[k].Arrive? ==> !labels[k].op.Delete?
    {
      assert ShapedLabel(labels[k], whole, saves);
    }
  }

  lemma ShapedConcat(a: seq<Label>, b: seq<Label>, whole: bool, saves: bool)
    requires Shaped(a, whole, saves) && Shaped(b, whole, saves)
    ensures Shaped(a + b, whole, saves)
  {
    var all := a + b;
    forall k | 0 <= k < |all|
      ensures ShapedLabel(all[k], whole, saves)
    {
      assert all[k] == if k < |a| then a[k] else b[k - |a|];
    }
  }

  lemma ComesFromConcat(a: seq<Label>, b: seq<Label>, user: string)
    requires ComesFrom(a, user) && ComesFrom(b, user)
    ensures ComesFrom(a + b, user)
  {
  }

  lemma SaverIsShaped(n: nat, u: string, id: string, details: Details, secret: string, done: Effect)
    requires Usable(id, details, secret)
    ensures var labels := SaverIn(n, u, id, details, secret, done);
      Shaped(labels, done == BOTH, true) && ComesFrom(labels, u)
  {
    SaveIsContained(id, details, secret);
  }

  lemma LookEarlyIsShaped(n: nat, u: string, id: string, details: Details, secret: string)
    requires Usable(id, details, secret)
    ensures var labels := LookEarly(n, u, id, details, secret); Shaped(labels, true, true) && ComesFrom(labels, u)
  {
    SaverIsShaped(n, u, id, details, secret, BOTH);
    ShapedConcat(SaverIn(n, u, id, details, secret, BOTH), RevealerIn(n + 1, u, id), true, true);
    ComesFromConcat(SaverIn(n, u, id, details, secret, BOTH), RevealerIn(n + 1, u, id), u);
  }

  // ---------- half of a request is lost ----------

  /** The first user saves a credential, but its record is lost. */
  function HalfLost(u: string, id: string, details: Details, secret: string): seq<Label>
  {
    SaverIn(0, u, id, details, secret, Effect(false, true)) + [Advance(0)]
  }

  lemma HalfLostIsShaped(u: string, id: string, details: Details, secret: string)
    requires Usable(id, details, secret)
    ensures var labels := HalfLost(u, id, details, secret); Shaped(labels, false, true) && ComesFrom(labels, u)
  {
    var labels := SaverIn(0, u, id, details, secret, Effect(false, true));
    SaverIsShaped(0, u, id, details, secret, Effect(false, true));
    ShapedConcat(labels, [Advance(0)], false, true);
    ComesFromConcat(labels, [Advance(0)], u);
  }

  lemma HalfLostLeavesOrphan(w: Codec, u: string, id: string, details: Details, secret: string)
    requires Sound(w) && Usable(id, details, secret)
    ensures var s := After(w, START, HalfLost(u, id, details, secret));
      |s.jobs| == 1 && s.jobs[0].stage.Ended? && Stands(w, s.vault, w.slug(u), id, None, Some(secret), u)
  {
    var done, slug := Effect(false, true), w.slug(u);
    var s := After(w, START, SaverIn(0, u, id, details, secret, done));
    NothingStands(w, slug, id, u);
    SaverComes(w, START, u, id, details, secret, done, slug, None, u);
    AfterConcat(w, START, SaverIn(0, u, id, details, secret, done), [Advance(0)]);
    AfterOne(w, s, Advance(0));
    SaverSavesSecret(w, s.vault, u, id, details, secret, done, slug, None, None, u);
  }

  /**
   The vault must lose no half of a request: for any two users with one slug there is a run, with one write lost, in
   which they take turns and the second is shown what the first one typed.
   */
  lemma HalfLostLeaks(w: Codec, u: string, u': string, id: string, details: Details, secret: string, other: string)
    requires Sound(w) && u != u' && w.slug(u) == w.slug(u')
    requires Usable(id, details, secret) && Usable(id, details, other)
    ensures var labels := HalfLost(u, id, details, secret) + LookEarly(1, u', id, details, other);
      && AllContained(labels) && AlwaysFresh(w, labels)
      && AlwaysOneUser(w, labels, UserHost(w.slug(u)), id) && NeverSaveInDelete(w, labels, UserHost(w.slug(u)), id)
      && Leaks(w, labels, u', secret)
  {
    var first, second := HalfLost(u, id, details, secret), LookEarly(1, u', id, details, other);
    HalfLostIsShaped(u, id, details, secret);
    LookEarlyIsShaped(1, u', id, details, other);
    ShapedConcat(first, second, false, true);
    ShapeTells(first + second, false, true);
    HalfLostLeavesOrphan(w, u, id, details, secret);
    ChosenIsFresh(w, first + second);
    NoDeletesNeverClash(w, first + second, UserHost(w.slug(u)), id);
    TurnsAreOneUser(w, first, second, u, u', UserHost(w.slug(u)), id);
    OrphanLeaks(w, first, u, u', id, details, other, secret, 1);
  }

  // ---------- a credential is saved while it is being deleted ----------

  /** The first user's credential is deleted between the writing of its record and of its secret. */
  function SaveInDelete(u: string, id: string, details: Details, secret: string): seq<Label>
  {
    SaverIn(0, u, id, details, secret, BOTH) + RemoverIn(1, u, id) + [Advance(0)]
  }

  lemma SaveInDeleteIsShaped(u: string, id: string, details: Details, secret: string)
    requires Usable(id, details, secret)
    ensures var labels := SaveInDelete(u, id, details, secret); Shaped(labels, true, false) && ComesFrom(labels, u)
  {
    var a, b := SaverIn(0, u, id, details, secret, BOTH), RemoverIn(1, u, id);
    SaverIsShaped(0, u, id, details, secret, BOTH);
    ShapedConcat(a, b, true, false);
    ComesFromConcat(a, b, u);
    ShapedConcat(a + b, [Advance(0)], true, false);
    ComesFromConcat(a + b, [Advance(0)], u);
  }

  lemma SaveInDeleteLeavesOrphan(w: Codec, u: string, id: string, details: Details, secret: string)
    requires Sound(w) && Usable(id, details, secret)
    ensures var s := After(w, START, SaveInDelete(u, id, details, secret));
      && |s.jobs| == 2 && s.jobs[0].stage.Ended? && s.jobs[1].stage.Ended?
      && Stands(w, s.vault, w.slug(u), id, None, Some(secret), u)
  {
    var slug, a, b := w.slug(u), SaverIn(0, u, id, details, secret, BOTH), RemoverIn(1, u, id);
    var s := After(w, START, a);
    NothingStands(w, slug, id, u);
    SaverComes(w, START, u, id, details, secret, BOTH, slug, None, u);
    RemoverComes(w, s, u, id, details, u);
    AfterConcat(w, START, a, b);
    AfterConcat(w, START, a + b, [Advance(0)]);
    var s' := After(w, START, a + b);
    AfterOne(w, s', Advance(0));
    assert s'.jobs[0] == s.jobs[0];
    SaverSavesSecret(w, s'.vault, u, id, details, secret, BOTH, slug, None, None, u);
  }

  /**
   A credential must not be saved while it is being deleted: for any two users with one slug there is a run, with no
   write lost, in which they take turns and the second is shown what the first one typed.
   */
  lemma SaveInDeleteLeaks(w: Codec, u: string, u': string, id: string, details: Details, secret: string, other: string)
    requires Sound(w) && u != u' && w.slug(u) == w.slug(u')
    requires Usable(id, details, secret) && Usable(id, details, other)
    ensures var labels := SaveInDelete(u, id, details, secret) + LookEarly(2, u', id, details, other);
      && AllContained(labels) && AlwaysFresh(w, labels) && AllWhole(labels)
      && AlwaysOneUser(w, labels, UserHost(w.slug(u)), id) && Leaks(w, labels, u', secret)
  {
    var first, second := SaveInDelete(u, id, details, secret), LookEarly(2, u', id, details, other);
    SaveInDeleteIsShaped(u, id, details, secret);
    LookEarlyIsShaped(2, u', id, details, other);
    ShapedConcat(first, second, true, false);
    ShapeTells(first + second, true, false);
    SaveInDeleteLeavesOrphan(w, u, id, details, secret);
    ChosenIsFresh(w, first + second);
    TurnsAreOneUser(w, first, second, u, u', UserHost(w.slug(u)), id);
    OrphanLeaks(w, first, u, u', id, details, other, secret, 2);
  }

  // ---------- two users at once ----------

  /** Both users have come to save, and both have found nothing. */
  function BothLook(u: string, u': string, id: string, details: Details, secret: string, other: string): seq<Label>
  {
    [Arrive(Caller(u, Operator), Set(Save(id, details, secret), BOTH)),
     Arrive(Caller(u', Operator), Set(Save(id, details, other), BOTH))]
    + [Advance(0), Advance(0), Advance(1), Advance(1)]
  }

  lemma TwoMove(w: Codec, v: Vault, a: Job, b: Job)
    ensures var (v', stage) := Proceed(w, v, a);
      Next(w, State(v, [a, b]), Advance(0)) == State(v', [a.(stage := stage), b])
    ensures var (v', stage) := Proceed(w, v, b);
      Next(w, State(v, [a, b]), Advance(1)) == State(v', [a, b.(stage := stage)])
  {
  }

  lemma BothSettle(w: Codec, u: string, u': string, id: string, details: Details, secret: string, other: string)
    requires Sound(w) && Usable(id, details, secret) && Usable(id, details, other)
    ensures After(w, START, BothLook(u, u', id, details, secret, other)) ==
      State(START.vault, [Saver(u, id, details, secret, BOTH, Saving(Record(u, id, details), secret, u)),
                          Saver(u', id, details, other, BOTH, Saving(Record(u', id, details), other, u'))])
  {
    var v := START.vault;
    var a, b := Saver(u, id, details, secret, BOTH, Begun), Saver(u', id, details, other, BOTH, Begun);
    var a1, b1 := a.(stage := Looked(None)), b.(stage := Looked(None));
    var a2 := a.(stage := Saving(Record(u, id, details), secret, u));
    NothingStands(w, w.slug(u), id, u);
    NothingStands(w, w.slug(u'), id, u');
    SaverSettles(w, v, u, id, details, secret, BOTH, None, u);
    SaverSettles(w, v, u', id, details, other, BOTH, None, u');
    AfterTwo(w, START, Arrive(a.caller, a.op), Arrive(b.caller, b.op));
    assert Next(w, Next(w, START, Arrive(a.caller, a.op)), Arrive(b.caller, b.op)) == State(v, [a, b]);
    AfterFour(w, State(v, [a, b]), Advance(0), Advance(0), Advance(1), Advance(1));
    TwoMove(w, v, a, b);
    TwoMove(w, v, a1, b);
    TwoMove(w, v, a2, b);
    TwoMove(w, v, a2, b1);
    AfterConcat(w, START, [Arrive(a.caller, a.op), Arrive(b.caller, b.op)],
                [Advance(0), Advance(0), Advance(1), Advance(1)]);
  }

  /** The second user's record replaces the first one's, and the first one's secret the second one's. */
  lemma BothSave(w: Codec, u: string, u': string, id: string, details: Details, secret: string, other: string,
      slug: string, s: State)
    requires Sound(w) && Usable(id, details, secret) && Usable(id, details, other) && slug == w.slug(u) == w.slug(u')
    requires s == State(START.vault, [Saver(u, id, details, secret, BOTH, Saving(Record(u, id, details), secret, u)),
                                      Saver(u', id, details, other, BOTH, Saving(Record(u', id, details), other, u'))])
    ensures Stands(w, After(w, s, [Advance(0)]).vault, slug, id, Some(Record(u, id, details)), None, u)
    ensures Stands(w, After(w, s, [Advance(0), Advance(1)]).vault, slug, id, Some(Record(u', id, details)), None, u)
    ensures var s' := After(w, s, [Advance(0), Advance(1), Advance(1), Advance(0)]);
      |s'.jobs| == 2 && Stands(w, s'.vault, slug, id, Some(Record(u', id, details)), Some(secret), u)
  {
    var v, a, b := s.vault, s.jobs[0], s.jobs[1];
    AfterOne(w, s, Advance(0));
    AfterTwo(w, s, Advance(0), Advance(1));
    AfterFour(w, s, Advance(0), Advance(1), Advance(1), Advance(0));
    NothingStands(w, slug, id, u);
    SaverSaves(w, v, u, id, details, secret, BOTH, slug, None, None, u);
    TwoMove(w, v, a, b);
    var (v1, st1) := Proceed(w, v, a);
    SaverSaves(w, v1, u', id, details, other, BOTH, slug, Some(Record(u, id, details)), None, u);
    TwoMove(w, v1, a.(stage := st1), b);
    var (v2, st2) := Proceed(w, v1, b);
    SaverSavesSecret(w, v2, u', id, details, other, BOTH, slug, Some(Record(u', id, details)), None, u);
    TwoMove(w, v2, a.(stage := st1), b.(stage := st2));
    var (v3, st3) := Proceed(w, v2, b.(stage := st2));
    SaverSavesSecret(w, v3, u, id, details, secret, BOTH, slug, Some(Record(u', id, details)), Some(other), u');
    TwoMove(w, v3, a.(stage := st1), b.(stage := st3));
  }

  function Race(u: string, u': string, id: string, details: Details, secret: string, other: string): seq<Label>
  {
    BothLook(u, u', id, details, secret, other) + [Advance(0), Advance(1), Advance(1), Advance(0)]
    + RevealerIn(2, u', id)
  }

  lemma RaceIsShaped(u: string, u': string, id: string, details: Details, secret: string, other: string)
    requires Usable(id, details, secret) && Usable(id, details, other)
    ensures Shaped(Race(u, u', id, details, secret, other), true, true)
  {
    var a := Arrive(Caller(u, Operator), Set(Save(id, details, secret), BOTH));
    var b := Arrive(Caller(u', Operator), Set(Save(id, details, other), BOTH));
    var look := [Advance(0), Advance(0), Advance(1), Advance(1)];
    var save := [Advance(0), Advance(1), Advance(1), Advance(0)];
    SaveIsContained(id, details, secret);
    SaveIsContained(id, details, other);
    assert ShapedLabel(a, true, true) && ShapedLabel(b, true, true);
    ShapedConcat([a, b], look, true, true);
    ShapedConcat([a, b] + look, save, true, true);
    ShapedConcat([a, b] + look + save, RevealerIn(2, u', id), true, true);
  }

  /** Where the race leads. */
  lemma RaceEnds(w: Codec, u: string, u': string, id: string, details: Details, secret: string, other: string)
    requires Sound(w) && w.slug(u) == w.slug(u') && Usable(id, details, secret) && Usable(id, details, other)
    ensures var s := After(w, START, Race(u, u', id, details, secret, other));
      |s.jobs| == 3
      && s.jobs[2] == Revealer(u', id, Ended(Showed(Record(u', id, details), secret, Some(u))))
  {
    var look, save := BothLook(u, u', id, details, secret, other), [Advance(0), Advance(1), Advance(1), Advance(0)];
    BothSettle(w, u, u', id, details, secret, other);
    BothSave(w, u, u', id, details, secret, other, w.slug(u), After(w, START, look));
    AfterConcat(w, START, look, save);
    AfterConcat(w, START, look + save, RevealerIn(2, u', id));
    RevealerComes(w, After(w, START, look + save), u', id, details, secret, u);
  }

  lemma RecordIsOwned(w: Codec, v: Vault, slug: string, id: string, u: string, details: Details, author: string)
    requires Sound(w) && Stands(w, v, slug, id, Some(Record(u, id, details)), None, author)
    ensures OwnerAt(w, v.entries, UserHost(slug), id) == Some(u)
  {
  }

  lemma RacePrefixes(u: string, u': string, id: string, details: Details, secret: string, other: string)
    ensures var look, labels := BothLook(u, u', id, details, secret, other), Race(u, u', id, details, secret, other);
      labels[..7] == look + [Advance(0)] && labels[..8] == look + [Advance(0), Advance(1)]
  {
  }

  /** The record changes hands. */
  lemma RaceReplaces(w: Codec, u: string, u': string, id: string, details: Details, secret: string, other: string)
    requires Sound(w) && w.slug(u) == w.slug(u') && Usable(id, details, secret) && Usable(id, details, other)
    ensures var labels, host := Race(u, u', id, details, secret, other), UserHost(w.slug(u));
      && OwnerAt(w, After(w, START, labels[..7]).vault.entries, host, id) == Some(u)
      && OwnerAt(w, After(w, START, labels[..8]).vault.entries, host, id) == Some(u')
  {
    var look, slug := BothLook(u, u', id, details, secret, other), w.slug(u);
    var s := After(w, START, look);
    BothSettle(w, u, u', id, details, secret, other);
    BothSave(w, u, u', id, details, secret, other, slug, s);
    RecordIsOwned(w, After(w, s, [Advance(0)]).vault, slug, id, u, details, u);
    RecordIsOwned(w, After(w, s, [Advance(0), Advance(1)]).vault, slug, id, u', details, u);
    RacePrefixes(u, u', id, details, secret, other);
    AfterConcat(w, START, look, [Advance(0)]);
    AfterConcat(w, START, look, [Advance(0), Advance(1)]);
  }

  /**
   Two users must not be at work on one credential at the same time: for any two users with one slug there is a run,
   with no write lost and no deletion, in which the second one's record replaces the first one's and then comes to
   stand beside the first one's secret, which the second user is shown.
   */
  lemma RaceLeaks(w: Codec, u: string, u': string, id: string, details: Details, secret: string, other: string)
    requires Sound(w) && u != u' && w.slug(u) == w.slug(u')
    requires Usable(id, details, secret) && Usable(id, details, other)
    ensures var labels, host := Race(u, u', id, details, secret, other), UserHost(w.slug(u));
      && AllContained(labels) && AlwaysFresh(w, labels) && AllWhole(labels) && NeverSaveInDelete(w, labels, host, id)
      && Leaks(w, labels, u', secret)
      && OwnerAt(w, After(w, START, labels[..7]).vault.entries, host, id) == Some(u)
      && OwnerAt(w, After(w, START, labels[..8]).vault.entries, host, id) == Some(u')
  {
    var labels := Race(u, u', id, details, secret, other);
    RaceIsShaped(u, u', id, details, secret, other);
    ShapeTells(labels, true, true);
    ChosenIsFresh(w, labels);
    NoDeletesNeverClash(w, labels, UserHost(w.slug(u)), id);
    RaceEnds(w, u, u', id, details, secret, other);
    RaceReplaces(w, u, u', id, details, secret, other);
    assert ShowsForeign(After(w, START, labels).jobs[2]);
  }
}
