/**
 Two users whose names have one slug share a place in the vault, and may even use the same id. What keeps their
 credentials apart, what does not, and why.
 */
module SharedSlugs {
  import opened Common
  import opened CredentialLaws
  import opened CredentialRuns
  import opened Credentials
  import opened VaultFile

  // ---------- who is at work on a credential ----------

  /** The owner of the record at a place. */
  function OwnerAt(w: Codec, es: seq<Entry>, host: Host, id: string): Maybe<string>
  {
    match At(w, es, host, MetaKey(id))
    case None => None
    case Some(text) => if w.decode(text).Some? then Some(w.decode(text).value.owner) else None
  }

  predicate IsAt(w: Codec, job: Job, host: Host, id: string)
  {
    HostOf(w, job) == host && IdIn(job.op) == id
  }

  /** A request is in flight from its first look into the vault up to its answer. */
  predicate InFlight(w: Codec, job: Job, host: Host, id: string)
  {
    !job.stage.Begun? && !job.stage.Ended? && IsAt(w, job, host, id)
  }

  /** No two users have requests for one credential in flight. */
  ghost predicate OneUser(w: Codec, jobs: seq<Job>, host: Host, id: string)
  {
    forall i, j | 0 <= i < |jobs| && 0 <= j < |jobs| ::
      InFlight(w, jobs[i], host, id) && InFlight(w, jobs[j], host, id) ==>
        jobs[i].caller.user == jobs[j].caller.user
  }

  /** A credential is not saved while it is being deleted. */
  ghost predicate NoSaveInDelete(w: Codec, jobs: seq<Job>, host: Host, id: string)
  {
    forall i, j | 0 <= i < |jobs| && 0 <= j < |jobs| ::
      InFlight(w, jobs[i], host, id) && InFlight(w, jobs[j], host, id) ==>
        !(jobs[i].op.Set? && jobs[j].op.Delete?)
  }

  /** The vault carries out both writes of a request, or neither. */
  predicate Whole(op: Op)
  {
    op.Reveal? || op.done.metaDone == op.done.secretDone
  }

  /** An id generated for a request is new to the vault. */
  ghost predicate FreshId(w: Codec, es: seq<Entry>, op: Op)
  {
    op.Set? && op.request.id == "" ==>
      forall host: Host ::
        At(w, es, host, MetaKey(op.request.newId)).None? && At(w, es, host, SecretKey(op.request.newId)).None?
  }

  ghost predicate FreshLook(w: Codec, s: State, l: Label)
  {
    l.Advance? && l.job < |s.jobs| && s.jobs[l.job].stage.Begun? ==> FreshId(w, s.vault.entries, s.jobs[l.job].op)
  }

  ghost predicate AlwaysFresh(w: Codec, labels: seq<Label>)
  {
    forall k :: 0 <= k < |labels| ==> FreshLook(w, After(w, START, labels[..k]), labels[k])
  }

  ghost predicate AlwaysOneUser(w: Codec, labels: seq<Label>, host: Host, id: string)
  {
    forall k :: 0 <= k <= |labels| ==> OneUser(w, After(w, START, labels[..k]).jobs, host, id)
  }

  ghost predicate NeverSaveInDelete(w: Codec, labels: seq<Label>, host: Host, id: string)
  {
    forall k :: 0 <= k <= |labels| ==> NoSaveInDelete(w, After(w, START, labels[..k]).jobs, host, id)
  }

  ghost predicate AllWhole(labels: seq<Label>)
  {
    forall k :: 0 <= k < |labels| && labels[k].Arrive? ==> Whole(labels[k].op)
  }

  lemma PrefixOf(labels: seq<Label>, k: nat)
    requires labels != [] && k <= |labels| - 1
    ensures labels[..|labels| - 1][..k] == labels[..k]
    ensures k < |labels| - 1 ==> labels[..|labels| - 1][k] == labels[k]
  {
  }

  lemma PrefixIsFresh(w: Codec, labels: seq<Label>)
    requires labels != [] && AlwaysFresh(w, labels)
    ensures AlwaysFresh(w, labels[..|labels| - 1])
  {
    var before := labels[..|labels| - 1];
    forall k | 0 <= k < |before|
      ensures FreshLook(w, After(w, START, before[..k]), before[k])
    {
      PrefixOf(labels, k);
    }
  }

  lemma PrefixHasOneUser(w: Codec, labels: seq<Label>, host: Host, id: string)
    requires labels != [] && AlwaysOneUser(w, labels, host, id)
    ensures AlwaysOneUser(w, labels[..|labels| - 1], host, id)
    ensures OneUser(w, After(w, START, labels[..|labels| - 1]).jobs, host, id)
  {
    var before := labels[..|labels| - 1];
    forall k | 0 <= k <= |before|
      ensures OneUser(w, After(w, START, before[..k]).jobs, host, id)
    {
      PrefixOf(labels, k);
    }
  }

  lemma PrefixNeverSavesInDelete(w: Codec, labels: seq<Label>, host: Host, id: string)
    requires labels != [] && NeverSaveInDelete(w, labels, host, id)
    ensures NeverSaveInDelete(w, labels[..|labels| - 1], host, id)
    ensures NoSaveInDelete(w, After(w, START, labels[..|labels| - 1]).jobs, host, id)
  {
    var before := labels[..|labels| - 1];
    forall k | 0 <= k <= |before|
      ensures NoSaveInDelete(w, After(w, START, before[..k]).jobs, host, id)
    {
      PrefixOf(labels, k);
    }
  }

  // ---------- a credential in the hands of one user at a time ----------

  predicate OwnOrNone(w: Codec, es: seq<Entry>, user: string, host: Host, id: string)
  {
    OwnerAt(w, es, host, id).None? || OwnerAt(w, es, host, id) == Some(user)
  }

  /** No request in flight is at work on a record of somebody else. */
  ghost predicate Mine(w: Codec, s: State, host: Host, id: string)
  {
    forall i :: 0 <= i < |s.jobs| && InFlight(w, s.jobs[i], host, id) ==>
      OwnOrNone(w, s.vault.entries, s.jobs[i].caller.user, host, id)
  }

  lemma SetLooksAtOwn(w: Codec, es: seq<Entry>, c: Caller, r: SetRequest, slug: string)
    requires Sound(w) && WellKept(w, es) && LookUp(w, es, c, r).Granted?
    requires HostFor(w, r.scope.value, c.user) == UserHost(slug)
    requires r.id == "" ==> At(w, es, UserHost(slug), MetaKey(r.newId)).None?
    ensures OwnOrNone(w, es, c.user, UserHost(slug), IdOf(r))
  {
    LookUpKnows(w, es, c, r);
    FoundAtHost(w, es, UserHost(slug), IdOf(r));
  }

  /** A request that has just had its first look has seen a record of its caller, or none. */
  lemma LooksAtOwn(w: Codec, v: Vault, job: Job, host: Host, id: string)
    requires Sound(w) && WellKept(w, v.entries) && host.UserHost? && job.stage.Begun?
    requires FreshId(w, v.entries, job.op) && InFlight(w, job.(stage := Proceed(w, v, job).1), host, id)
    ensures OwnOrNone(w, v.entries, job.caller.user, host, id)
  {
    match job.op
    case Set(r, _) =>
      LookUpKnows(w, v.entries, job.caller, r);
      SetLooksAtOwn(w, v.entries, job.caller, r, host.slug);
    case Reveal(scope, id') => RevealKnows(w, v.entries, job.caller, scope, id');
    case Delete(scope, id', _) => DeleteKnows(w, v.entries, job.caller, scope, id');
  }

  lemma OwnerAfterStep(w: Codec, v: Vault, job: Job, host: Host, id: string)
    requires Sound(w) && WellKept(w, v.entries) && ContainedOp(job.op) && Apt(job) && host.UserHost?
    ensures OwnerAt(w, Proceed(w, v, job).0.entries, host, id) ==
      if IsAt(w, job, host, id) && job.op.Set? && job.stage.Saving? && job.op.done.metaDone then Some(job.caller.user)
      else if IsAt(w, job, host, id) && job.op.Delete? && job.stage.Removing? && job.op.done.metaDone then None
      else OwnerAt(w, v.entries, host, id)
  {
    StepAt(w, v, job, host, MetaKey(id));
    if job.op.Set? && job.stage.Saving? {
      assert w.decode(w.encode(job.stage.meta)) == Some(job.stage.meta);
    }
  }

  lemma FlightGoesOn(w: Codec, v: Vault, job: Job, host: Host, id: string)
    requires InFlight(w, job.(stage := Proceed(w, v, job).1), host, id)
    ensures job.stage.Begun? || InFlight(w, job, host, id)
  {
  }

  lemma StepKeepsMine(w: Codec, s: State, i: nat, j: nat, host: Host, id: string)
    requires Sound(w) && Good(w, s) && host.UserHost? && i < |s.jobs| && j < |s.jobs|
    requires Mine(w, s, host, id) && OneUser(w, s.jobs, host, id) && FreshLook(w, s, Advance(i))
    requires InFlight(w, Next(w, s, Advance(i)).jobs[j], host, id)
    ensures OwnOrNone(w, Next(w, s, Advance(i)).vault.entries, s.jobs[j].caller.user, host, id)
  {
    var job := s.jobs[i];
    OwnerAfterStep(w, s.vault, job, host, id);
    if i == j && job.stage.Begun? {
      LooksAtOwn(w, s.vault, job, host, id);
    } else {
      if i == j {
        FlightGoesOn(w, s.vault, job, host, id);
      }
      assert InFlight(w, s.jobs[j], host, id);
      if IsAt(w, job, host, id) && job.op.Set? && job.stage.Saving? {
        assert InFlight(w, s.jobs[i], host, id);
      }
    }
  }

  lemma NextKeepsMine(w: Codec, s: State, l: Label, host: Host, id: string)
    requires Sound(w) && Good(w, s) && host.UserHost?
    requires Mine(w, s, host, id) && OneUser(w, s.jobs, host, id) && FreshLook(w, s, l)
    ensures Mine(w, Next(w, s, l), host, id)
  {
    var s' := Next(w, s, l);
    forall j | 0 <= j < |s'.jobs| && InFlight(w, s'.jobs[j], host, id)
      ensures OwnOrNone(w, s'.vault.entries, s'.jobs[j].caller.user, host, id)
    {
      if l.Arrive? {
        assert j < |s.jobs| && InFlight(w, s.jobs[j], host, id);
      } else if l.job < |s.jobs| {
        StepKeepsMine(w, s, l.job, j, host, id);
      }
    }
  }

  lemma {:induction false} RunIsMine(w: Codec, labels: seq<Label>, host: Host, id: string)
    requires Sound(w) && AllContained(labels) && AlwaysFresh(w, labels) && host.UserHost?
    requires AlwaysOneUser(w, labels, host, id)
    ensures Mine(w, After(w, START, labels), host, id) && Good(w, After(w, START, labels))
    decreases |labels|
  {
    assert Good(w, START);
    RunIsGood(w, START, labels);
    if labels != [] {
      var before, last := labels[..|labels| - 1], labels[|labels| - 1];
      PrefixIsFresh(w, labels);
      PrefixHasOneUser(w, labels, host, id);
      RunIsMine(w, before, host, id);
      assert FreshLook(w, After(w, START, before), last);
      NextKeepsMine(w, After(w, START, before), last, host, id);
    }
  }

  /**
   Even users of one slug do not change each other's credentials, whatever writes fail, as long as no two of them have
   requests for the same credential in flight at the same time.
   */
  lemma TurnsDoNotInterfere(w: Codec, labels: seq<Label>, i: nat, owner: string, host: Host, id: string)
    requires Sound(w) && AllContained(labels) && AlwaysFresh(w, labels) && host.UserHost?
    requires AlwaysOneUser(w, labels, host, id)
    requires i < |After(w, START, labels).jobs| && After(w, START, labels).jobs[i].caller.user != owner
    requires OwnerAt(w, After(w, START, labels).vault.entries, host, id) == Some(owner)
    ensures var s := After(w, START, labels); SameCredential(w, s.vault, Next(w, s, Advance(i)).vault, host, id)
  {
    var s := After(w, START, labels);
    RunIsMine(w, labels, host, id);
    if Writes(w, s.jobs[i], host, id) {
      assert InFlight(w, s.jobs[i], host, id);
    }
    UnwrittenStays(w, s.vault, s.jobs[i], host, id);
  }

  // ---------- records and secrets stay together ----------

  /** A request is about to delete the secret, its record being gone. */
  predicate Leaves(w: Codec, job: Job, host: Host, id: string, user: string)
  {
    && InFlight(w, job, host, id) && job.op.Delete? && job.stage.RemovingSecret? && job.op.done.secretDone
    && job.caller.user == user
  }

  ghost predicate SomeLeaves(w: Codec, jobs: seq<Job>, host: Host, id: string, user: string)
  {
    exists i :: 0 <= i < |jobs| && Leaves(w, jobs[i], host, id, user)
  }

  /** A secret was typed by the owner of its record, or is about to be deleted by whoever typed it. */
  ghost predicate Paired(w: Codec, s: State, host: Host, id: string)
  {
    At(w, s.vault.entries, host, SecretKey(id)).Some? ==>
      var author, owner := AuthorAt(s.vault, host, id), OwnerAt(w, s.vault.entries, host, id);
      && author.Some?
      && (owner.Some? ==> owner == author)
      && (owner.None? ==> SomeLeaves(w, s.jobs, host, id, author.value))
  }

  /** A request saves what its caller typed, the secret only beside a record, and shows the caller's own. */
  ghost predicate Proper(w: Codec, es: seq<Entry>, job: Job, host: Host, id: string)
  {
    && (InFlight(w, job, host, id) && (job.stage.Saving? || job.stage.SavingSecret?) ==>
          job.stage.author == job.caller.user)
    && (InFlight(w, job, host, id) && job.op.Set? && job.stage.SavingSecret? && job.op.done.secretDone ==>
          OwnerAt(w, es, host, id).Some?)
    && (IsAt(w, job, host, id) ==> !ShowsForeign(job))
  }

  ghost predicate Tidy(w: Codec, s: State, host: Host, id: string)
  {
    && Mine(w, s, host, id) && Paired(w, s, host, id)
    && forall i :: 0 <= i < |s.jobs| ==> Proper(w, s.vault.entries, s.jobs[i], host, id)
  }

  /** Before a step of job `i`, all is well and one user at a time is at work. */
  ghost predicate Ready(w: Codec, s: State, i: nat, host: Host, id: string)
  {
    && Sound(w) && Good(w, s) && host.UserHost? && i < |s.jobs| && Whole(s.jobs[i].op)
    && Tidy(w, s, host, id) && OneUser(w, s.jobs, host, id) && NoSaveInDelete(w, s.jobs, host, id)
    && FreshLook(w, s, Advance(i))
  }

  /** The secret that a request in flight comes across was typed by its caller. */
  lemma MetSecretIsOwn(w: Codec, s: State, i: nat, host: Host, id: string)
    requires Ready(w, s, i, host, id) && InFlight(w, s.jobs[i], host, id)
    requires At(w, s.vault.entries, host, SecretKey(id)).Some?
    ensures AuthorAt(s.vault, host, id) == Some(s.jobs[i].caller.user)
  {
    assert OwnOrNone(w, s.vault.entries, s.jobs[i].caller.user, host, id);
    if OwnerAt(w, s.vault.entries, host, id).None? {
      var j :| 0 <= j < |s.jobs| && Leaves(w, s.jobs[j], host, id, AuthorAt(s.vault, host, id).value);
      assert InFlight(w, s.jobs[j], host, id);
    }
  }

  lemma LeavesStill(w: Codec, s: State, i: nat, host: Host, id: string, user: string)
    requires i < |s.jobs| && SomeLeaves(w, s.jobs, host, id, user) && !Leaves(w, s.jobs[i], host, id, user)
    ensures SomeLeaves(w, Next(w, s, Advance(i)).jobs, host, id, user)
  {
    var j :| 0 <= j < |s.jobs| && Leaves(w, s.jobs[j], host, id, user);
    assert Next(w, s, Advance(i)).jobs[j] == s.jobs[j];
  }

  lemma PairedByOwner(w: Codec, s: State, i: nat, v: Vault, host: Host, id: string)
    requires i < |s.jobs| && v == Proceed(w, s.vault, s.jobs[i]).0 && OwnerAt(w, v.entries, host, id).Some?
    requires At(w, v.entries, host, SecretKey(id)).Some? ==>
      AuthorAt(v, host, id) == OwnerAt(w, v.entries, host, id)
    ensures Paired(w, Next(w, s, Advance(i)), host, id)
  {
  }

  lemma SavingKeepsPaired(w: Codec, s: State, i: nat, host: Host, id: string)
    requires Ready(w, s, i, host, id) && InFlight(w, s.jobs[i], host, id)
    requires s.jobs[i].op.Set? && s.jobs[i].stage.Saving? && s.jobs[i].op.done.metaDone
    ensures Paired(w, Next(w, s, Advance(i)), host, id)
  {
    var v := Proceed(w, s.vault, s.jobs[i]).0;
    AfterSaving(w, s.vault, s.jobs[i], v, host, id);
    if At(w, s.vault.entries, host, SecretKey(id)).Some? {
      MetSecretIsOwn(w, s, i, host, id);
    }
    PairedByOwner(w, s, i, v, host, id);
  }

  /** Once a record has been written, its owner is the caller, and the secret is as before. */
  lemma AfterSaving(w: Codec, v: Vault, job: Job, v': Vault, host: Host, id: string)
    requires Sound(w) && WellKept(w, v.entries) && ContainedOp(job.op) && Apt(job) && host.UserHost?
    requires IsAt(w, job, host, id) && job.op.Set? && job.stage.Saving? && job.op.done.metaDone
    requires v' == Proceed(w, v, job).0
    ensures
      && SameAt(w, v.entries, v'.entries, host, SecretKey(id)) && AuthorAt(v', host, id) == AuthorAt(v, host, id)
      && OwnerAt(w, v'.entries, host, id) == Some(job.caller.user)
  {
    StepAt(w, v, job, host, SecretKey(id));
    AuthorAfterStep(w, v, job, host, id);
    OwnerAfterStep(w, v, job, host, id);
  }

  lemma SavingSecretKeepsPaired(w: Codec, s: State, i: nat, host: Host, id: string)
    requires Ready(w, s, i, host, id) && InFlight(w, s.jobs[i], host, id)
    requires s.jobs[i].op.Set? && s.jobs[i].stage.SavingSecret? && s.jobs[i].op.done.secretDone
    ensures Paired(w, Next(w, s, Advance(i)), host, id)
  {
    var job := s.jobs[i];
    AuthorAfterStep(w, s.vault, job, host, id);
    OwnerAfterStep(w, s.vault, job, host, id);
    assert Proper(w, s.vault.entries, job, host, id);
    assert OwnOrNone(w, s.vault.entries, job.caller.user, host, id);
  }

  lemma DeletingKeepsPaired(w: Codec, s: State, i: nat, host: Host, id: string)
    requires Ready(w, s, i, host, id) && InFlight(w, s.jobs[i], host, id) && s.jobs[i].op.Delete?
    ensures Paired(w, Next(w, s, Advance(i)), host, id)
  {
    var job, s' := s.jobs[i], Next(w, s, Advance(i));
    StepAt(w, s.vault, job, host, SecretKey(id));
    AuthorAfterStep(w, s.vault, job, host, id);
    OwnerAfterStep(w, s.vault, job, host, id);
    if At(w, s'.vault.entries, host, SecretKey(id)).Some? {
      MetSecretIsOwn(w, s, i, host, id);
      if job.stage.Removing? && job.op.done.metaDone {
        assert Leaves(w, s'.jobs[i], host, id, job.caller.user);
      } else if OwnerAt(w, s.vault.entries, host, id).None? {
        LeavesStill(w, s, i, host, id, job.caller.user);
      }
    }
  }

  lemma NothingKeepsPaired(w: Codec, s: State, i: nat, host: Host, id: string)
    requires Ready(w, s, i, host, id) && Next(w, s, Advance(i)).vault == s.vault && s.jobs[i].op.Set?
    ensures Paired(w, Next(w, s, Advance(i)), host, id)
  {
    if At(w, s.vault.entries, host, SecretKey(id)).Some? && OwnerAt(w, s.vault.entries, host, id).None? {
      LeavesStill(w, s, i, host, id, AuthorAt(s.vault, host, id).value);
    }
  }

  lemma ElsewhereKeepsPaired(w: Codec, s: State, i: nat, host: Host, id: string)
    requires Ready(w, s, i, host, id) && !Writes(w, s.jobs[i], host, id)
    ensures Paired(w, Next(w, s, Advance(i)), host, id)
  {
    UnwrittenStays(w, s.vault, s.jobs[i], host, id);
    if At(w, s.vault.entries, host, SecretKey(id)).Some? && OwnerAt(w, s.vault.entries, host, id).None? {
      LeavesStill(w, s, i, host, id, AuthorAt(s.vault, host, id).value);
    }
  }

  lemma StepKeepsPaired(w: Codec, s: State, i: nat, host: Host, id: string)
    requires Ready(w, s, i, host, id)
    ensures Paired(w, Next(w, s, Advance(i)), host, id)
  {
    if !Writes(w, s.jobs[i], host, id) {
      ElsewhereKeepsPaired(w, s, i, host, id);
    } else if s.jobs[i].op.Delete? {
      DeletingKeepsPaired(w, s, i, host, id);
    } else if s.jobs[i].stage.Saving? && s.jobs[i].op.done.metaDone {
      SavingKeepsPaired(w, s, i, host, id);
    } else if s.jobs[i].stage.SavingSecret? && s.jobs[i].op.done.secretDone {
      SavingSecretKeepsPaired(w, s, i, host, id);
    } else {
      assert Next(w, s, Advance(i)).vault == s.vault;
      NothingKeepsPaired(w, s, i, host, id);
    }
  }

  /** What the request that takes the step has become. */
  lemma SettlesProperly(w: Codec, s: State, i: nat, host: Host, id: string)
    requires Ready(w, s, i, host, id) && InFlight(w, s.jobs[i], host, id)
    requires s.jobs[i].op.Set? && s.jobs[i].stage.Looked?
    ensures Proper(w, s.vault.entries, Next(w, s, Advance(i)).jobs[i], host, id)
  {
    var job := s.jobs[i];
    var r := job.op.request;
    var plan := Settle(w, s.vault.entries, job.caller, r, job.stage.existing);
    if plan.Store? {
      SettleKnows(w, s.vault, job.caller, r, job.stage.existing);
      if r.secret == "" {
        MetSecretIsOwn(w, s, i, host, id);
      }
    }
  }

  lemma ShowsProperly(w: Codec, s: State, i: nat, host: Host, id: string)
    requires Ready(w, s, i, host, id) && InFlight(w, s.jobs[i], host, id) && s.jobs[i].op.Reveal?
    ensures Proper(w, s.vault.entries, Next(w, s, Advance(i)).jobs[i], host, id)
  {
    FoundAtHost(w, s.vault.entries, host, id);
    if At(w, s.vault.entries, host, SecretKey(id)).Some? {
      MetSecretIsOwn(w, s, i, host, id);
    }
  }

  lemma MoverIsProper(w: Codec, s: State, i: nat, host: Host, id: string)
    requires Ready(w, s, i, host, id)
    ensures Proper(w, Next(w, s, Advance(i)).vault.entries, Next(w, s, Advance(i)).jobs[i], host, id)
  {
    var job := s.jobs[i];
    assert Proper(w, s.vault.entries, job, host, id);
    OwnerAfterStep(w, s.vault, job, host, id);
    if InFlight(w, job, host, id) {
      if job.op.Set? && job.stage.Looked? {
        SettlesProperly(w, s, i, host, id);
      } else if job.op.Reveal? {
        ShowsProperly(w, s, i, host, id);
      }
    }
  }

  lemma OthersStayProper(w: Codec, s: State, i: nat, j: nat, host: Host, id: string)
    requires Ready(w, s, i, host, id) && j < |s.jobs| && j != i
    ensures Proper(w, Next(w, s, Advance(i)).vault.entries, s.jobs[j], host, id)
  {
    assert Proper(w, s.vault.entries, s.jobs[j], host, id);
    OwnerAfterStep(w, s.vault, s.jobs[i], host, id);
    if InFlight(w, s.jobs[j], host, id) && s.jobs[j].op.Set? && s.jobs[i].stage.Removing? {
      assert !(InFlight(w, s.jobs[i], host, id) && s.jobs[i].op.Delete?);
    }
  }

  lemma StepKeepsTidy(w: Codec, s: State, i: nat, host: Host, id: string)
    requires Ready(w, s, i, host, id)
    ensures Tidy(w, Next(w, s, Advance(i)), host, id)
  {
    var s' := Next(w, s, Advance(i));
    NextKeepsMine(w, s, Advance(i), host, id);
    StepKeepsPaired(w, s, i, host, id);
    forall j | 0 <= j < |s'.jobs|
      ensures Proper(w, s'.vault.entries, s'.jobs[j], host, id)
    {
      if j == i {
        MoverIsProper(w, s, i, host, id);
      } else {
        OthersStayProper(w, s, i, j, host, id);
      }
    }
  }

  lemma ArrivalKeepsTidy(w: Codec, s: State, c: Caller, op: Op, host: Host, id: string)
    requires Tidy(w, s, host, id)
    ensures Tidy(w, Next(w, s, Arrive(c, op)), host, id)
  {
    var s' := Next(w, s, Arrive(c, op));
    forall j | 0 <= j < |s'.jobs|
      ensures Proper(w, s'.vault.entries, s'.jobs[j], host, id)
      ensures InFlight(w, s'.jobs[j], host, id) ==>
        OwnOrNone(w, s'.vault.entries, s'.jobs[j].caller.user, host, id)
    {
      assert j < |s.jobs| ==> Proper(w, s.vault.entries, s.jobs[j], host, id);
    }
    if At(w, s.vault.entries, host, SecretKey(id)).Some? && OwnerAt(w, s.vault.entries, host, id).None? {
      var i :| 0 <= i < |s.jobs| && Leaves(w, s.jobs[i], host, id, AuthorAt(s.vault, host, id).value);
      assert Leaves(w, s'.jobs[i], host, id, AuthorAt(s.vault, host, id).value);
    }
  }

  lemma {:induction false} JobsAreWhole(w: Codec, labels: seq<Label>)
    requires AllWhole(labels)
    ensures forall i :: 0 <= i < |After(w, START, labels).jobs| ==> Whole(After(w, START, labels).jobs[i].op)
    decreases |labels|
  {
    if labels != [] {
      JobsAreWhole(w, labels[..|labels| - 1]);
    }
  }

  lemma {:induction false} RunIsTidy(w: Codec, labels: seq<Label>, host: Host, id: string)
    requires Sound(w) && AllContained(labels) && AlwaysFresh(w, labels) && host.UserHost? && AllWhole(labels)
    requires AlwaysOneUser(w, labels, host, id) && NeverSaveInDelete(w, labels, host, id)
    ensures Tidy(w, After(w, START, labels), host, id)
    decreases |labels|
  {
    if labels != [] {
      var before, last := labels[..|labels| - 1], labels[|labels| - 1];
      var s := After(w, START, before);
      PrefixIsFresh(w, labels);
      PrefixHasOneUser(w, labels, host, id);
      PrefixNeverSavesInDelete(w, labels, host, id);
      RunIsTidy(w, before, host, id);
      RunIsMine(w, before, host, id);
      JobsAreWhole(w, before);
      if last.Arrive? {
        ArrivalKeepsTidy(w, s, last.caller, last.op, host, id);
      } else if last.job < |s.jobs| {
        assert FreshLook(w, s, last);
        StepKeepsTidy(w, s, last.job, host, id);
      }
    }
  }

  /**
   Even users of one slug are shown only what they typed themselves, as long as the vault loses no half of a request,
   no two of them have requests for that credential in flight at the same time, and it is not saved while it is being
   deleted.
   */
  lemma TurnsKeepSecretsApart(w: Codec, labels: seq<Label>, i: nat)
    requires Sound(w) && AllContained(labels) && AlwaysFresh(w, labels) && AllWhole(labels)
    requires i < |After(w, START, labels).jobs|
    requires var job := After(w, START, labels).jobs[i];
      && AlwaysOneUser(w, labels, HostOf(w, job), IdIn(job.op))
      && NeverSaveInDelete(w, labels, HostOf(w, job), IdIn(job.op))
    ensures !ShowsForeign(After(w, START, labels).jobs[i])
  {
    var job := After(w, START, labels).jobs[i];
    if HostOf(w, job).UserHost? {
      RunIsTidy(w, labels, HostOf(w, job), IdIn(job.op));
      assert Proper(w, After(w, START, labels).vault.entries, job, HostOf(w, job), IdIn(job.op));
    } else {
      assert Good(w, START);
      RunIsGood(w, START, labels);
      assert Apt(job);
    }
  }
}
