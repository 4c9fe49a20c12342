/**
 What holds of credentials at one moment and of one request, and exactly what a request can do that is not contained.
 */
module CredentialLaws {
  import opened Common
  import opened Credentials
  import opened VaultFile

  // ---------- what every vault in use satisfies ----------

  /** A record stands where its scope and owner say, under its own id; no secret stands at the default place. */
  ghost predicate WellPlaced(w: Codec, e: Entry)
  {
    && (forall id: string :: e.key == w.keyName(MetaKey(id)) ==> IsRecord(w, e, id))
    && (forall id: string :: e.key == w.keyName(SecretKey(id)) ==> e.host != DEFAULT)
  }

  ghost predicate IsRecord(w: Codec, e: Entry, id: string)
  {
    && e.value != "" && w.decode(e.value).Some?
    && w.decode(e.value).value.id == id
    && e.host == w.hostName(PlaceOf(w, w.decode(e.value).value))
  }

  function PlaceOf(w: Codec, m: Meta): Host
  {
    HostFor(w, m.scope, m.owner)
  }

  ghost predicate WellKept(w: Codec, es: seq<Entry>)
  {
    AllClean(es) && forall e :: e in es ==> WellPlaced(w, e)
  }

  /**
   What a request brings in stays on one line: a plain id, and a secret whose further lines, if any, read as nothing.
   */
  predicate Contained(r: SetRequest)
  {
    PlainText(IdOf(r)) && Spill(r.secret) == []
  }

  // ---------- one write, one deletion ----------

  lemma WriteAt(w: Codec, es: seq<Entry>, scope: Scope, user: string, key: Key, value: string, host': Host, key': Key)
    requires Sound(w) && AllClean(es) && PlainText(key.id) && Spill(value) == []
    ensures var host := HostFor(w, scope, user);
      At(w, Write(w, es, host, key, value), host', key')
      == if host' == host && key' == key then Some(Kept(value)) else At(w, es, host', key')
  {
    var host := HostFor(w, scope, user);
    assert CleanName(w.hostName(host), w.keyName(key));
    LookupAfterCleanSet(es, w.hostName(host), w.keyName(key), value, w.hostName(host'), w.keyName(key'));
  }

  lemma EraseAt(w: Codec, es: seq<Entry>, host: Host, key: Key, host': Host, key': Key)
    requires Sound(w) && AllClean(es)
    ensures At(w, Erase(w, es, host, key), host', key')
         == if host' == host && key' == key then None else At(w, es, host', key')
  {
    LookupAfterDelete(es, w.hostName(host), w.keyName(key), w.hostName(host'), w.keyName(key'));
  }

  lemma WriteKeepsPlaces(w: Codec, es: seq<Entry>, scope: Scope, user: string, key: Key, value: string)
    requires Sound(w) && WellKept(w, es) && PlainText(key.id) && Spill(value) == []
    requires key.MetaKey? ==>
      IsRecord(w, Entry(w.hostName(HostFor(w, scope, user)), w.keyName(key), Kept(value)), key.id)
    ensures WellKept(w, Write(w, es, HostFor(w, scope, user), key, value))
  {
    var host := HostFor(w, scope, user);
    var e := Entry(w.hostName(host), w.keyName(key), Kept(value));
    assert CleanName(w.hostName(host), w.keyName(key));
    SetIsClean(es, w.hostName(host), w.keyName(key), value);
    assert WellPlaced(w, e);
    forall x | x in Write(w, es, host, key, value)
      ensures WellPlaced(w, x)
    {
      NewOrOld(es, w.hostName(host), w.keyName(key), value, x);
    }
  }

  lemma NewOrOld(es: seq<Entry>, host: string, key: string, value: string, x: Entry)
    requires AllClean(es) && CleanName(host, key) && Spill(value) == []
    requires x in SetIn(es, host, key, value)
    ensures x in es || x == Entry(host, key, Kept(value))
  {
    EntryAfterSet(es, host, key, value, x);
    EntryReads(host, key, value);
  }

  lemma EraseKeepsPlaces(w: Codec, es: seq<Entry>, host: Host, key: Key)
    requires WellKept(w, es)
    ensures WellKept(w, Erase(w, es, host, key))
  {
    DeleteReads(es, w.hostName(host), w.keyName(key));
  }

  lemma RecordIsContained(w: Codec, m: Meta)
    requires Sound(w)
    ensures Kept(w.encode(m)) == w.encode(m) && Spill(w.encode(m)) == []
  {
    assert CleanValue(w.encode(m));
    OnlyLineOf(w.encode(m));
  }

  // ---------- looking up ----------

  /** What is found for a caller is found at the caller's own place, never at the default one. */
  lemma FoundAtHost(w: Codec, es: seq<Entry>, host: Host, id: string)
    requires Sound(w) && WellKept(w, es)
    ensures GetSecret(w, es, host, id)
         == if At(w, es, host, SecretKey(id)).Some? then At(w, es, host, SecretKey(id)).value else ""
    ensures GetMeta(w, es, host, id)
         == if At(w, es, host, MetaKey(id)).Some? then w.decode(At(w, es, host, MetaKey(id)).value) else None
    ensures var m := GetMeta(w, es, host, id);
      && (At(w, es, host, MetaKey(id)).Some? ==> m.Some?)
      && (m.Some? ==> m.value.id == id && host == PlaceOf(w, m.value))
  {
    NotAtDefault(w, es, id);
    LookupIsEntry(es, w.hostName(host), w.keyName(MetaKey(id)));
    var found := At(w, es, host, MetaKey(id));
    if found.Some? {
      assert WellPlaced(w, Entry(w.hostName(host), w.keyName(MetaKey(id)), found.value));
      assert IsRecord(w, Entry(w.hostName(host), w.keyName(MetaKey(id)), found.value), id);
    }
  }

  lemma NotAtDefault(w: Codec, es: seq<Entry>, id: string)
    requires Sound(w) && WellKept(w, es)
    ensures Lookup(es, DEFAULT, w.keyName(MetaKey(id))).None? && Lookup(es, DEFAULT, w.keyName(SecretKey(id))).None?
  {
    LookupIsEntry(es, DEFAULT, w.keyName(MetaKey(id)));
    LookupIsEntry(es, DEFAULT, w.keyName(SecretKey(id)));
    forall e | e in es && (e.key == w.keyName(MetaKey(id)) || e.key == w.keyName(SecretKey(id)))
      ensures e.host != DEFAULT
    {
      assert WellPlaced(w, e);
      assert e.key == w.keyName(MetaKey(id)) ==> IsRecord(w, e, id);
    }
  }

  /** A stored secret has one line, so writing it again spills nothing. */
  lemma StoredIsContained(es: seq<Entry>, host: string, key: string)
    requires AllClean(es) && Lookup(es, host, key).Some?
    ensures var value := Lookup(es, host, key).value; CleanValue(value) && Kept(value) == value && Spill(value) == []
  {
    LookupIsEntry(es, host, key);
    var value := Lookup(es, host, key).value;
    CleanByMembers(es);
    assert Clean(Entry(host, key, value));
    OnlyLineOf(value);
  }

  // ---------- what a set request stores ----------

  /**
   The plan of a set request: it stores at the caller's place, and what it stores spills nothing if the request is
   contained.
   */
  lemma PlanStores(w: Codec, es: seq<Entry>, c: Caller, r: SetRequest)
    requires Sound(w) && WellKept(w, es) && PlanSet(w, es, c, r).Store?
    ensures var plan := PlanSet(w, es, c, r);
      && r.scope.Some? && AtLeast(c.role, Operator) && (r.scope.value.Global? ==> AtLeast(c.role, Admin))
      && plan.host == HostFor(w, r.scope.value, c.user) && plan.meta.id == IdOf(r) && plan.secret != ""
      && plan.meta.scope == r.scope.value && plan.meta.owner == (if r.scope.value.Global? then "" else c.user)
      && plan.host == PlaceOf(w, plan.meta)
      && plan.secret == (if r.secret != "" then r.secret else GetSecret(w, es, plan.host, IdOf(r)))
      && (Spill(r.secret) == [] ==> Spill(plan.secret) == [])
  {
    var plan := PlanSet(w, es, c, r);
    FoundAtHost(w, es, plan.host, r.id);
    if r.secret == "" {
      FoundAtHost(w, es, plan.host, IdOf(r));
      StoredIsContained(es, w.hostName(plan.host), w.keyName(SecretKey(IdOf(r))));
    }
  }

  /** Two writes at one place. */
  lemma PutAt(w: Codec, es: seq<Entry>, scope: Scope, user: string, m: Meta, secret: string, done: Effect,
      host': Host, key': Key)
    requires Sound(w) && AllClean(es) && PlainText(m.id) && Spill(secret) == []
    ensures var host := HostFor(w, scope, user);
      At(w, Put(w, es, host, m, secret, done), host', key') ==
        if host' == host && key' == SecretKey(m.id) && done.secretDone then Some(Kept(secret))
        else if host' == host && key' == MetaKey(m.id) && done.metaDone then Some(w.encode(m))
        else At(w, es, host', key')
  {
    var host := HostFor(w, scope, user);
    RecordIsContained(w, m);
    WriteAt(w, es, scope, user, MetaKey(m.id), w.encode(m), host', key');
    SetIsClean(es, w.hostName(host), w.keyName(MetaKey(m.id)), w.encode(m));
    var withMeta := if done.metaDone then Write(w, es, host, MetaKey(m.id), w.encode(m)) else es;
    WriteAt(w, withMeta, scope, user, SecretKey(m.id), secret, host', key');
  }


  // ---------- who may do what ----------

  /** A request to save a credential that is not there yet: who may make it, where it goes, and what is stored. */
  lemma WhoMaySave(w: Codec, es: seq<Entry>, c: Caller, r: SetRequest)
    requires r.scope.Some? && r.details.label_ != "" && r.secret != ""
    requires r.id == "" || GetMeta(w, es, HostFor(w, r.scope.value, c.user), r.id).None?
    ensures r.scope == Some(User) ==>
      PlanSet(w, es, c, r) ==
        if c.role in {Operator, Admin, Protected}
        then Store(UserHost(w.slug(c.user)), NewMeta(c, r, User, c.user, None), r.secret)
        else Refuse(Forbidden)
    ensures r.scope == Some(Global) ==>
      PlanSet(w, es, c, r) ==
        if c.role in {Admin, Protected} then Store(GlobalHost, NewMeta(c, r, Global, "", None), r.secret)
        else Refuse(Forbidden)
  {
  }

  /** A request that lacks its scope, its label or its secret is refused as such, if it is not forbidden anyway. */
  lemma IncompleteIsRefused(w: Codec, es: seq<Entry>, c: Caller, r: SetRequest)
    requires c.role in {Admin, Protected}
    requires r.scope.None? || r.details.label_ == "" || (r.secret == "" && r.id == "")
    ensures PlanSet(w, es, c, r) == Refuse(BadRequest)
  {
  }

  /** A credential that is there: who is shown it, and who may take it away. */
  lemma WhoMayRevealAndDelete(w: Codec, es: seq<Entry>, c: Caller, m: Meta)
    requires Sound(w) && WellKept(w, es) && m.id != ""
    requires GetMeta(w, es, HostFor(w, m.scope, c.user), m.id) == Some(m)
    ensures ToReveal(w, es, c, Some(m.scope), m.id) ==
      if c.role in {Viewer, NoRole} then Denied(Forbidden)
      else if m.scope.Global? || m.owner == c.user then Granted(m) else Denied(NotFound)
    ensures ToDelete(w, es, c, Some(m.scope), m.id) ==
      if c.role in {Viewer, NoRole} then Denied(Forbidden)
      else if m.scope.Global? && c.role in {Admin, Protected} then Granted(m)
      else if m.scope.User? && m.owner == c.user then Granted(m)
      else Denied(NotFound)
  {
    FoundAtHost(w, es, HostFor(w, m.scope, c.user), m.id);
  }

  // ---------- what is shown ----------

  /** The record that is revealed is global or the caller's own, and the one asked for. */
  lemma SeesOnlyOwn(w: Codec, es: seq<Entry>, c: Caller, scope: Maybe<Scope>, id: string)
    requires Sound(w) && WellKept(w, es)
    ensures var shown := RevealStep(w, es, c, scope, id);
      shown.Shown? ==> c.role in {Operator, Admin, Protected} && scope == Some(shown.meta.scope) && shown.meta.id == id
                       && (shown.meta.scope.User? ==> shown.meta.owner == c.user)
  {
    if scope.Some? {
      FoundAtHost(w, es, HostFor(w, scope.value, c.user), id);
    }
  }

  /** An entry holds the record `m` at its place. */
  ghost predicate Holds(w: Codec, e: Entry, m: Meta)
  {
    && m.id != "" && e.key == w.keyName(MetaKey(m.id)) && e.host == w.hostName(PlaceOf(w, m))
    && w.decode(e.value) == Some(m)
  }

  lemma RecordIsHeld(w: Codec, e: Entry, m: Meta)
    requires Sound(w) && WellPlaced(w, e)
    ensures RecordOf(w, e) == Some(m) <==> Holds(w, e, m)
  {
    if RecordOf(w, e) == Some(m) {
      var id := w.metaId(e.key).value;
      assert e.key == w.keyName(MetaKey(id));
      assert IsRecord(w, e, id);
    }
  }

  /** The list shows exactly the records in the vault that are global or the caller's own. */
  lemma ListsAllOwn(w: Codec, es: seq<Entry>, c: Caller, row: Row)
    requires Sound(w) && WellKept(w, es)
    ensures Listed(w, es, c, row) <==>
      && c.role in {Operator, Admin, Protected} && (row.meta.scope.User? ==> row.meta.owner == c.user)
      && (row.hasSecret <==>
            var secret := At(w, es, PlaceOf(w, row.meta), SecretKey(row.meta.id)); secret.Some? && secret.value != "")
      && exists i :: 0 <= i < |es| && Holds(w, es[i], row.meta)
  {
    forall i | 0 <= i < |es|
      ensures RecordOf(w, es[i]) == Some(row.meta) <==> Holds(w, es[i], row.meta)
    {
      assert es[i] in es;
      RecordIsHeld(w, es[i], row.meta);
    }
    FoundAtHost(w, es, PlaceOf(w, row.meta), row.meta.id);
    assert row == RowFor(w, es, row.meta) <==> row.hasSecret == RowFor(w, es, row.meta).hasSecret;
  }

  /** A record that the caller may read is shown with the secret that stands beside it. */
  lemma ShowsBeside(w: Codec, es: seq<Entry>, c: Caller, m: Meta)
    requires Sound(w) && m.id != "" && CanRead(m, c.user, c.role)
    requires At(w, es, HostFor(w, m.scope, c.user), MetaKey(m.id)) == Some(w.encode(m))
    ensures RevealStep(w, es, c, Some(m.scope), m.id) == Shown(m, GetSecret(w, es, HostFor(w, m.scope, c.user), m.id))
  {
  }

  // ---------- set, then reveal ----------

  /** What is found in a vault stands on clean lines. */
  lemma FoundIsClean(w: Codec, es: seq<Entry>, host: Host, id: string)
    requires Sound(w) && AllClean(es) && GetSecret(w, es, host, id) != ""
    ensures PlainText(id) && CleanValue(GetSecret(w, es, host, id))
  {
    var key := w.keyName(SecretKey(id));
    LookupIsEntry(es, w.hostName(host), key);
    LookupIsEntry(es, DEFAULT, key);
    CleanByMembers(es);
    var from := if At(w, es, host, SecretKey(id)).Some? then w.hostName(host) else DEFAULT;
    assert Clean(Entry(from, key, GetSecret(w, es, host, id)));
  }

  lemma PutIsClean(w: Codec, es: seq<Entry>, host: Host, m: Meta, secret: string)
    ensures AllClean(Put(w, es, host, m, secret, Effect(true, true)))
  {
    SetIsClean(Write(w, es, host, MetaKey(m.id), w.encode(m)), w.hostName(host), w.keyName(SecretKey(m.id)), secret);
  }

  lemma CleanIsRevealed(w: Codec, es: seq<Entry>, c: Caller, m: Meta, secret: string)
    requires Sound(w) && WellKept(w, es) && m.id != "" && CanRead(m, c.user, c.role)
    requires HostFor(w, m.scope, c.user) == PlaceOf(w, m)
    requires PlainText(m.id) && CleanValue(secret) && secret != ""
    ensures RevealStep(w, Put(w, es, PlaceOf(w, m), m, secret, Effect(true, true)), c, Some(m.scope), m.id)
         == Shown(m, secret)
  {
    var host, done := PlaceOf(w, m), Effect(true, true);
    OnlyLineOf(secret);
    PutAt(w, es, m.scope, c.user, m, secret, done, host, MetaKey(m.id));
    PutAt(w, es, m.scope, c.user, m, secret, done, host, SecretKey(m.id));
    ShowsBeside(w, Put(w, es, host, m, secret, done), c, m);
  }

  lemma RevealedIsClean(w: Codec, es: seq<Entry>, c: Caller, scope: Maybe<Scope>, id: string)
    requires Sound(w) && AllClean(es)
    requires RevealStep(w, es, c, scope, id).Shown? && RevealStep(w, es, c, scope, id).secret != ""
    ensures PlainText(id) && CleanValue(RevealStep(w, es, c, scope, id).secret)
  {
    FoundIsClean(w, es, HostFor(w, scope.value, c.user), id);
  }

  /**
   A saved credential is revealed with the secret that was stored exactly when its id is plain and the secret is clean,
   that is, has no line end and no white space at its end.
   */
  lemma SetThenReveal(w: Codec, v: Vault, c: Caller, r: SetRequest)
    requires Sound(w) && WellKept(w, v.entries) && IdOf(r) != ""
    requires PlanSet(w, v.entries, c, r).Store?
    ensures var plan, v' := PlanSet(w, v.entries, c, r), SetStep(w, v, c, r, Effect(true, true)).0;
      RevealStep(w, v'.entries, c, r.scope, IdOf(r)) == Shown(plan.meta, plan.secret)
      <==> PlainText(IdOf(r)) && CleanValue(plan.secret)
  {
    var plan := PlanSet(w, v.entries, c, r);
    var after := Put(w, v.entries, plan.host, plan.meta, plan.secret, Effect(true, true));
    assert SetStep(w, v, c, r, Effect(true, true)).0.entries == after;
    PlanStores(w, v.entries, c, r);
    if PlainText(IdOf(r)) && CleanValue(plan.secret) {
      CleanIsRevealed(w, v.entries, c, plan.meta, plan.secret);
    } else if RevealStep(w, after, c, r.scope, IdOf(r)) == Shown(plan.meta, plan.secret) {
      PutIsClean(w, v.entries, plan.host, plan.meta, plan.secret);
      RevealedIsClean(w, after, c, r.scope, IdOf(r));
    }
  }

  /**
   What is stored: what the request says, the secret typed or the one there was, and the origin of an existing record.
   */
  lemma SavedKeepsOrigin(w: Codec, v: Vault, c: Caller, r: SetRequest)
    requires Sound(w) && WellKept(w, v.entries) && PlanSet(w, v.entries, c, r).Store?
    ensures var plan := PlanSet(w, v.entries, c, r);
      var m, was := plan.meta, GetMeta(w, v.entries, plan.host, IdOf(r));
      && m.details == r.details && m.updatedBy == c.user && m.updatedAt == r.now
      && plan.secret == (if r.secret != "" then r.secret else GetSecret(w, v.entries, plan.host, IdOf(r)))
      && (r.id != "" && was.Some? ==> m.createdAt == was.value.createdAt && m.createdBy == was.value.createdBy)
      && (r.id == "" || was.None? ==> m.createdAt == r.now && m.createdBy == c.user && r.secret != "")
  {
    PlanStores(w, v.entries, c, r);
  }

  /** A secret is by whoever typed it: saving a credential anew with the secret it has does not change that. */
  lemma TypedSecretIsCallers(w: Codec, v: Vault, c: Caller, r: SetRequest, done: Effect, host: Host, id: string)
    requires PlanSet(w, v.entries, c, r).Store? && PlanSet(w, v.entries, c, r).host == host && IdOf(r) == id
    ensures var authors := SetStep(w, v, c, r, done).0.authors;
      && (done.secretDone && r.secret != "" ==> (host, id) in authors && authors[(host, id)] == c.user)
      && (!done.secretDone || (r.secret == "" && (host, id) in v.authors) ==> authors == v.authors)
  {
    assert PlanSet(w, v.entries, c, r).meta.id == id;
    if r.secret == "" && (host, id) in v.authors {
      assert v.authors[(host, id) := v.authors[(host, id)]] == v.authors;
    }
  }

  // ---------- requests that are not contained ----------

  /** What the line of a key reads as at some place. */
  function ReadsAt(w: Codec, host: Host, key: Key, value: string, host': Host, key': Key): Maybe<string>
  {
    Lookup(ReadBack(Entry(w.hostName(host), w.keyName(key), value)), w.hostName(host'), w.keyName(key'))
  }

  /** The vault comes to one place later than to another. */
  predicate StandsBehind(w: Codec, host: Host, key: Key, host': Host, key': Key)
  {
    PlaceLess(w.hostName(host), w.keyName(key), w.hostName(host'), w.keyName(key'))
  }

  /** A written line reads as an entry at a place that holds `was`, and a lookup there finds that entry. */
  predicate Wins(w: Codec, host: Host, key: Key, value: string, host': Host, key': Key, was: Maybe<string>)
  {
    ReadsAt(w, host, key, value, host', key').Some? && (was.None? || StandsBehind(w, host, key, host', key'))
  }

  /** The exact effect of one write, with any key and any value, on every place but the written one. */
  lemma WriteReaches(w: Codec, es: seq<Entry>, host: Host, key: Key, value: string, host': Host, key': Key)
    requires Sound(w) && AllClean(es) && (host' != host || key' != key)
    ensures var was := At(w, es, host', key');
      At(w, Write(w, es, host, key, value), host', key')
      == if Wins(w, host, key, value, host', key', was) then ReadsAt(w, host, key, value, host', key') else was
  {
    LookupAfterSet(es, w.hostName(host), w.keyName(key), value, w.hostName(host'), w.keyName(key'));
  }

  /** What a place outside a credential holds after the credential has been stored. */
  function Reached(w: Codec, host: Host, m: Meta, secret: string, done: Effect, host': Host, key': Key,
      was: Maybe<string>): Maybe<string>
  {
    var metaKey, secretKey := MetaKey(m.id), SecretKey(m.id);
    var mid := if done.metaDone && Wins(w, host, metaKey, w.encode(m), host', key', was)
               then ReadsAt(w, host, metaKey, w.encode(m), host', key') else was;
    if done.secretDone && Wins(w, host, secretKey, secret, host', key', mid)
    then ReadsAt(w, host, secretKey, secret, host', key') else mid
  }

  predicate Outside(host: Host, id: string, host': Host, key': Key)
  {
    host' != host || (key' != MetaKey(id) && key' != SecretKey(id))
  }

  /** The exact effect of storing any credential, whatever its id and its secret, on every place outside it. */
  lemma PutReaches(w: Codec, es: seq<Entry>, host: Host, m: Meta, secret: string, done: Effect, host': Host, key': Key)
    requires Sound(w) && AllClean(es) && Outside(host, m.id, host', key')
    ensures At(w, Put(w, es, host, m, secret, done), host', key')
         == Reached(w, host, m, secret, done, host', key', At(w, es, host', key'))
  {
    var withMeta := if done.metaDone then Write(w, es, host, MetaKey(m.id), w.encode(m)) else es;
    WriteReaches(w, es, host, MetaKey(m.id), w.encode(m), host', key');
    SetIsClean(es, w.hostName(host), w.keyName(MetaKey(m.id)), w.encode(m));
    WriteReaches(w, withMeta, host, SecretKey(m.id), secret, host', key');
  }

  /**
   One of the two lines of a credential reads as something else than what a place holds, and wins the lookup there.
   */
  predicate Disturbs(w: Codec, host: Host, m: Meta, secret: string, done: Effect, host': Host, key': Key,
      was: Maybe<string>)
  {
    var metaKey, secretKey := MetaKey(m.id), SecretKey(m.id);
    var metaWins := done.metaDone && Wins(w, host, metaKey, w.encode(m), host', key', was);
    var mid := if metaWins then ReadsAt(w, host, metaKey, w.encode(m), host', key') else was;
    if done.secretDone && Wins(w, host, secretKey, secret, host', key', mid)
    then ReadsAt(w, host, secretKey, secret, host', key') != was
    else metaWins && ReadsAt(w, host, metaKey, w.encode(m), host', key') != was
  }

  /**
   A set request, contained or not, changes a place outside its credential exactly when one of its lines reads as an
   entry there that differs from what there was and wins the lookup.
   */
  lemma RequestReachesExactly(w: Codec, v: Vault, c: Caller, r: SetRequest, done: Effect, host': Host, key': Key)
    requires Sound(w) && AllClean(v.entries) && PlanSet(w, v.entries, c, r).Store?
    requires Outside(PlanSet(w, v.entries, c, r).host, IdOf(r), host', key')
    ensures var plan, was := PlanSet(w, v.entries, c, r), At(w, v.entries, host', key');
      At(w, SetStep(w, v, c, r, done).0.entries, host', key') != was
      <==> Disturbs(w, plan.host, plan.meta, plan.secret, done, host', key', was)
  {
    var plan := PlanSet(w, v.entries, c, r);
    PutReaches(w, v.entries, plan.host, plan.meta, plan.secret, done, host', key');
  }

  /** The lines of a credential read as nothing outside it. */
  ghost predicate Confined(w: Codec, host: Host, m: Meta, secret: string)
  {
    forall host': Host, key': Key :: Outside(host, m.id, host', key') ==>
      && ReadsAt(w, host, MetaKey(m.id), w.encode(m), host', key').None?
      && ReadsAt(w, host, SecretKey(m.id), secret, host', key').None?
  }

  /** Storing a credential leaves every place outside it as it is, in every vault. */
  ghost predicate LeavesOthers(w: Codec, host: Host, m: Meta, secret: string)
  {
    forall es: seq<Entry>, host': Host, key': Key :: AllClean(es) && Outside(host, m.id, host', key') ==>
      At(w, Put(w, es, host, m, secret, Effect(true, true)), host', key') == At(w, es, host', key')
  }

  lemma LeavesOthersOfNone(w: Codec, host: Host, m: Meta, secret: string, host': Host, key': Key)
    requires Sound(w) && LeavesOthers(w, host, m, secret) && Outside(host, m.id, host', key')
    ensures ReadsAt(w, host, MetaKey(m.id), w.encode(m), host', key').None?
    ensures ReadsAt(w, host, SecretKey(m.id), secret, host', key').None?
  {
    var none: seq<Entry> := [];
    assert AllClean(none) && At(w, none, host', key').None?;
    PutReaches(w, none, host, m, secret, Effect(true, true), host', key');
  }

  lemma ConfinedLeavesOthers(w: Codec, es: seq<Entry>, host: Host, m: Meta, secret: string, host': Host, key': Key)
    requires Sound(w) && Confined(w, host, m, secret) && AllClean(es) && Outside(host, m.id, host', key')
    ensures At(w, Put(w, es, host, m, secret, Effect(true, true)), host', key') == At(w, es, host', key')
  {
    PutReaches(w, es, host, m, secret, Effect(true, true), host', key');
  }

  /** No vault is disturbed outside the credential exactly when its lines read as nothing outside it. */
  lemma ConfinedExactly(w: Codec, host: Host, m: Meta, secret: string)
    requires Sound(w)
    ensures LeavesOthers(w, host, m, secret) <==> Confined(w, host, m, secret)
  {
    if LeavesOthers(w, host, m, secret) {
      forall host': Host, key': Key | Outside(host, m.id, host', key')
        ensures ReadsAt(w, host, MetaKey(m.id), w.encode(m), host', key').None?
        ensures ReadsAt(w, host, SecretKey(m.id), secret, host', key').None?
      {
        LeavesOthersOfNone(w, host, m, secret, host', key');
      }
    }
    if Confined(w, host, m, secret) {
      forall es: seq<Entry>, host': Host, key': Key | AllClean(es) && Outside(host, m.id, host', key')
        ensures At(w, Put(w, es, host, m, secret, Effect(true, true)), host', key') == At(w, es, host', key')
      {
        ConfinedLeavesOthers(w, es, host, m, secret, host', key');
      }
    }
  }

  /** A contained request stores a credential that is confined to its own place. */
  lemma ContainedIsConfined(w: Codec, scope: Scope, user: string, m: Meta, secret: string)
    requires Sound(w) && PlainText(m.id) && Spill(secret) == []
    ensures Confined(w, HostFor(w, scope, user), m, secret)
  {
    var host := HostFor(w, scope, user);
    RecordIsContained(w, m);
    EntryReads(w.hostName(host), w.keyName(MetaKey(m.id)), w.encode(m));
    EntryReads(w.hostName(host), w.keyName(SecretKey(m.id)), secret);
    forall host': Host, key': Key | Outside(host, m.id, host', key')
      ensures ReadsAt(w, host, MetaKey(m.id), w.encode(m), host', key').None?
      ensures ReadsAt(w, host, SecretKey(m.id), secret, host', key').None?
    {
      LookupIsEntry(ReadBack(Entry(w.hostName(host), w.keyName(MetaKey(m.id)), w.encode(m))),
                    w.hostName(host'), w.keyName(key'));
      LookupIsEntry(ReadBack(Entry(w.hostName(host), w.keyName(SecretKey(m.id)), secret)),
                    w.hostName(host'), w.keyName(key'));
    }
  }

  /** A line end and the line of an entry behind some text. */
  function WithLine(text: string, e: Entry): string
  {
    text + ("\n" + LineOf(e))
  }

  lemma SpillsTheLine(text: string, e: Entry)
    requires '\n' !in text && Clean(e)
    ensures Lookup(Spill(WithLine(text, e)), e.host, e.key) == Some(e.value)
  {
    FirstLineOf(text, LineOf(e));
    CleanEntryReads(e);
  }

  /** A second line in the value of a key is read as an entry. */
  lemma LineInValueReads(w: Codec, scope: Scope, user: string, key: Key, text: string, host': Host, key': Key,
      value: string)
    requires Sound(w) && PlainText(key.id) && '\n' !in text && (host' != HostFor(w, scope, user) || key' != key)
    requires Clean(Entry(w.hostName(host'), w.keyName(key'), value))
    ensures var secret := WithLine(text, Entry(w.hostName(host'), w.keyName(key'), value));
      ReadsAt(w, HostFor(w, scope, user), key, secret, host', key') == Some(value)
  {
    var host, e := HostFor(w, scope, user), Entry(w.hostName(host'), w.keyName(key'), value);
    var first := Entry(w.hostName(host), w.keyName(key), Kept(WithLine(text, e)));
    EntryReads(w.hostName(host), w.keyName(key), WithLine(text, e));
    SpillsTheLine(text, e);
    LookupConcat([first], Spill(WithLine(text, e)), w.hostName(host'), w.keyName(key'));
    assert [first][1..] == [];
  }

  /** A request with an id that nothing stands under is stored as it is. */
  lemma PlansNew(w: Codec, es: seq<Entry>, u: string, r: SetRequest)
    requires r.scope == Some(User) && r.details.label_ != "" && r.secret != ""
    requires r.id == "" || GetMeta(w, es, UserHost(w.slug(u)), r.id).None?
    ensures PlanSet(w, es, Caller(u, Operator), r)
         == Store(UserHost(w.slug(u)), NewMeta(Caller(u, Operator), r, User, u, None), r.secret)
  {
  }

  /**
   The secret has to be contained: for every place that is vacant, or that the vault sorts behind the caller's own, and
   for every value, there is a secret that puts that value there, whatever the caller's role allows otherwise.
   */
  lemma ContainmentIsNeeded(
    w: Codec, v: Vault, u: string, r: SetRequest, text: string, scope': Scope, user': string, key': Key, value: string)
    requires Sound(w) && WellKept(w, v.entries)
    requires r.scope == Some(User) && r.id == "" && r.newId != "" && PlainText(r.newId) && r.details.label_ != ""
    requires '\n' !in text && PlainText(key'.id) && key'.id != r.newId && CleanValue(value)
    requires r.secret == WithLine(text, Entry(w.hostName(HostFor(w, scope', user')), w.keyName(key'), value))
    requires At(w, v.entries, HostFor(w, scope', user'), key').None?
      || Less(w.hostName(UserHost(w.slug(u))), w.hostName(HostFor(w, scope', user')))
    ensures At(w, SetStep(w, v, Caller(u, Operator), r, Effect(true, true)).0.entries, HostFor(w, scope', user'), key')
         == Some(value)
  {
    var c, host' := Caller(u, Operator), HostFor(w, scope', user');
    PlansNew(w, v.entries, u, r);
    LessIsStrict(w.hostName(UserHost(w.slug(u))), w.hostName(host'));
    SecretReaches(w, v.entries, u, NewMeta(c, r, User, u, None), text, host', key', value);
  }

  lemma SecretReaches(w: Codec, es: seq<Entry>, u: string, m: Meta, text: string, host': Host, key': Key,
      value: string)
    requires Sound(w) && AllClean(es) && PlainText(m.id) && '\n' !in text && key'.id != m.id
    requires Clean(Entry(w.hostName(host'), w.keyName(key'), value))
    requires At(w, es, host', key').None? || StandsBehind(w, UserHost(w.slug(u)), SecretKey(m.id), host', key')
    ensures var secret := WithLine(text, Entry(w.hostName(host'), w.keyName(key'), value));
      At(w, Put(w, es, UserHost(w.slug(u)), m, secret, Effect(true, true)), host', key') == Some(value)
  {
    var host, secret := UserHost(w.slug(u)), WithLine(text, Entry(w.hostName(host'), w.keyName(key'), value));
    assert host == HostFor(w, User, u);
    RecordIsContained(w, m);
    WriteAt(w, es, User, u, MetaKey(m.id), w.encode(m), host', key');
    SetIsClean(es, w.hostName(host), w.keyName(MetaKey(m.id)), w.encode(m));
    LineInValueReads(w, User, u, SecretKey(m.id), text, host', key', value);
    WriteReaches(w, Write(w, es, host, MetaKey(m.id), w.encode(m)), host, SecretKey(m.id), secret, host', key');
  }

  /** What an id looks like that has the line of an entry in its middle. */
  function IdAround(front: string, e: Entry, back: string): string
  {
    front + ("\n" + (LineOf(e) + ("\n" + back)))
  }

  lemma LineInIdReads(w: Codec, host: Host, front: string, e: Entry, back: string, value: string, host': Host,
      key': Key)
    requires Sound(w) && KeysExtend(w) && CleanHost(w.hostName(host)) && PlainText(front)
    requires Clean(e) && e.host == w.hostName(host') && e.key == w.keyName(key')
    ensures var id := IdAround(front, e, back);
      && ReadsAt(w, host, MetaKey(id), value, host', key') == Some(e.value)
      && ReadsAt(w, host, SecretKey(id), value, host', key') == Some(e.value)
  {
    var more := "\n" + (LineOf(e) + ("\n" + back));
    assert w.keyName(MetaKey(front + more)) == w.keyName(MetaKey(front)) + more;
    assert w.keyName(SecretKey(front + more)) == w.keyName(SecretKey(front)) + more;
    LineInKeyReads(w.hostName(host), w.keyName(MetaKey(front)), e, back, value);
    LineInKeyReads(w.hostName(host), w.keyName(SecretKey(front)), e, back, value);
  }

  /** Nothing is found under an id that is not plain. */
  lemma OnlyPlainIdsAreFound(w: Codec, es: seq<Entry>, host: Host, id: string)
    requires Sound(w) && WellKept(w, es) && !PlainText(id)
    ensures GetMeta(w, es, host, id).None?
  {
    FoundAtHost(w, es, host, id);
    LookupIsEntry(es, w.hostName(host), w.keyName(MetaKey(id)));
    CleanByMembers(es);
  }

  /**
   The id has to be plain, too: for each such place and value there is an id that puts that value there, whatever the
   secret.
   */
  lemma PlainIdIsNeeded(
    w: Codec, v: Vault, u: string, r: SetRequest, front: string, back: string, scope': Scope, user': string, key': Key,
    value: string)
    requires Sound(w) && KeysExtend(w) && WellKept(w, v.entries)
    requires r.scope == Some(User) && r.details.label_ != "" && r.secret != ""
    requires PlainText(front) && PlainText(key'.id) && CleanValue(value)
    requires r.id == IdAround(front, Entry(w.hostName(HostFor(w, scope', user')), w.keyName(key'), value), back)
    requires At(w, v.entries, HostFor(w, scope', user'), key').None?
      || Less(w.hostName(UserHost(w.slug(u))), w.hostName(HostFor(w, scope', user')))
    ensures At(w, SetStep(w, v, Caller(u, Operator), r, Effect(true, true)).0.entries, HostFor(w, scope', user'), key')
         == Some(value)
  {
    var c, host, host' := Caller(u, Operator), HostFor(w, User, u), HostFor(w, scope', user');
    var e := Entry(w.hostName(host'), w.keyName(key'), value);
    var m := NewMeta(c, r, User, u, None);
    assert r.id[|front|] == '\n';
    OnlyPlainIdsAreFound(w, v.entries, host, r.id);
    PlansNew(w, v.entries, u, r);
    LessIsStrict(w.hostName(host), w.hostName(host'));
    LineInIdReads(w, host, front, e, back, w.encode(m), host', key');
    LineInIdReads(w, host, front, e, back, r.secret, host', key');
    PutReaches(w, v.entries, host, m, r.secret, Effect(true, true), host', key');
  }

  lemma KeyIsOneLine(w: Codec, key: Key)
    requires Sound(w) && KeysExtend(w) && '\n' !in key.id
    ensures '\n' !in w.keyName(key)
  {
    var id, k := "" + key.id, if key.MetaKey? then MetaKey("") else SecretKey("");
    assert id == key.id && PlainText(w.keyName(k));
    assert w.keyName(key) == w.keyName(k) + key.id;
  }

  /** An id with a bar but no line end can disturb a vacant place only. */
  lemma BarDisturbsOnlyVacant(w: Codec, scope: Scope, user: string, m: Meta, secret: string, done: Effect, host': Host,
      key': Key, was: Maybe<string>)
    requires Sound(w) && KeysExtend(w) && '\n' !in m.id && '|' in m.id && Spill(secret) == []
    requires Disturbs(w, HostFor(w, scope, user), m, secret, done, host', key', was)
    ensures was.None?
  {
    var host := HostFor(w, scope, user);
    RecordIsContained(w, m);
    BarredIsNotBehind(w, scope, user, MetaKey(m.id), w.encode(m), host', key');
    BarredIsNotBehind(w, scope, user, SecretKey(m.id), secret, host', key');
  }

  lemma BarredIsNotBehind(w: Codec, scope: Scope, user: string, key: Key, value: string, host': Host, key': Key)
    requires Sound(w) && KeysExtend(w) && '\n' !in key.id && '|' in key.id && Spill(value) == []
    ensures StandsBehind(w, HostFor(w, scope, user), key, host', key') ==>
      ReadsAt(w, HostFor(w, scope, user), key, value, host', key').None?
  {
    var host := HostFor(w, scope, user);
    KeyIsOneLine(w, key);
    assert !PlainText(w.keyName(key)) && CleanHost(w.hostName(host));
    if ReadsAt(w, host, key, value, host', key').Some? {
      BarredKeyIsNotBehind(w.hostName(host), w.keyName(key), value, w.hostName(host'), w.keyName(key'));
    }
  }
}
