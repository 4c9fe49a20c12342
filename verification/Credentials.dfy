/**
 Credentials in the vault, each either global or owned by one user. Two users may share a place in the vault, because a
 user's name is reduced to a slug, and what a request carries is written as text. Here are the handlers, each by itself;
 how their steps interleave is another module's matter.
 */
module Credentials {
  import opened Common
  import opened VaultFile

  datatype Role = Viewer | Operator | Admin | Protected | NoRole

  function Rank(role: Role): int
  {
    match role
    case Viewer => 0
    case Operator => 1
    case Admin => 2
    case Protected => 3
    case NoRole => -1
  }

  predicate AtLeast(role: Role, minimum: Role)
  {
    Rank(role) >= Rank(minimum)
  }

  datatype Scope = Global | User

  /** Where credentials stand: one place for global ones, one for each slug. */
  datatype Host = GlobalHost | UserHost(slug: string)

  datatype Key = MetaKey(id: string) | SecretKey(id: string)

  datatype Details = Details(
    label_: string, username: string, url: string, notes: string, tags: seq<string>, kind: string)

  datatype Meta = Meta(
    id: string, scope: Scope, owner: string, details: Details,
    createdAt: int, updatedAt: int, createdBy: string, updatedBy: string)

  /** How names and records are put into text. */
  datatype Codec = Codec(
    slug: string -> string,
    hostName: Host -> string,
    isHost: string -> bool,
    keyName: Key -> string,
    metaId: string -> Maybe<string>,
    encode: Meta -> string,
    decode: string -> Maybe<Meta>)

  /** A longer id makes for a longer key. */
  ghost predicate KeysExtend(w: Codec)
  {
    && (forall id: string, more: string :: w.keyName(MetaKey(id + more)) == w.keyName(MetaKey(id)) + more)
    && (forall id: string, more: string :: w.keyName(SecretKey(id + more)) == w.keyName(SecretKey(id)) + more)
  }

  function HostFor(w: Codec, scope: Scope, owner: string): Host
  {
    if scope.Global? then GlobalHost else UserHost(w.slug(owner))
  }

  /** Names are clean and differ, keys are as plain as their ids, and records are lines that read back. */
  ghost predicate Sound(w: Codec)
  {
    && (forall a: Host, b: Host :: w.hostName(a) == w.hostName(b) ==> a == b)
    && (forall h: Host :: w.isHost(w.hostName(h)) && w.hostName(h) != DEFAULT)
    && (forall scope: Scope, user: string :: CleanHost(w.hostName(HostFor(w, scope, user))))
    && (forall s: string :: Less(w.hostName(GlobalHost), w.hostName(UserHost(s))))
    && (forall a: Key, b: Key :: w.keyName(a) == w.keyName(b) ==> a == b)
    && (forall k: Key :: PlainText(w.keyName(k)) <==> PlainText(k.id))
    && (forall name: string, id: string :: w.metaId(name) == Some(id) <==> name == w.keyName(MetaKey(id)))
    && (forall m: Meta :: w.decode(w.encode(m)) == Some(m) && w.encode(m) != "" && CleanValue(w.encode(m)))
  }

  // ---------- access ----------

  /** What stands at a place itself. */
  function At(w: Codec, es: seq<Entry>, host: Host, key: Key): Maybe<string>
  {
    Lookup(es, w.hostName(host), w.keyName(key))
  }

  function Get(w: Codec, es: seq<Entry>, host: Host, key: Key): string
  {
    GetIn(es, w.hostName(host), w.keyName(key))
  }

  function GetMeta(w: Codec, es: seq<Entry>, host: Host, id: string): Maybe<Meta>
  {
    var raw := Get(w, es, host, MetaKey(id));
    if raw == "" then None else w.decode(raw)
  }

  function GetSecret(w: Codec, es: seq<Entry>, host: Host, id: string): string
  {
    Get(w, es, host, SecretKey(id))
  }

  function Write(w: Codec, es: seq<Entry>, host: Host, key: Key, value: string): seq<Entry>
  {
    SetIn(es, w.hostName(host), w.keyName(key), value)
  }

  function Erase(w: Codec, es: seq<Entry>, host: Host, key: Key): seq<Entry>
  {
    DeleteIn(es, w.hostName(host), w.keyName(key))
  }

  predicate CanRead(m: Meta, user: string, role: Role)
  {
    AtLeast(role, Operator) && (m.scope.Global? || m.owner == user)
  }

  predicate CanWrite(scope: Scope, owner: string, user: string, role: Role)
  {
    if scope.Global? then AtLeast(role, Admin) else AtLeast(role, Operator) && owner == user
  }

  // ---------- requests ----------

  /** Who asks. */
  datatype Caller = Caller(user: string, role: Role)

  /** What a request to store a credential carries; an empty id asks for a new one, `newId`. */
  datatype SetRequest = SetRequest(
    scope: Maybe<Scope>, id: string, newId: string, details: Details, secret: string, now: int)

  /** Which of the two writes or deletions of a request the vault carried out. */
  datatype Effect = Effect(metaDone: bool, secretDone: bool)

  datatype Reply = Forbidden | BadRequest | NotFound | Failed | Saved(meta: Meta) | Deleted(any: bool)

  /** The vault as it reads; `authors` says who typed the secret that a place holds for an id. */
  datatype Vault = Vault(entries: seq<Entry>, authors: map<(Host, string), string>)

  /** The credential a set request is about to store, or the reply that refuses it. */
  datatype Plan = Refuse(reply: Reply) | Store(host: Host, meta: Meta, secret: string)

  function IdOf(r: SetRequest): string
  {
    if r.id == "" then r.newId else r.id
  }

  function ExistingMeta(w: Codec, es: seq<Entry>, c: Caller, scope: Scope, id: string): Maybe<Meta>
  {
    if id == "" then None else GetMeta(w, es, HostFor(w, scope, c.user), id)
  }

  /** What a request is told after its first look into the vault. */
  datatype Access<T> = Denied(reply: Reply) | Granted(value: T)

  /** A set request looks for the record there is under its id. */
  function LookUp(w: Codec, es: seq<Entry>, c: Caller, r: SetRequest): Access<Maybe<Meta>>
  {
    if !AtLeast(c.role, Operator) then Denied(Forbidden)
    else if r.scope.None? then Denied(BadRequest)
    else if !CanWrite(r.scope.value, OwnerFor(c, r.scope.value), c.user, c.role) then Denied(Forbidden)
    else if r.details.label_ == "" then Denied(BadRequest)
    else
      var existing := ExistingMeta(w, es, c, r.scope.value, r.id);
      if existing.Some? && !CanWrite(existing.value.scope, existing.value.owner, c.user, c.role)
      then Denied(Forbidden)
      else Granted(existing)
  }

  function OwnerFor(c: Caller, scope: Scope): string
  {
    if scope.Global? then "" else c.user
  }

  /** Then it settles what to store: without a secret of its own it takes the one there is. */
  function Settle(w: Codec, es: seq<Entry>, c: Caller, r: SetRequest, existing: Maybe<Meta>): Plan
    requires r.scope.Some?
  {
    var scope, owner := r.scope.value, OwnerFor(c, r.scope.value);
    var secret := if existing.Some? && r.secret == ""
                  then GetSecret(w, es, HostFor(w, existing.value.scope, existing.value.owner), IdOf(r))
                  else r.secret;
    if secret == "" then Refuse(BadRequest)
    else Store(HostFor(w, scope, owner), NewMeta(c, r, scope, owner, existing), secret)
  }

  /** Both at once. */
  function PlanSet(w: Codec, es: seq<Entry>, c: Caller, r: SetRequest): Plan
  {
    match LookUp(w, es, c, r)
    case Denied(reply) => Refuse(reply)
    case Granted(existing) => Settle(w, es, c, r, existing)
  }

  /** The record of a credential: an existing one keeps its origin. */
  function NewMeta(c: Caller, r: SetRequest, scope: Scope, owner: string, existing: Maybe<Meta>): Meta
  {
    Meta(IdOf(r), scope, owner, r.details, if existing.Some? then existing.value.createdAt else r.now, r.now,
         if existing.Some? then existing.value.createdBy else c.user, c.user)
  }

  function Put(w: Codec, es: seq<Entry>, host: Host, meta: Meta, secret: string, done: Effect): seq<Entry>
  {
    var withMeta := if done.metaDone then Write(w, es, host, MetaKey(meta.id), w.encode(meta)) else es;
    if done.secretDone then Write(w, withMeta, host, SecretKey(meta.id), secret) else withMeta
  }

  /** A secret is by whoever typed it; saving a credential anew with the secret it has does not change that. */
  function Author(v: Vault, c: Caller, r: SetRequest, host: Host): string
  {
    if r.secret == "" && (host, IdOf(r)) in v.authors then v.authors[(host, IdOf(r))] else c.user
  }

  function SetStep(w: Codec, v: Vault, c: Caller, r: SetRequest, done: Effect): (Vault, Reply)
  {
    match PlanSet(w, v.entries, c, r)
    case Refuse(reply) => (v, reply)
    case Store(host, meta, secret) =>
      (Vault(Put(w, v.entries, host, meta, secret, done),
             if done.secretDone then v.authors[(host, meta.id) := Author(v, c, r, host)] else v.authors),
       if done.metaDone && done.secretDone then Saved(meta) else Failed)
  }

  datatype Revealed = Refused(reply: Reply) | Shown(meta: Meta, secret: string)

  /** A reveal request looks for a record that the caller may read. */
  function ToReveal(w: Codec, es: seq<Entry>, c: Caller, scope: Maybe<Scope>, id: string): Access<Meta>
  {
    if !AtLeast(c.role, Operator) then Denied(Forbidden)
    else if scope.None? || id == "" then Denied(BadRequest)
    else
      match GetMeta(w, es, HostFor(w, scope.value, c.user), id)
      case None => Denied(NotFound)
      case Some(meta) => if CanRead(meta, c.user, c.role) then Granted(meta) else Denied(NotFound)
  }

  function RevealStep(w: Codec, es: seq<Entry>, c: Caller, scope: Maybe<Scope>, id: string): Revealed
  {
    match ToReveal(w, es, c, scope, id)
    case Denied(reply) => Refused(reply)
    case Granted(meta) => Shown(meta, GetSecret(w, es, HostFor(w, scope.value, c.user), id))
  }

  function Remove(w: Codec, es: seq<Entry>, host: Host, id: string, done: Effect): seq<Entry>
  {
    var withoutMeta := if done.metaDone then Erase(w, es, host, MetaKey(id)) else es;
    if done.secretDone then Erase(w, withoutMeta, host, SecretKey(id)) else withoutMeta
  }

  /** A delete request looks for a record that the caller may write. */
  function ToDelete(w: Codec, es: seq<Entry>, c: Caller, scope: Maybe<Scope>, id: string): Access<Meta>
  {
    if !AtLeast(c.role, Operator) then Denied(Forbidden)
    else if scope.None? || id == "" then Denied(BadRequest)
    else
      match GetMeta(w, es, HostFor(w, scope.value, c.user), id)
      case None => Denied(NotFound)
      case Some(meta) =>
        if CanWrite(meta.scope, meta.owner, c.user, c.role) then Granted(meta) else Denied(NotFound)
  }

  function DeleteStep(w: Codec, v: Vault, c: Caller, scope: Maybe<Scope>, id: string, done: Effect): (Vault, Reply)
  {
    match ToDelete(w, v.entries, c, scope, id)
    case Denied(reply) => (v, reply)
    case Granted(_) =>
      var host := HostFor(w, scope.value, c.user);
      (v.(entries := Remove(w, v.entries, host, id, done)), Deleted(RemovesAny(w, v.entries, host, id, done)))
  }

  predicate RemovesAny(w: Codec, es: seq<Entry>, host: Host, id: string, done: Effect)
  {
    || (done.metaDone && At(w, es, host, MetaKey(id)).Some?)
    || (done.secretDone && At(w, Remove(w, es, host, id, Effect(done.metaDone, false)), host, SecretKey(id)).Some?)
  }

  // ---------- the list ----------

  datatype Row = Row(meta: Meta, hasSecret: bool)

  /** The record on an entry, if it is one. */
  function RecordOf(w: Codec, e: Entry): Maybe<Meta>
  {
    if w.metaId(e.key).None? || !w.isHost(e.host) then None
    else
      match w.decode(e.value)
      case Some(meta) => if meta.id == "" then None else Some(meta)
      case None => None
  }

  function RowFor(w: Codec, es: seq<Entry>, meta: Meta): Row
  {
    Row(meta, GetSecret(w, es, HostFor(w, meta.scope, meta.owner), meta.id) != "")
  }

  // ---------- the vault in use ----------

  class CredentialStore {
    const w: Codec
    var text: string
    ghost var authors: map<(Host, string), string>

    ghost function Abs(): Vault
      reads this
    {
      Vault(Parse(text), authors)
    }

    constructor (w: Codec)
      ensures this.w == w && Abs() == Vault([], map[])
    {
      this.w, text, authors := w, "", map[];
      EmptyReadsNothing();
    }

    method FindMeta(id: string, scope: Scope, user: string) returns (meta: Maybe<Meta>, host: Host)
      ensures host == HostFor(w, scope, user) && meta == GetMeta(w, Parse(text), host, id)
    {
      host := if scope.User? then UserHost(w.slug(user)) else GlobalHost;
      var raw := VaultGet(text, w.hostName(host), w.keyName(MetaKey(id)), true);
      meta := if raw == "" then None else w.decode(raw);
    }

    /** The checks of a set request, up to the point where it is known what to store. */
    method CheckSet(c: Caller, r: SetRequest) returns (plan: Plan)
      ensures plan == PlanSet(w, Parse(text), c, r)
    {
      if !AtLeast(c.role, Operator) {
        return Refuse(Forbidden);
      }
      if r.scope.None? {
        return Refuse(BadRequest);
      }
      var scope := r.scope.value;
      var owner := if scope.Global? then "" else c.user;
      if !CanWrite(scope, owner, c.user, c.role) {
        return Refuse(Forbidden);
      }
      if r.details.label_ == "" {
        return Refuse(BadRequest);
      }
      var existing: Maybe<Meta>, id := None, r.id;
      if id != "" {
        var found;
        existing, found := FindMeta(id, scope, c.user);
        if existing.Some? && !CanWrite(existing.value.scope, existing.value.owner, c.user, c.role) {
          return Refuse(Forbidden);
        }
      } else {
        id := r.newId;
      }
      var secret := r.secret;
      if existing.Some? && secret == "" {
        var from := HostFor(w, existing.value.scope, existing.value.owner);
        secret := VaultGet(text, w.hostName(from), w.keyName(SecretKey(id)), true);
      }
      if secret == "" {
        return Refuse(BadRequest);
      }
      return Store(HostFor(w, scope, owner), NewMeta(c, r, scope, owner, existing), secret);
    }

    /** Create or change a credential. */
    method Set(c: Caller, r: SetRequest, done: Effect) returns (reply: Reply)
      modifies this
      ensures (Abs(), reply) == SetStep(w, old(Abs()), c, r, done)
    {
      ghost var before := Abs();
      var plan := CheckSet(c, r);
      if plan.Refuse? {
        return plan.reply;
      }
      reply := SaveBoth(plan.host, plan.meta, plan.secret, done, Author(before, c, r, plan.host));
    }

    /** The two writes of a credential, each of which may fail. */
    method SaveBoth(host: Host, meta: Meta, secret: string, done: Effect, ghost author: string) returns (reply: Reply)
      modifies this
      ensures Parse(text) == Put(w, old(Parse(text)), host, meta, secret, done)
      ensures authors == if done.secretDone then old(authors)[(host, meta.id) := author] else old(authors)
      ensures reply == if done.metaDone && done.secretDone then Saved(meta) else Failed
    {
      text := VaultSet(text, w.hostName(host), w.keyName(MetaKey(meta.id)), w.encode(meta), true, done.metaDone);
      text := VaultSet(text, w.hostName(host), w.keyName(SecretKey(meta.id)), secret, true, done.secretDone);
      if done.secretDone {
        authors := authors[(host, meta.id) := author];
      }
      return if done.metaDone && done.secretDone then Saved(meta) else Failed;
    }

    /** Show the secret of one credential. */
    method Reveal(c: Caller, scope: Maybe<Scope>, id: string) returns (shown: Revealed)
      ensures shown == RevealStep(w, Parse(text), c, scope, id)
    {
      if !AtLeast(c.role, Operator) {
        return Refused(Forbidden);
      }
      if scope.None? || id == "" {
        return Refused(BadRequest);
      }
      var meta, host := FindMeta(id, scope.value, c.user);
      if meta.None? {
        return Refused(NotFound);
      }
      if !CanRead(meta.value, c.user, c.role) {
        return Refused(NotFound);
      }
      var secret := VaultGet(text, w.hostName(host), w.keyName(SecretKey(id)), true);
      return Shown(meta.value, secret);
    }

    /** Remove one credential. */
    method Delete(c: Caller, scope: Maybe<Scope>, id: string, done: Effect) returns (reply: Reply)
      modifies this
      ensures (Abs(), reply) == DeleteStep(w, old(Abs()), c, scope, id, done)
    {
      if !AtLeast(c.role, Operator) {
        return Forbidden;
      }
      if scope.None? || id == "" {
        return BadRequest;
      }
      var meta, host := FindMeta(id, scope.value, c.user);
      if meta.None? {
        return NotFound;
      }
      if !CanWrite(meta.value.scope, meta.value.owner, c.user, c.role) {
        return NotFound;
      }
      var any := RemoveBoth(host, id, done);
      return Deleted(any);
    }

    /** The two deletions of a credential, each of which may fail or find nothing. */
    method RemoveBoth(host: Host, id: string, done: Effect) returns (any: bool)
      modifies this`text
      ensures Parse(text) == Remove(w, old(Parse(text)), host, id, done)
      ensures any == RemovesAny(w, old(Parse(text)), host, id, done)
    {
      var okMeta, okSecret;
      text, okMeta := VaultDelete(text, w.hostName(host), w.keyName(MetaKey(id)), true, done.metaDone);
      text, okSecret := VaultDelete(text, w.hostName(host), w.keyName(SecretKey(id)), true, done.secretDone);
      return okMeta || okSecret;
    }

    /** List what the caller may read, by going through all entries. */
    method List(c: Caller) returns (allowed: bool, rows: seq<Row>)
      ensures allowed <==> AtLeast(c.role, Operator)
      ensures forall row :: row in rows <==> allowed && Listed(w, Parse(text), c, row)
    {
      allowed, rows := AtLeast(c.role, Operator), [];
      if allowed {
        var entries := ParseEntries(text);
        rows := CollectRows(entries, c);
        AllRowsAreListed(w, entries, c);
      }
    }

    method CollectRows(entries: seq<Entry>, c: Caller) returns (rows: seq<Row>)
      requires entries == Parse(text)
      ensures rows == RowsOf(w, entries, c, |entries|)
    {
      rows := [];
      for i := 0 to |entries|
        invariant rows == RowsOf(w, entries, c, i)
      {
        var more := ReadRow(entries[i], c, entries);
        rows := rows + more;
      }
    }

    method ReadRow(e: Entry, c: Caller, ghost entries: seq<Entry>) returns (rows: seq<Row>)
      requires entries == Parse(text)
      ensures rows == RowOn(w, entries, c, e)
    {
      var record := RecordOf(w, e);
      if record.Some? && CanRead(record.value, c.user, c.role) {
        var row := MakeRow(record.value, entries);
        return [row];
      }
      return [];
    }

    method MakeRow(meta: Meta, ghost entries: seq<Entry>) returns (row: Row)
      requires entries == Parse(text)
      ensures row == RowFor(w, entries, meta)
    {
      var host := HostFor(w, meta.scope, meta.owner);
      var secret := VaultGet(text, w.hostName(host), w.keyName(SecretKey(meta.id)), true);
      return Row(meta, secret != "");
    }
  }

  /** The rows that the first `n` entries make. */
  function RowsOf(w: Codec, es: seq<Entry>, c: Caller, n: nat): seq<Row>
    requires n <= |es|
  {
    if n == 0 then [] else RowsOf(w, es, c, n - 1) + RowOn(w, es, c, es[n - 1])
  }

  /** The row for an entry, if it is a record that the caller may read. */
  function RowOn(w: Codec, es: seq<Entry>, c: Caller, e: Entry): seq<Row>
  {
    var record := RecordOf(w, e);
    if record.Some? && CanRead(record.value, c.user, c.role) then [RowFor(w, es, record.value)] else []
  }

  /** One of the first `n` entries is a record that makes this row for the caller. */
  ghost predicate ListedUpTo(w: Codec, es: seq<Entry>, c: Caller, row: Row, n: nat)
    requires n <= |es|
  {
    exists i :: 0 <= i < n && RecordOf(w, es[i]) == Some(row.meta) && CanRead(row.meta, c.user, c.role)
                && row == RowFor(w, es, row.meta)
  }

  ghost predicate Listed(w: Codec, es: seq<Entry>, c: Caller, row: Row)
  {
    ListedUpTo(w, es, c, row, |es|)
  }

  lemma {:induction false} RowsAreListed(w: Codec, es: seq<Entry>, c: Caller, row: Row, n: nat)
    requires n <= |es|
    ensures row in RowsOf(w, es, c, n) <==> ListedUpTo(w, es, c, row, n)
  {
    if n > 0 {
      RowsAreListed(w, es, c, row, n - 1);
    }
  }

  lemma AllRowsAreListed(w: Codec, es: seq<Entry>, c: Caller)
    ensures forall row :: row in RowsOf(w, es, c, |es|) <==> Listed(w, es, c, row)
  {
    forall row
      ensures row in RowsOf(w, es, c, |es|) <==> Listed(w, es, c, row)
    {
      RowsAreListed(w, es, c, row, |es|);
    }
  }
}
