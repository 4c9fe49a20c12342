/**
 The names that credentials have in the vault: places are prefixes with a slug behind them, keys prefixes with an id.
 */
module CredentialNames {
  import opened Common
  import opened Credentials
  import opened VaultFile

  // ---------- slugs ----------

  predicate IsSlugChar(c: char)
  {
    'a' <= c <= 'z' || '0' <= c <= '9' || c == '_' || c == '.' || c == '@' || c == '-'
  }

  /** Every run of other characters becomes one dash. */
  function Squeeze(s: string): (t: string)
    ensures forall i :: 0 <= i < |t| ==> IsSlugChar(t[i])
    decreases |s|
  {
    if s == "" then ""
    else if IsSlugChar(s[0]) then [s[0]] + Squeeze(s[1..])
    else "-" + Squeeze(s[1 + OtherRun(s[1..])..])
  }

  function OtherRun(s: string): (n: nat)
    ensures n <= |s|
  {
    if s == "" || IsSlugChar(s[0]) then 0 else 1 + OtherRun(s[1..])
  }

  /** Dashes are taken off both ends. */
  function StripDashes(s: string): (t: string)
    ensures (forall i :: 0 <= i < |s| ==> IsSlugChar(s[i])) ==> forall i :: 0 <= i < |t| ==> IsSlugChar(t[i])
    decreases |s|
  {
    if s != "" && s[0] == '-' then StripDashes(s[1..])
    else if s != "" && s[|s| - 1] == '-' then StripDashes(s[..|s| - 1])
    else s
  }

  /** The slug of a user name that has already been stripped and put in lower case. */
  function OwnerSlug(name: string): (slug: string)
    ensures slug != "" && |slug| <= 80
    ensures forall i :: 0 <= i < |slug| ==> IsSlugChar(slug[i])
  {
    var s := StripDashes(Squeeze(name));
    if s == "" then "unknown" else s[..Min(80, |s|)]
  }

  lemma SlugIsPlain(slug: string)
    requires forall i :: 0 <= i < |slug| ==> IsSlugChar(slug[i])
    ensures PlainText(slug)
  {
  }

  /** Different names can have the same slug. */
  lemma SlugsCollide()
    ensures OwnerSlug("a b") == OwnerSlug("a-b")
  {
    var s, t := "a b", "a-b";
    assert s[1..] == " b" && s[1..][1..] == "b" && "b"[1..] == "" && OtherRun("b") == 0;
    assert t[1..] == "-b" && t[1..][1..] == "b";
    assert Squeeze("b") == "b";
    assert Squeeze(" b") == "-b" by {
      assert " b"[1..] == "b" && " b"[1 + 0..] == "b";
    }
    assert Squeeze(s) == Squeeze(t) == ['a'] + "-b";
  }

  // ---------- names ----------

  const PLACES: string := "freq:vault:credentials:"

  function HostName(h: Host): string
  {
    match h
    case GlobalHost => PLACES + "global"
    case UserHost(slug) => PLACES + ("user:" + slug)
  }

  predicate IsHost(name: string)
  {
    name == PLACES + "global" || PLACES + "user:" <= name
  }

  function KeyName(k: Key): string
  {
    match k
    case MetaKey(id) => "meta:" + id
    case SecretKey(id) => "secret:" + id
  }

  function MetaId(name: string): Maybe<string>
  {
    if "meta:" <= name then Some(name[5..]) else None
  }

  /** `lower` strips a name and puts it in lower case; records are encoded as JSON. */
  function Names(lower: string -> string, encode: Meta -> string, decode: string -> Maybe<Meta>): Codec
  {
    Codec(name => OwnerSlug(lower(name)), HostName, IsHost, KeyName, MetaId, encode, decode)
  }

  /**
   JSON as `json.dumps` writes it: one line that is not empty, without white space at its end, and that reads back.
   */
  ghost predicate OneLineJson(encode: Meta -> string, decode: string -> Maybe<Meta>)
  {
    forall m: Meta :: decode(encode(m)) == Some(m) && encode(m) != "" && CleanValue(encode(m))
  }

  lemma PrefixesCancel(p: string, a: string, b: string)
    ensures p + a == p + b ==> a == b
  {
    assert (p + a)[|p|..] == a && (p + b)[|p|..] == b;
  }

  lemma {:induction false} LessBehind(p: string, a: string, b: string)
    ensures Less(p + a, p + b) <==> Less(a, b)
    decreases |p|
  {
    if p == "" {
      assert p + a == a && p + b == b;
    } else {
      assert (p + a)[1..] == p[1..] + a && (p + b)[1..] == p[1..] + b;
      LessBehind(p[1..], a, b);
    }
  }

  lemma GlobalIsNoUser(slug: string)
    ensures HostName(GlobalHost) != HostName(UserHost(slug))
  {
    var user := "user:" + slug;
    assert user[0] == 'u' && "global"[0] == 'g';
    PrefixesCancel(PLACES, "global", user);
  }

  lemma HostNamesDiffer(a: Host, b: Host)
    ensures HostName(a) == HostName(b) <==> a == b
  {
    match a
    case GlobalHost =>
      if b.UserHost? {
        GlobalIsNoUser(b.slug);
      }
    case UserHost(slug) =>
      GlobalIsNoUser(slug);
      if b.UserHost? {
        PrefixesCancel(PLACES, "user:" + slug, "user:" + b.slug);
        PrefixesCancel("user:", slug, b.slug);
      }
  }

  lemma HostsAreKnown(h: Host)
    ensures IsHost(HostName(h)) && HostName(h) != DEFAULT
    ensures Less(HostName(GlobalHost), HostName(h)) <==> h.UserHost?
  {
    assert PLACES[0] == 'f' && DEFAULT[0] == 'D';
    assert HostName(h)[0] == 'f';
    match h
    case GlobalHost => LessIsStrict(HostName(h), HostName(h));
    case UserHost(slug) =>
      assert PLACES + ("user:" + slug) == PLACES + "user:" + slug;
      LessBehind(PLACES, "global", "user:" + slug);
      assert "global"[0] == 'g' && ("user:" + slug)[0] == 'u';
  }

  lemma HostsAreClean(h: Host)
    requires h.UserHost? ==> PlainText(h.slug)
    ensures CleanHost(HostName(h))
  {
    var p := PLACES;
    assert PlainText(p) && p[0] == 'f';
    assert PlainText("user:") && PlainText("global");
    assert HostName(h)[0] == 'f';
    match h
    case GlobalHost => PlainConcat(p, "global");
    case UserHost(slug) =>
      PlainConcat("user:", slug);
      PlainConcat(p, "user:" + slug);
  }

  lemma PlainConcat(a: string, b: string)
    ensures PlainText(a + b) <==> PlainText(a) && PlainText(b)
  {
    assert forall c :: c in a + b <==> c in a || c in b;
  }

  lemma KeyNamesDiffer(a: Key, b: Key)
    ensures KeyName(a) == KeyName(b) <==> a == b
  {
    PrefixesCancel("meta:", a.id, b.id);
    PrefixesCancel("secret:", a.id, b.id);
    assert ("meta:" + a.id)[0] == ("meta:" + b.id)[0] == 'm';
    assert ("secret:" + a.id)[0] == ("secret:" + b.id)[0] == 's';
  }

  lemma KeysArePlain(k: Key)
    ensures PlainText(KeyName(k)) <==> PlainText(k.id)
  {
    var m, s := "meta:", "secret:";
    assert PlainText(m) && PlainText(s);
    PlainConcat(m, k.id);
    PlainConcat(s, k.id);
  }

  lemma MetaIdIsInverse(name: string, id: string)
    ensures MetaId(name) == Some(id) <==> name == KeyName(MetaKey(id))
  {
    var p := "meta:";
    if p <= name {
      assert name == p + name[5..];
    }
    assert (p + id)[5..] == id;
  }

  /** The names in use are sound, whatever names users have. */
  lemma NamesAreSound(lower: string -> string, encode: Meta -> string, decode: string -> Maybe<Meta>)
    requires OneLineJson(encode, decode)
    ensures Sound(Names(lower, encode, decode)) && KeysExtend(Names(lower, encode, decode))
  {
    var w := Names(lower, encode, decode);
    forall id: string, more: string
      ensures w.keyName(MetaKey(id + more)) == w.keyName(MetaKey(id)) + more
      ensures w.keyName(SecretKey(id + more)) == w.keyName(SecretKey(id)) + more
    {
      Associates("meta:", id, more);
      Associates("secret:", id, more);
    }
    forall a: Host, b: Host | w.hostName(a) == w.hostName(b)
      ensures a == b
    {
      HostNamesDiffer(a, b);
    }
    forall h: Host
      ensures w.isHost(w.hostName(h)) && w.hostName(h) != DEFAULT
    {
      HostsAreKnown(h);
    }
    forall scope: Scope, user: string
      ensures CleanHost(w.hostName(HostFor(w, scope, user)))
    {
      SlugIsPlain(OwnerSlug(lower(user)));
      HostsAreClean(HostFor(w, scope, user));
    }
    forall s: string
      ensures Less(w.hostName(GlobalHost), w.hostName(UserHost(s)))
    {
      HostsAreKnown(UserHost(s));
    }
    forall a: Key, b: Key | w.keyName(a) == w.keyName(b)
      ensures a == b
    {
      KeyNamesDiffer(a, b);
    }
    forall k: Key
      ensures PlainText(w.keyName(k)) <==> PlainText(k.id)
    {
      KeysArePlain(k);
    }
    forall name: string, id: string
      ensures w.metaId(name) == Some(id) <==> name == w.keyName(MetaKey(id))
    {
      MetaIdIsInverse(name, id);
    }
  }

  // ---------- the names themselves ----------

  lemma NamesRead(slug: string, id: string)
    ensures HostName(GlobalHost) == "freq:vault:credentials:" + "global"
    ensures HostName(UserHost(slug)) == "freq:vault:credentials:" + ("user:" + slug)
    ensures KeyName(MetaKey(id)) == "meta:" + id && KeyName(SecretKey(id)) == "secret:" + id
  {
  }

  lemma SlugCharsAre(c: char)
    ensures IsSlugChar(c) <==>
      var n := c as int; 97 <= n <= 122 || 48 <= n <= 57 || n == 95 || n == 46 || n == 64 || n == 45
  {
  }

  lemma {:induction false} SqueezeKeeps(name: string)
    requires forall i :: 0 <= i < |name| ==> IsSlugChar(name[i])
    ensures Squeeze(name) == name
    decreases |name|
  {
    if name != "" {
      SqueezeKeeps(name[1..]);
      assert [name[0]] + name[1..] == name;
    }
  }

  /** A name of slug characters that neither begins nor ends with a dash is its own slug, cut to 80 characters. */
  lemma PlainNameIsItsSlug(name: string)
    requires name != "" && name[0] != '-' && name[|name| - 1] != '-'
    requires forall i :: 0 <= i < |name| ==> IsSlugChar(name[i])
    ensures OwnerSlug(name) == if |name| <= 80 then name else name[..80]
  {
    SqueezeKeeps(name);
  }

  lemma {:induction false} OtherRunIsAll(name: string)
    requires forall i :: 0 <= i < |name| ==> !IsSlugChar(name[i])
    ensures OtherRun(name) == |name|
    decreases |name|
  {
    if name != "" {
      OtherRunIsAll(name[1..]);
    }
  }

  /** A name without any slug character has the slug "unknown". */
  lemma OtherNameIsUnknown(name: string)
    requires forall i :: 0 <= i < |name| ==> !IsSlugChar(name[i])
    ensures OwnerSlug(name) == "unknown"
  {
    if name != "" {
      var n := 1 + OtherRun(name[1..]);
      OtherRunIsAll(name[1..]);
      assert name[n..] == "";
      assert Squeeze(name) == "-" + Squeeze("") == "-";
      assert "-"[1..] == "" && StripDashes("-") == StripDashes("") == "";
    }
  }

  /** Any run of other characters between two plain names becomes one dash. */
  lemma RunBecomesDash(a: string, run: string, b: string)
    requires a != "" && a[0] != '-' && b != "" && b[|b| - 1] != '-' && run != "" && |a| + |b| < 80
    requires forall i :: 0 <= i < |a| ==> IsSlugChar(a[i])
    requires forall i :: 0 <= i < |b| ==> IsSlugChar(b[i])
    requires forall i :: 0 <= i < |run| ==> !IsSlugChar(run[i])
    ensures OwnerSlug(a + (run + b)) == a + ("-" + b)
  {
    SqueezeBehind(a, run + b);
    SqueezeRun(run, b);
    SqueezeKeeps(b);
    NothingToTrim(a + (run + b), a, b);
  }

  lemma NothingToTrim(name: string, a: string, b: string)
    requires a != "" && a[0] != '-' && b != "" && b[|b| - 1] != '-' && |a| + |b| < 80
    requires Squeeze(name) == a + ("-" + b)
    ensures OwnerSlug(name) == a + ("-" + b)
  {
    var s := a + ("-" + b);
    assert s[0] == a[0] && s[|s| - 1] == b[|b| - 1];
    assert StripDashes(s) == s;
    assert s[..|s|] == s;
  }

  lemma {:induction false} SqueezeBehind(a: string, rest: string)
    requires forall i :: 0 <= i < |a| ==> IsSlugChar(a[i])
    ensures Squeeze(a + rest) == a + Squeeze(rest)
    decreases |a|
  {
    if a == "" {
      assert a + rest == rest;
    } else {
      assert (a + rest)[1..] == a[1..] + rest;
      SqueezeBehind(a[1..], rest);
      assert [a[0]] + (a[1..] + Squeeze(rest)) == a + Squeeze(rest);
    }
  }

  lemma {:induction false} OtherRunOf(run: string, b: string)
    requires forall i :: 0 <= i < |run| ==> !IsSlugChar(run[i])
    requires b != "" && IsSlugChar(b[0])
    ensures OtherRun(run + b) == |run|
    decreases |run|
  {
    if run == "" {
      assert run + b == b;
    } else {
      assert (run + b)[1..] == run[1..] + b;
      OtherRunOf(run[1..], b);
    }
  }

  lemma SqueezeRun(run: string, b: string)
    requires run != "" && forall i :: 0 <= i < |run| ==> !IsSlugChar(run[i])
    requires b != "" && IsSlugChar(b[0])
    ensures Squeeze(run + b) == "-" + Squeeze(b)
  {
    assert (run + b)[1..] == run[1..] + b;
    OtherRunOf(run[1..], b);
    assert (run + b)[|run|..] == b;
  }
}
