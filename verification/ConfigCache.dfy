/**
 The configuration cache: a loaded configuration is reused for a few seconds as long as it was asked for the same
 directory and the seven configuration files carry the same stamps. Stamps are taken before a hit and after a load, so
 what matters is whether the files changed between being read and being stamped.
 */
module ConfigCache {
  import opened Common

  const TTL: real := 5.0

  /** What the seven files hold, and what is known of them from modification time and size alone. */
  type Content = seq<string>
  type Stamp = seq<(int, int)>

  /** How files are loaded into a configuration, and how they are stamped. */
  datatype Disk<!C> = Disk(load: (string, Content) -> C, stampOf: Content -> Stamp)

  /** The cache as it stands after a load: what was loaded and from where, the stamp, and the time. */
  datatype Cached<C> = Cached(config: C, dir: string, stamp: Stamp, at: real)

  /** A call with the files and the clock as it meets them: at its start, while it reads, and when it has finished. */
  datatype Call = Call(
    dir: string, force: bool, atStart: Content, whileReading: Content, atEnd: Content, startTime: real, endTime: real)

  predicate IsHit<C>(d: Disk<C>, cache: Maybe<Cached<C>>, call: Call)
  {
    && !call.force && cache.Some? && call.startTime - cache.value.at < TTL
    && cache.value.dir == call.dir && cache.value.stamp == d.stampOf(call.atStart)
  }

  class Loader<C> {
    const d: Disk<C>
    var cache: Maybe<Cached<C>>
    ghost var calls: seq<Call>   // every call so far

    /** The cache is what the calls so far have left in it. */
    ghost predicate Valid()
      reads this
    {
      cache == CacheAfter(d, calls)
    }

    constructor (d: Disk<C>)
      ensures this.d == d && calls == [] && Valid()
    {
      this.d, cache, calls := d, None, [];
    }

    method LoadConfig(call: Call) returns (config: C)
      requires Valid()
      modifies this
      ensures Valid() && calls == old(calls) + [call]
      ensures config == Returned(d, calls, |old(calls)|)
    {
      assert (calls + [call])[..|calls|] == calls;
      var now, fileState := call.startTime, d.stampOf(call.atStart);
      if !call.force && cache.Some? && now - cache.value.at < TTL && cache.value.dir == call.dir
         && cache.value.stamp == fileState {
        calls := calls + [call];
        return cache.value.config;
      }
      config := d.load(call.dir, call.whileReading);
      fileState := d.stampOf(call.atEnd);
      cache := Some(Cached(config, call.dir, fileState, call.endTime));
      calls := calls + [call];
    }
  }

  // ---------- runs of calls ----------

  /** The cache that a run of calls leaves. */
  function CacheAfter<C>(d: Disk<C>, calls: seq<Call>): Maybe<Cached<C>>
  {
    if calls == [] then None
    else
      var before, call := CacheAfter(d, calls[..|calls| - 1]), calls[|calls| - 1];
      if IsHit(d, before, call) then before
      else Some(Cached(d.load(call.dir, call.whileReading), call.dir, d.stampOf(call.atEnd), call.endTime))
  }

  /** Call `i` is answered from the cache. */
  predicate Hits<C>(d: Disk<C>, calls: seq<Call>, i: nat)
    requires i < |calls|
  {
    IsHit(d, CacheAfter(d, calls[..i]), calls[i])
  }

  /** What call `i` returns. */
  function Returned<C>(d: Disk<C>, calls: seq<Call>, i: nat): C
    requires i < |calls|
  {
    if Hits(d, calls, i) then CacheAfter(d, calls[..i]).value.config else d.load(calls[i].dir, calls[i].whileReading)
  }

  /** Call `i` returns what a load of the files as they were at its start would give. */
  ghost predicate Fresh<C(!new)>(d: Disk<C>, calls: seq<Call>, i: nat)
    requires i < |calls|
  {
    Returned(d, calls, i) == d.load(calls[i].dir, calls[i].atStart)
  }

  ghost predicate HitsAreFresh<C(!new)>(d: Disk<C>, calls: seq<Call>)
  {
    forall i :: 0 <= i < |calls| && Hits(d, calls, i) ==> Fresh(d, calls, i)
  }

  /** The files as they were read and as they were stamped load alike. */
  ghost predicate Coherent<C(!new)>(d: Disk<C>, call: Call)
  {
    d.load(call.dir, call.whileReading) == d.load(call.dir, call.atEnd)
  }

  ghost predicate LoadsAreCoherent<C(!new)>(d: Disk<C>, calls: seq<Call>)
  {
    forall i :: 0 <= i < |calls| && !Hits(d, calls, i) ==> Coherent(d, calls[i])
  }

  /** Different contents always show in modification time or size. */
  ghost predicate StampsTell<C(!new)>(d: Disk<C>)
  {
    forall a, b :: d.stampOf(a) == d.stampOf(b) ==> a == b
  }

  lemma PrefixCalls<C>(d: Disk<C>, calls: seq<Call>, n: nat, i: nat)
    requires i < n <= |calls|
    ensures Hits(d, calls[..n], i) <==> Hits(d, calls, i)
    ensures Returned(d, calls[..n], i) == Returned(d, calls, i)
  {
    assert calls[..n][..i] == calls[..i];
  }

  /** The cache holds what the last call that missed it has read and stamped. */
  lemma {:induction false} CacheComesFrom<C>(d: Disk<C>, calls: seq<Call>) returns (j: nat)
    requires CacheAfter(d, calls).Some?
    ensures j < |calls| && !Hits(d, calls, j)
    ensures CacheAfter(d, calls).value
         == Cached(d.load(calls[j].dir, calls[j].whileReading), calls[j].dir, d.stampOf(calls[j].atEnd),
                   calls[j].endTime)
    decreases |calls|
  {
    var n := |calls| - 1;
    if Hits(d, calls, n) {
      j := CacheComesFrom(d, calls[..n]);
      PrefixCalls(d, calls, n, j);
    } else {
      j := n;
    }
  }

  /** If what was read and what was stamped always load alike, every call answered from the cache is fresh. */
  lemma CoherentLoadsMakeFreshHits<C(!new)>(d: Disk<C>, calls: seq<Call>)
    requires StampsTell(d) && LoadsAreCoherent(d, calls)
    ensures HitsAreFresh(d, calls)
  {
    forall i | 0 <= i < |calls| && Hits(d, calls, i)
      ensures Fresh(d, calls, i)
    {
      var j := CacheComesFrom(d, calls[..i]);
      PrefixCalls(d, calls, i, j);
      assert calls[j].atEnd == calls[i].atStart;
    }
  }

  /** The call that comes next, unforced, for the same directory, finding the files as they were stamped. */
  function NextCall(call: Call): Call
  {
    Call(call.dir, false, call.atEnd, call.atEnd, call.atEnd, call.endTime, call.endTime)
  }

  /**
   After a load whose files read and stamped do not load alike, the next call hits the cache and gets the old
   configuration.
   */
  lemma IncoherentLoadGoesStale<C(!new)>(d: Disk<C>, calls: seq<Call>, i: nat)
    requires i < |calls| && !Hits(d, calls, i) && !Coherent(d, calls[i])
    ensures var more := calls[..i + 1] + [NextCall(calls[i])];
      && Hits(d, more, i + 1) && !Fresh(d, more, i + 1)
      && Returned(d, more, i + 1) == d.load(calls[i].dir, calls[i].whileReading)
  {
    var more := calls[..i + 1] + [NextCall(calls[i])];
    assert more[..i + 1] == calls[..i + 1];
    assert calls[..i + 1][..i] == calls[..i];
  }

  /** A call made after the given ones is fresh if it is answered from the cache. */
  ghost predicate NextIsFresh<C(!new)>(d: Disk<C>, calls: seq<Call>, call: Call)
  {
    Hits(d, calls + [call], |calls|) ==> Fresh(d, calls + [call], |calls|)
  }

  /**
   Answers from the cache are fresh, whichever call comes next at whatever point of a run, exactly when every load of
   the run read and stamped files that load alike.
   */
  lemma FreshExactlyIfCoherent<C(!new)>(d: Disk<C>, calls: seq<Call>)
    requires StampsTell(d)
    ensures (forall n: nat, call: Call :: n <= |calls| ==> NextIsFresh(d, calls[..n], call))
      <==> LoadsAreCoherent(d, calls)
  {
    if LoadsAreCoherent(d, calls) {
      forall n: nat, call: Call | n <= |calls|
        ensures NextIsFresh(d, calls[..n], call)
      {
        if Hits(d, calls[..n] + [call], n) {
          ExtendedIsCoherent(d, calls, n, call);
          CoherentLoadsMakeFreshHits(d, calls[..n] + [call]);
        }
      }
    } else {
      var i :| 0 <= i < |calls| && !Hits(d, calls, i) && !Coherent(d, calls[i]);
      IncoherentLoadGoesStale(d, calls, i);
      assert !NextIsFresh(d, calls[..i + 1], NextCall(calls[i]));
    }
  }

  lemma ExtendedIsCoherent<C(!new)>(d: Disk<C>, calls: seq<Call>, n: nat, call: Call)
    requires n <= |calls| && LoadsAreCoherent(d, calls) && Hits(d, calls[..n] + [call], n)
    ensures LoadsAreCoherent(d, calls[..n] + [call])
  {
    var more := calls[..n] + [call];
    forall i | 0 <= i < |more| && !Hits(d, more, i)
      ensures Coherent(d, more[i])
    {
      assert more[..i] == calls[..i];
    }
  }

  /** Loads during which no file changes are coherent, so with atomic loads every hit is fresh. */
  lemma AtomicLoadsAreFresh<C(!new)>(d: Disk<C>, calls: seq<Call>)
    requires StampsTell(d)
    requires forall i :: 0 <= i < |calls| ==> calls[i].whileReading == calls[i].atEnd
    ensures HitsAreFresh(d, calls)
  {
    CoherentLoadsMakeFreshHits(d, calls);
  }

  /** A hit is of the directory asked for, and less than five seconds old. */
  lemma HitIsRecent<C>(d: Disk<C>, calls: seq<Call>, i: nat) returns (j: nat)
    requires i < |calls| && Hits(d, calls, i)
    ensures j < i && !Hits(d, calls, j) && calls[j].dir == calls[i].dir && calls[i].startTime - calls[j].endTime < TTL
    ensures Returned(d, calls, i) == d.load(calls[i].dir, calls[j].whileReading)
  {
    j := CacheComesFrom(d, calls[..i]);
    PrefixCalls(d, calls, i, j);
  }

  /**
   A run in which the files are edited while they are being loaded: the old configuration is returned after the edit.
   */
  lemma EditWhileLoading<C(!new)>(d: Disk<C>, dir: string, was: Content, edited: Content, now: real)
    requires d.load(dir, was) != d.load(dir, edited)
    ensures var load := Call(dir, false, was, was, edited, now, now + 1.0);
      var next := Call(dir, false, edited, edited, edited, now + 2.0, now + 2.0);
      Hits(d, [load, next], 1) && Returned(d, [load, next], 1) == d.load(dir, was) != d.load(dir, next.atStart)
  {
    var load := Call(dir, false, was, was, edited, now, now + 1.0);
    var next := Call(dir, false, edited, edited, edited, now + 2.0, now + 2.0);
    assert [load, next][..1] == [load] && [load][..0] == [];
    assert CacheAfter(d, [load]) == Some(Cached(d.load(dir, was), dir, d.stampOf(edited), now + 1.0));
  }

  /** Call `j` is the last one before call `i` that was not answered from the cache. */
  ghost predicate LastLoad<C>(d: Disk<C>, calls: seq<Call>, j: nat, i: nat)
    requires i <= |calls|
  {
    j < i && !Hits(d, calls, j) && forall k :: j < k < i ==> Hits(d, calls, k)
  }

  lemma {:induction false} CacheIsLastLoad<C>(d: Disk<C>, calls: seq<Call>, j: nat, i: nat)
    requires i <= |calls| && LastLoad(d, calls, j, i)
    ensures CacheAfter(d, calls[..i])
         == Some(Cached(d.load(calls[j].dir, calls[j].whileReading), calls[j].dir, d.stampOf(calls[j].atEnd),
                        calls[j].endTime))
    decreases i
  {
    assert calls[..i][..i - 1] == calls[..i - 1];
    assert Hits(d, calls, i - 1) <==> IsHit(d, CacheAfter(d, calls[..i - 1]), calls[i - 1]);
    if j < i - 1 {
      CacheIsLastLoad(d, calls, j, i - 1);
    }
  }

  /**
   A call is answered from the cache exactly if it is not forced, the last load was of the same directory and ended less
   than five seconds before, and the files carry the stamps taken then.
   */
  lemma HitsExactly<C>(d: Disk<C>, calls: seq<Call>, j: nat, i: nat)
    requires i < |calls| && LastLoad(d, calls, j, i)
    ensures Hits(d, calls, i) <==>
      && !calls[i].force && calls[i].dir == calls[j].dir && calls[i].startTime - calls[j].endTime < 5.0
      && d.stampOf(calls[i].atStart) == d.stampOf(calls[j].atEnd)
  {
    CacheIsLastLoad(d, calls, j, i);
  }

  /** The first call of all is not. */
  lemma FirstCallLoads<C>(d: Disk<C>, calls: seq<Call>)
    requires calls != []
    ensures !Hits(d, calls, 0) && Returned(d, calls, 0) == d.load(calls[0].dir, calls[0].whileReading)
  {
    assert calls[..0] == [];
  }
}
