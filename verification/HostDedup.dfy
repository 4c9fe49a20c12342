/**
 De-duplication of loaded hosts on address and label at once, first come first kept, and the validator's duplicate
 report.
 */
module HostDedup {
  import opened HostRegistry

  predicate Clash(a: Host, b: Host)
  {
    a.ip == b.ip || a.label_ == b.label_
  }

  predicate ClashesWithAny(h: Host, kept: seq<Host>)
  {
    exists i :: 0 <= i < |kept| && Clash(kept[i], h)
  }

  ghost predicate Distinct(hs: seq<Host>)
  {
    forall i, j :: 0 <= i < j < |hs| ==> !Clash(hs[i], hs[j])
  }

  /** The hosts that are kept: each one that does not clash with one kept before it. */
  function Keep(hs: seq<Host>): seq<Host>
  {
    if hs == [] then []
    else
      var kept, last := Keep(hs[..|hs| - 1]), hs[|hs| - 1];
      if ClashesWithAny(last, kept) then kept else kept + [last]
  }

  /** The loop of the loader, with its two sets of what has been seen. */
  method Dedup(hosts: seq<Host>) returns (deduped: seq<Host>, hadDuplicates: bool)
    ensures deduped == Keep(hosts)
    ensures hadDuplicates <==> !Distinct(hosts)
  {
    var seenIps: set<string>, seenLabels: set<string> := {}, {};
    deduped := [];
    var i := 0;
    while i < |hosts|
      invariant 0 <= i <= |hosts|
      invariant deduped == Keep(hosts[..i])
      invariant seenIps == set k | 0 <= k < |deduped| :: deduped[k].ip
      invariant seenLabels == set k | 0 <= k < |deduped| :: deduped[k].label_
    {
      var h := hosts[i];
      assert hosts[..i + 1][..i] == hosts[..i];
      assert ClashesWithAny(h, deduped) <==> h.ip in seenIps || h.label_ in seenLabels;
      i := i + 1;
      if h.ip in seenIps {
        continue;
      }
      if h.label_ in seenLabels {
        continue;
      }
      SeenGrow(deduped, h);
      seenIps := seenIps + {h.ip};
      seenLabels := seenLabels + {h.label_};
      deduped := deduped + [h];
    }
    assert hosts[..i] == hosts;
    KeepsAllIffDistinct(hosts);
    hadDuplicates := |deduped| < |hosts|;
  }

  lemma SeenGrow(kept: seq<Host>, h: Host)
    ensures (set k | 0 <= k < |kept + [h]| :: (kept + [h])[k].ip) == (set k | 0 <= k < |kept| :: kept[k].ip) + {h.ip}
    ensures (set k | 0 <= k < |kept + [h]| :: (kept + [h])[k].label_)
         == (set k | 0 <= k < |kept| :: kept[k].label_) + {h.label_}
  {
    var more := kept + [h];
    assert more[|kept|] == h;
    assert forall k :: 0 <= k < |kept| ==> more[k] == kept[k];
  }

  /** One report for each host whose address, and one for each whose label, an earlier host has. */
  datatype Issue = DuplicateIp(ip: string) | DuplicateLabel(name: string)

  function Issues(hs: seq<Host>): seq<Issue>
  {
    if hs == [] then []
    else
      var before, last := hs[..|hs| - 1], hs[|hs| - 1];
      Issues(before)
      + (if exists i :: 0 <= i < |before| && before[i].ip == last.ip then [DuplicateIp(last.ip)] else [])
      + (if exists i :: 0 <= i < |before| && before[i].label_ == last.label_ then [DuplicateLabel(last.label_)] else [])
  }

  lemma IssuesNext(hosts: seq<Host>, i: nat, ips: set<string>, labels: set<string>)
    requires i < |hosts|
    requires ips == set k | 0 <= k < i :: hosts[k].ip
    requires labels == set k | 0 <= k < i :: hosts[k].label_
    ensures Issues(hosts[..i + 1])
         == Issues(hosts[..i])
            + (if hosts[i].ip in ips then [DuplicateIp(hosts[i].ip)] else [])
            + (if hosts[i].label_ in labels then [DuplicateLabel(hosts[i].label_)] else [])
  {
    var before := hosts[..i];
    assert hosts[..i + 1][..i] == before;
    assert forall k :: 0 <= k < i ==> before[k] == hosts[k];
  }

  lemma SeenNext(hosts: seq<Host>, i: nat)
    requires i < |hosts|
    ensures (set k | 0 <= k < i + 1 :: hosts[k].ip) == (set k | 0 <= k < i :: hosts[k].ip) + {hosts[i].ip}
    ensures (set k | 0 <= k < i + 1 :: hosts[k].label_) == (set k | 0 <= k < i :: hosts[k].label_) + {hosts[i].label_}
  {
  }

  method ReportDuplicates(hosts: seq<Host>) returns (issues: seq<Issue>)
    ensures issues == Issues(hosts)
  {
    var seenIps: set<string>, seenLabels: set<string> := {}, {};
    issues := [];
    var i := 0;
    while i < |hosts|
      invariant 0 <= i <= |hosts|
      invariant issues == Issues(hosts[..i])
      invariant seenIps == set k | 0 <= k < i :: hosts[k].ip
      invariant seenLabels == set k | 0 <= k < i :: hosts[k].label_
    {
      var h := hosts[i];
      IssuesNext(hosts, i, seenIps, seenLabels);
      SeenNext(hosts, i);
      if h.ip in seenIps {
        issues := issues + [DuplicateIp(h.ip)];
      }
      seenIps := seenIps + {h.ip};
      if h.label_ in seenLabels {
        issues := issues + [DuplicateLabel(h.label_)];
      }
      seenLabels := seenLabels + {h.label_};
      i := i + 1;
    }
    assert hosts[..i] == hosts;
  }

  // ---------- theorems ----------

  lemma {:induction false} KeepIsDistinct(hs: seq<Host>)
    ensures Distinct(Keep(hs))
    ensures |Keep(hs)| <= |hs|
    decreases |hs|
  {
    if hs != [] {
      KeepIsDistinct(hs[..|hs| - 1]);
    }
  }

  /** Nothing is dropped just when there was nothing to drop. */
  lemma {:induction false} KeepsAllIffDistinct(hs: seq<Host>)
    ensures |Keep(hs)| <= |hs|
    ensures Distinct(hs) <==> Keep(hs) == hs
    ensures Distinct(hs) <==> |Keep(hs)| == |hs|
    decreases |hs|
  {
    KeepIsDistinct(hs);
    if hs != [] {
      var before := hs[..|hs| - 1];
      KeepsAllIffDistinct(before);
      if Distinct(hs) {
        assert Distinct(before);
      }
    }
  }

  /** De-duplicating again changes nothing. */
  lemma KeepIsIdempotent(hs: seq<Host>)
    ensures Keep(Keep(hs)) == Keep(hs)
  {
    KeepIsDistinct(hs);
    KeepsAllIffDistinct(Keep(hs));
  }

  /** Host `n` is kept just when it does not clash with an earlier kept host; later hosts never change that. */
  lemma {:induction false} KeptBefore(hs: seq<Host>, n: nat)
    requires n < |hs|
    ensures Keep(hs[..n]) <= Keep(hs[..n + 1]) <= Keep(hs)
    ensures Keep(hs[..n + 1]) == if ClashesWithAny(hs[n], Keep(hs[..n])) then Keep(hs[..n]) else Keep(hs[..n]) + [hs[n]]
    decreases |hs|
  {
    assert hs[..n + 1][..n] == hs[..n];
    if n + 1 == |hs| {
      assert hs[..n + 1] == hs;
    } else {
      var before := hs[..|hs| - 1];
      KeptBefore(before, n);
      assert before[..n + 1] == hs[..n + 1];
    }
  }

  /** No dropped host could have been kept as well: every host clashes with, or is, a kept one. */
  lemma {:induction false} KeepIsMaximal(hs: seq<Host>, n: nat)
    requires n < |hs|
    ensures ClashesWithAny(hs[n], Keep(hs))
  {
    KeptBefore(hs, n);
    var upTo := Keep(hs[..n + 1]);
    if ClashesWithAny(hs[n], Keep(hs[..n])) {
      var i :| 0 <= i < |Keep(hs[..n])| && Clash(Keep(hs[..n])[i], hs[n]);
      assert Clash(upTo[i], hs[n]);
      assert Keep(hs)[i] == upTo[i];
    } else {
      var i := |upTo| - 1;
      assert Clash(upTo[i], hs[n]);
      assert Keep(hs)[i] == upTo[i];
    }
  }

  /** The places in `hs` from which the kept hosts come. */
  function KeptPlaces(hs: seq<Host>): seq<nat>
  {
    if hs == [] then []
    else
      var before, last := hs[..|hs| - 1], hs[|hs| - 1];
      KeptPlaces(before) + if ClashesWithAny(last, Keep(before)) then [] else [|hs| - 1]
  }

  /** The kept hosts are a subsequence: they stand in `hs` at increasing places, unchanged. */
  lemma {:induction false} KeepIsSubsequence(hs: seq<Host>)
    ensures |KeptPlaces(hs)| == |Keep(hs)|
    ensures forall i :: 0 <= i < |KeptPlaces(hs)| ==> KeptPlaces(hs)[i] < |hs| && hs[KeptPlaces(hs)[i]] == Keep(hs)[i]
    ensures forall i, j :: 0 <= i < j < |KeptPlaces(hs)| ==> KeptPlaces(hs)[i] < KeptPlaces(hs)[j]
    decreases |hs|
  {
    if hs != [] {
      KeepIsSubsequence(hs[..|hs| - 1]);
    }
  }

  /** The validator reports duplicates just when there are some, so never after de-duplication. */
  lemma {:induction false} NoIssuesIffDistinct(hs: seq<Host>)
    ensures Issues(hs) == [] <==> Distinct(hs)
    decreases |hs|
  {
    if hs != [] {
      var before := hs[..|hs| - 1];
      NoIssuesIffDistinct(before);
      if Distinct(hs) {
        assert Distinct(before);
      } else if Distinct(before) {
        var i, j :| 0 <= i < j < |hs| && Clash(hs[i], hs[j]);
        assert Clash(before[i], hs[|hs| - 1]);
      }
    }
  }

  lemma ValidAfterDedup(hs: seq<Host>)
    ensures Issues(Keep(hs)) == []
  {
    KeepIsDistinct(hs);
    NoIssuesIffDistinct(Keep(hs));
  }
}
