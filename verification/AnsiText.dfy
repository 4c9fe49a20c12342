/** Terminal text with colour escapes: what is visible of it, and cutting it to a visible width. */
module AnsiText {
  import opened Common

  const ESC: char := '\U{001B}'

  // ---------- escapes and what is left without them ----------

  /** The characters between the bracket and the closing "m" of a colour escape. */
  predicate IsParam(c: char)
  {
    '0' <= c <= '9' || c == ';'
  }

  /** Length of the longest run of parameter characters at the front. */
  function ParamRun(s: string): (n: nat)
    ensures n <= |s|
  {
    if s == "" || !IsParam(s[0]) then 0 else 1 + ParamRun(s[1..])
  }

  /** Length of the colour escape at the front, 0 when there is none. */
  function SgrLength(s: string): (n: nat)
    ensures n <= |s|
    ensures n > 0 ==> s[0] == ESC
  {
    if |s| < 2 || s[0] != ESC || s[1] != '[' then 0
    else
      var n := ParamRun(s[2..]);
      if 2 + n < |s| && s[2 + n] == 'm' then n + 3 else 0
  }

  /** The text without its colour escapes, found from left to right. */
  function Strip(s: string): (t: string)
    ensures |t| <= |s|
  {
    if s == "" then ""
    else if SgrLength(s) > 0 then Strip(s[SgrLength(s)..])
    else [s[0]] + Strip(s[1..])
  }

  function VisibleLen(s: string): nat
  {
    |Strip(s)|
  }

  /** Every escape character begins a colour escape. */
  predicate WellFormed(s: string)
  {
    if s == "" then true
    else if s[0] == ESC then SgrLength(s) > 0 && WellFormed(s[SgrLength(s)..])
    else WellFormed(s[1..])
  }

  lemma {:induction false} ParamRunIsParams(s: string)
    ensures forall i :: 0 <= i < ParamRun(s) ==> IsParam(s[i])
    ensures ParamRun(s) < |s| ==> !IsParam(s[ParamRun(s)])
  {
    if s != "" && IsParam(s[0]) {
      ParamRunIsParams(s[1..]);
    }
  }

  lemma {:induction false} ParamRunExtends(a: string, b: string)
    requires ParamRun(a) < |a|
    ensures ParamRun(a + b) == ParamRun(a)
  {
    if a != "" && IsParam(a[0]) {
      assert (a + b)[1..] == a[1..] + b;
      ParamRunExtends(a[1..], b);
    }
  }

  lemma SgrLengthExtends(a: string, b: string)
    requires SgrLength(a) > 0
    ensures SgrLength(a + b) == SgrLength(a)
  {
    assert (a + b)[2..] == a[2..] + b;
    ParamRunExtends(a[2..], b);
  }

  /** Stripping works piece by piece as long as no piece ends inside an escape. */
  lemma {:induction false} StripConcat(a: string, b: string)
    requires WellFormed(a)
    ensures Strip(a + b) == Strip(a) + Strip(b)
    ensures WellFormed(b) ==> WellFormed(a + b)
    decreases |a|
  {
    if a == "" {
      assert a + b == b;
    } else if a[0] == ESC {
      SgrLengthExtends(a, b);
      DropConcat(a, b, SgrLength(a));
      StripConcat(a[SgrLength(a)..], b);
    } else {
      DropConcat(a, b, 1);
      StripConcat(a[1..], b);
      Associates([a[0]], Strip(a[1..]), Strip(b));
    }
  }

  lemma {:induction false} StripHasNoEscape(s: string)
    requires WellFormed(s)
    ensures ESC !in Strip(s)
    decreases |s|
  {
    if s != "" && s[0] == ESC {
      StripHasNoEscape(s[SgrLength(s)..]);
    } else if s != "" {
      StripHasNoEscape(s[1..]);
    }
  }

  /** A colour escape with the given parameters. */
  function Sgr(params: string): string
  {
    [ESC, '['] + params + "m"
  }

  lemma {:induction false} ParamRunOfParams(params: string)
    requires forall c :: c in params ==> IsParam(c)
    ensures ParamRun(params + "m") == |params|
    decreases |params|
  {
    if params != "" {
      assert (params + "m")[1..] == params[1..] + "m";
      ParamRunOfParams(params[1..]);
    }
  }

  lemma SgrIsInvisible(params: string)
    requires forall c :: c in params ==> IsParam(c)
    ensures WellFormed(Sgr(params)) && Strip(Sgr(params)) == ""
  {
    var s := Sgr(params);
    assert s[2..] == params + "m";
    ParamRunOfParams(params);
    assert SgrLength(s) == |s| && s[|s|..] == "";
  }

  /** Text without escape characters is well formed and entirely visible. */
  lemma {:induction false} PlainText(s: string)
    requires ESC !in s
    ensures WellFormed(s) && Strip(s) == s
    decreases |s|
  {
    if s != "" {
      PlainText(s[1..]);
    }
  }

  const RESET: string := Sgr("0")

  lemma ResetIsInvisible()
    ensures WellFormed(RESET) && Strip(RESET) == ""
  {
    SgrIsInvisible("0");
  }

  // ---------- truncation ----------

  /** The first `n` characters, all of them if there are fewer, none if `n` is negative. */
  function Take(s: string, n: int): (t: string)
    ensures |t| == if |s| <= n then |s| else Max(n, 0)
  {
    if |s| <= n then s else s[..Max(n, 0)]
  }

  /** Where the escape at the front ends: behind the first "m", or at the end of the text. */
  function EscapeEnd(s: string): (n: nat)
    requires s != ""
    ensures 0 < n <= |s|
  {
    1 + AfterM(s[1..])
  }

  function AfterM(s: string): (n: nat)
    ensures n <= |s|
  {
    if s == "" then 0 else if s[0] == 'm' then 1 else 1 + AfterM(s[1..])
  }

  /** The scan: copies escapes whole and counts everything else, until `w` characters are counted. */
  function Scan(s: string, w: int): string
    decreases |s|
  {
    if s == "" || w <= 0 then ""
    else if s[0] == ESC then s[..EscapeEnd(s)] + Scan(s[EscapeEnd(s)..], w)
    else [s[0]] + Scan(s[1..], w - 1)
  }

  function Truncated(s: string, w: int): string
  {
    if VisibleLen(s) <= w then s else Scan(s, w) + RESET
  }

  /** The inner loop of `Truncate`: the index behind the escape that starts at `i`. */
  method SkipEscape(text: string, i: nat) returns (end: nat)
    requires i < |text|
    ensures i < end <= |text|
    ensures end == i + EscapeEnd(text[i..])
  {
    assert text[i..][1..] == text[i + 1..];
    var j := i + 1;
    while j < |text| && text[j] != 'm'
      invariant i < j <= |text|
      invariant j - i - 1 + AfterM(text[j..]) == AfterM(text[i + 1..])
    {
      assert text[j..][1..] == text[j + 1..];
      j := j + 1;
    }
    end := if j < |text| then j + 1 else j;
  }

  /** Cut `text` to `maxWidth` visible characters, keeping its escapes. */
  method Truncate(text: string, maxWidth: int) returns (r: string)
    ensures r == Truncated(text, maxWidth)
  {
    if VisibleLen(text) <= maxWidth {
      return text;
    }
    r := ScanText(text, maxWidth);
    r := r + RESET;
  }

  /** The scanning loop of `Truncate`. */
  method ScanText(text: string, maxWidth: int) returns (result: string)
    ensures result == Scan(text, maxWidth)
  {
    var visible, i := 0, 0;
    result := "";
    ghost var whole := Scan(text, maxWidth);
    ScanStarts(text, maxWidth);
    while i < |text| && visible < maxWidth
      invariant 0 <= i <= |text| && result + Scan(text[i..], maxWidth - visible) == whole
      decreases |text| - i
    {
      var end, more := NextPiece(text, i, maxWidth - visible);
      Associates(result, text[i..end], Scan(text[end..], maxWidth - (visible + more)));
      result := result + text[i..end];
      visible, i := visible + more, end;
    }
    ScanEnds(text[i..], maxWidth - visible);
    assert result + "" == result;
  }

  /** The next piece of the text that goes into the result: an escape, or one character that counts. */
  method NextPiece(text: string, i: nat, ghost left: int) returns (end: nat, more: nat)
    requires i < |text| && left > 0
    ensures i < end <= |text|
    ensures Scan(text[i..], left) == text[i..end] + Scan(text[end..], left - more)
  {
    end, more := i + 1, 1;
    if text[i] == ESC {
      end := SkipEscape(text, i);
      more := 0;
    }
    PieceOfScan(text[i..], end - i, left, more);
    SliceOfRest(text, i, end);
  }

  lemma PieceOfScan(rest: string, n: nat, left: int, more: nat)
    requires rest != "" && left > 0
    requires if rest[0] == ESC then n == EscapeEnd(rest) && more == 0 else n == 1 && more == 1
    ensures Scan(rest, left) == rest[..n] + Scan(rest[n..], left - more)
  {
    assert rest[0] != ESC ==> rest[..1] == [rest[0]];
  }

  lemma ScanStarts(text: string, w: int)
    ensures "" + Scan(text[0..], w) == Scan(text, w)
  {
    assert text[0..] == text;
  }

  lemma ScanEnds(s: string, w: int)
    requires s == "" || w <= 0
    ensures Scan(s, w) == ""
  {
  }

  lemma SliceOfRest(text: string, i: nat, end: nat)
    requires i <= end <= |text|
    ensures text[i..][..end - i] == text[i..end]
    ensures text[i..][end - i..] == text[end..]
  {
  }

  lemma {:induction false} AfterMIsParamRun(s: string)
    requires ParamRun(s) < |s| && s[ParamRun(s)] == 'm'
    ensures AfterM(s) == ParamRun(s) + 1
    decreases |s|
  {
    if IsParam(s[0]) {
      AfterMIsParamRun(s[1..]);
    }
  }

  /** On a colour escape the scan and the pattern agree where it ends. */
  lemma EscapeEndIsSgr(s: string)
    requires SgrLength(s) > 0
    ensures EscapeEnd(s) == SgrLength(s)
  {
    AfterMIsParamRun(s[2..]);
    assert s[1..][1..] == s[2..];
  }

  lemma {:induction false} ScanIsTake(s: string, w: int)
    requires WellFormed(s)
    ensures WellFormed(Scan(s, w)) && Strip(Scan(s, w)) == Take(Strip(s), w)
    decreases |s|
  {
    if s == "" || w <= 0 {
    } else if s[0] == ESC {
      ScanIsTake(s[SgrLength(s)..], w);
      ScanSgr(s, w);
    } else {
      ScanIsTake(s[1..], w - 1);
      ScanPlain(s, w);
      TakeMore(s[0], Strip(s[1..]), w);
    }
  }

  lemma ScanSgr(s: string, w: int)
    requires SgrLength(s) > 0 && w > 0 && WellFormed(Scan(s[SgrLength(s)..], w))
    ensures WellFormed(Scan(s, w)) && Strip(Scan(s, w)) == Strip(Scan(s[SgrLength(s)..], w))
  {
    EscapeEndIsSgr(s);
    SgrAlone(s);
    StripConcat(s[..SgrLength(s)], Scan(s[SgrLength(s)..], w));
  }

  lemma ScanPlain(s: string, w: int)
    requires s != "" && s[0] != ESC && w > 0 && WellFormed(Scan(s[1..], w - 1))
    ensures WellFormed(Scan(s, w)) && Strip(Scan(s, w)) == [s[0]] + Strip(Scan(s[1..], w - 1))
  {
    var scanned := Scan(s[1..], w - 1);
    assert ([s[0]] + scanned)[1..] == scanned;
  }

  lemma TakeMore(c: char, s: string, w: int)
    requires w > 0
    ensures Take([c] + s, w) == [c] + Take(s, w - 1)
  {
  }

  lemma SgrAlone(s: string)
    requires SgrLength(s) > 0
    ensures WellFormed(s[..SgrLength(s)]) && Strip(s[..SgrLength(s)]) == ""
  {
    var n := SgrLength(s);
    var params := s[2..n - 1];
    ParamRunIsParams(s[2..]);
    assert forall i :: 0 <= i < |params| ==> params[i] == s[2..][i];
    assert s[..n] == Sgr(params);
    SgrIsInvisible(params);
  }

  /**
   What is visible of a truncated text is the front of what was visible before; and it can be put next to other text.
   */
  lemma TruncateAgreesWithStrip(s: string, w: int)
    requires WellFormed(s)
    ensures WellFormed(Truncated(s, w))
    ensures Strip(Truncated(s, w)) == Take(Strip(s), w)
  {
    ScanIsTake(s, w);
    ResetIsInvisible();
    StripConcat(Scan(s, w), RESET);
  }

  // ---------- exactly which texts are cut as they are stripped ----------

  /** Every escape character begins a colour escape, or the first that does not is the last visible character. */
  predicate Settled(s: string)
    decreases |s|
  {
    if s == "" then true
    else if s[0] != ESC then Settled(s[1..])
    else if SgrLength(s) > 0 then Settled(s[SgrLength(s)..])
    else Strip(s[1..]) == ""
  }

  ghost predicate AgreesAt(s: string, w: int)
  {
    Strip(Truncated(s, w)) == Take(Strip(s), w)
  }

  lemma {:induction false} WellFormedIsSettled(s: string)
    requires WellFormed(s)
    ensures Settled(s)
    decreases |s|
  {
    if s != "" {
      WellFormedIsSettled(if s[0] == ESC then s[SgrLength(s)..] else s[1..]);
    }
  }

  lemma {:induction false} ScanOfSettled(s: string, w: int)
    requires Settled(s) && w < VisibleLen(s)
    ensures WellFormed(Scan(s, w)) && Strip(Scan(s, w)) == Take(Strip(s), w)
    decreases |s|
  {
    if s != "" && w > 0 {
      if s[0] == ESC {
        ScanOfSettled(s[SgrLength(s)..], w);
        ScanSgr(s, w);
      } else {
        ScanOfSettled(s[1..], w - 1);
        ScanPlain(s, w);
        TakeMore(s[0], Strip(s[1..]), w);
      }
    }
  }

  lemma SettledAgrees(s: string, w: int)
    requires Settled(s)
    ensures AgreesAt(s, w)
  {
    if w < VisibleLen(s) {
      ScanOfSettled(s, w);
      ResetIsInvisible();
      StripConcat(Scan(s, w), RESET);
    }
  }

  lemma {:induction false} AfterMIsBehindParams(s: string)
    ensures AfterM(s) >= ParamRun(s)
    ensures ParamRun(s) < |s| && s[ParamRun(s)] != 'm' ==> AfterM(s) > ParamRun(s)
    ensures ParamRun(s) == |s| ==> AfterM(s) == |s|
    decreases |s|
  {
    if s != "" && IsParam(s[0]) {
      AfterMIsBehindParams(s[1..]);
    }
  }

  lemma {:induction false} ParamRunPrefix(s: string, n: nat, z: string)
    requires ParamRun(s) < n <= |s|
    ensures ParamRun(s[..n] + z) == ParamRun(s)
    decreases |s|
  {
    if IsParam(s[0]) {
      assert (s[..n] + z)[1..] == s[1..][..n - 1] + z;
      ParamRunPrefix(s[1..], n - 1, z);
    }
  }

  lemma {:induction false} ParamRunBehind(s: string, z: string)
    requires ParamRun(s) == |s| && (z != "" ==> !IsParam(z[0]))
    ensures ParamRun(s + z) == |s|
    decreases |s|
  {
    if s == "" {
      assert s + z == z;
    } else {
      assert (s + z)[1..] == s[1..] + z;
      ParamRunBehind(s[1..], z);
    }
  }

  /**
   What the scan takes for one escape is no colour escape if the text does not begin with one, whatever follows it.
   */
  lemma OtherStaysOther(s: string, z: string)
    requires s != "" && s[0] == ESC && SgrLength(s) == 0
    requires EscapeEnd(s) == |s| ==> z == "" || z[0] == ESC || s[|s| - 1] == 'm'
    ensures SgrLength(s[..EscapeEnd(s)] + z) == 0
  {
    var e := EscapeEnd(s);
    var t := s[..e] + z;
    if |s| >= 2 && s[1] == '[' {
      BracketStaysOther(s, z);
    } else if e > 1 {
      assert t[1] == s[1];
    }
  }

  lemma BracketStaysOther(s: string, z: string)
    requires |s| >= 2 && s[0] == ESC && s[1] == '[' && SgrLength(s) == 0
    requires EscapeEnd(s) == |s| ==> z == "" || z[0] == ESC || s[|s| - 1] == 'm'
    ensures SgrLength(s[..EscapeEnd(s)] + z) == 0
  {
    var e, rest := EscapeEnd(s), s[2..];
    var t := s[..e] + z;
    assert s[1..][1..] == rest;
    assert e == 2 + AfterM(rest);
    AfterMIsBehindParams(rest);
    if ParamRun(rest) < |rest| {
      assert t[2..] == rest[..e - 2] + z;
      ParamRunPrefix(rest, e - 2, z);
    } else {
      assert e == |s| && t[2..] == rest + z;
      LastOfParams(rest);
      ParamRunBehind(rest, z);
    }
  }

  lemma {:induction false} LastOfParams(s: string)
    requires ParamRun(s) == |s|
    ensures s != "" ==> s[|s| - 1] != 'm'
    decreases |s|
  {
    if |s| > 1 {
      LastOfParams(s[1..]);
    }
  }

  /**
   Where a text begins with another kind of escape, the escape character stays visible in what the scan makes of it.
   */
  lemma OtherShows(s: string, z: string)
    requires s != "" && s[0] == ESC && SgrLength(s) == 0
    requires EscapeEnd(s) == |s| ==> z != "" && z[0] == ESC
    ensures Strip(s[..EscapeEnd(s)] + z) == [ESC] + Strip(s[1..EscapeEnd(s)] + z)
  {
    OtherStaysOther(s, z);
    assert (s[..EscapeEnd(s)] + z)[1..] == s[1..EscapeEnd(s)] + z;
  }

  /** The scan, with the closing escape. */
  function Cut(s: string, w: int): string
  {
    Scan(s, w) + RESET
  }

  lemma CutPlain(s: string, w: int)
    requires s != "" && s[0] != ESC && w > 0
    ensures Strip(Cut(s, w)) == [s[0]] + Strip(Cut(s[1..], w - 1))
  {
    var cut := Cut(s[1..], w - 1);
    Associates([s[0]], Scan(s[1..], w - 1), RESET);
    assert ([s[0]] + cut)[1..] == cut;
  }

  lemma CutSgr(s: string, w: int)
    requires SgrLength(s) > 0 && w > 0
    ensures Strip(Cut(s, w)) == Strip(Cut(s[SgrLength(s)..], w))
  {
    var n := SgrLength(s);
    EscapeEndIsSgr(s);
    Associates(s[..n], Scan(s[n..], w), RESET);
    StripsInvisible(s, Cut(s[n..], w));
  }

  lemma StripsInvisible(s: string, z: string)
    requires SgrLength(s) > 0
    ensures Strip(s[..SgrLength(s)] + z) == Strip(z)
  {
    SgrAlone(s);
    StripConcat(s[..SgrLength(s)], z);
    assert "" + Strip(z) == Strip(z);
  }

  lemma CutEscape(s: string, w: int)
    requires s != "" && s[0] == ESC && w > 0
    ensures Cut(s, w) == s[..EscapeEnd(s)] + Cut(s[EscapeEnd(s)..], w)
    ensures EscapeEnd(s) == |s| ==> Cut(s[EscapeEnd(s)..], w) == RESET
  {
    var e := EscapeEnd(s);
    Associates(s[..e], Scan(s[e..], w), RESET);
    assert e == |s| ==> s[e..] == "" && "" + RESET == RESET;
  }

  /** If anything of a text is visible, something is in its scan for one character. */
  lemma {:induction false} SomethingShows(s: string)
    requires Strip(s) != ""
    ensures Strip(Cut(s, 1)) != ""
    decreases |s|
  {
    if s[0] != ESC {
      CutPlain(s, 1);
    } else if SgrLength(s) > 0 {
      CutSgr(s, 1);
      SomethingShows(s[SgrLength(s)..]);
    } else {
      CutEscape(s, 1);
      OtherShows(s, Cut(s[EscapeEnd(s)..], 1));
    }
  }

  /** Behind the escape character of another kind of escape, too, something is visible if anything was. */
  lemma RestShows(t: string)
    requires Strip(t) != ""
    ensures Strip(t[..AfterM(t)] + Cut(t[AfterM(t)..], 1)) != ""
  {
    var z := Cut(t[AfterM(t)..], 1);
    if t[0] == ESC {
      CutEscape(t, 1);
      SomethingShows(t);
    } else {
      assert (t[..AfterM(t)] + z)[0] == t[0];
      assert SgrLength(t[..AfterM(t)] + z) == 0;
    }
  }

  lemma RestOfOther(s: string)
    requires s != "" && s[0] == ESC && Strip(s[1..]) != ""
    ensures Strip(s[1..EscapeEnd(s)] + Cut(s[EscapeEnd(s)..], 1)) != ""
  {
    var e := EscapeEnd(s);
    RestShows(s[1..]);
    assert s[1..][..e - 1] == s[1..e];
    assert s[1..][e - 1..] == s[e..];
  }

  /** Another kind of escape, with something visible behind it, makes the scan for one character show two. */
  lemma OtherOverflows(s: string)
    requires s != "" && s[0] == ESC && SgrLength(s) == 0 && Strip(s[1..]) != ""
    ensures VisibleLen(Cut(s, 1)) > 1
  {
    var z := Cut(s[EscapeEnd(s)..], 1);
    CutEscape(s, 1);
    RestOfOther(s);
    OtherShows(s, z);
  }

  /** How many characters are visible in front of the first other escape. */
  function Front(s: string): nat
    decreases |s|
  {
    if s == "" then 0
    else if s[0] != ESC then 1 + Front(s[1..])
    else if SgrLength(s) > 0 then Front(s[SgrLength(s)..])
    else 0
  }

  /** Cut at the width that takes in its first other escape, the text shows more than that. */
  ghost predicate Overflows(s: string)
  {
    VisibleLen(s) > Front(s) + 1 && VisibleLen(Cut(s, Front(s) + 1)) > Front(s) + 1
  }

  lemma OverflowsPlain(s: string)
    requires s != "" && s[0] != ESC && Overflows(s[1..])
    ensures Overflows(s)
  {
    CutPlain(s, Front(s) + 1);
  }

  lemma SkipsSgr(s: string, t: string)
    requires SgrLength(s) > 0 && t == s[SgrLength(s)..]
    ensures Front(s) == Front(t) && Strip(s) == Strip(t)
  {
  }

  lemma OverflowsSgr(s: string, t: string)
    requires SgrLength(s) > 0 && t == s[SgrLength(s)..] && Overflows(t)
    ensures Overflows(s)
  {
    var w := Front(t) + 1;
    SkipsSgr(s, t);
    CutSgr(s, w);
    assert VisibleLen(Cut(s, w)) == VisibleLen(Cut(t, w));
  }

  /** A text that is not settled is cut too late. */
  lemma {:induction false} UnsettledOverflows(s: string)
    requires !Settled(s)
    ensures Overflows(s)
    decreases |s|
  {
    if s[0] != ESC {
      UnsettledOverflows(s[1..]);
      OverflowsPlain(s);
    } else if SgrLength(s) > 0 {
      UnsettledOverflows(s[SgrLength(s)..]);
      OverflowsSgr(s, s[SgrLength(s)..]);
    } else {
      OtherOverflows(s);
    }
  }

  /**
   Cutting agrees with stripping at every width exactly for settled texts: those in which every escape character
   begins a colour escape, or the first that does not is the last visible character.
   */
  lemma AgreesExactlyIfSettled(s: string)
    ensures (forall w: int :: AgreesAt(s, w)) <==> Settled(s)
  {
    if Settled(s) {
      forall w: int
        ensures AgreesAt(s, w)
      {
        SettledAgrees(s, w);
      }
    } else {
      UnsettledOverflows(s);
      assert !AgreesAt(s, Front(s) + 1);
    }
  }

  // ---------- which escapes are colour escapes ----------

  lemma {:induction false} ParamRunStops(p: string, k: nat)
    requires k < |p| && !IsParam(p[k])
    ensures ParamRun(p + "m") <= k && !IsParam((p + "m")[ParamRun(p + "m")]) && ParamRun(p + "m") < |p|
    decreases |p|
  {
    if IsParam(p[0]) {
      assert (p + "m")[1..] == p[1..] + "m";
      ParamRunStops(p[1..], k - 1);
    }
  }

  /** An escape character, a bracket and an "m" are invisible exactly if all that stands between is digits or ";". */
  lemma ColourEscapesAre(p: string)
    requires 'm' !in p
    ensures Strip([27 as char, '['] + p + "m") == "" <==> forall c :: c in p ==> 48 <= c as int <= 57 || c == ';'
  {
    var s := [27 as char, '['] + p + "m";
    assert 27 as char == ESC;
    if forall c :: c in p ==> IsParam(c) {
      SgrIsInvisible(p);
    } else {
      var c :| c in p && !IsParam(c);
      var k :| 0 <= k < |p| && p[k] == c;
      ParamRunStops(p, k);
      assert s[2..] == p + "m";
      assert SgrLength(s) == 0;
    }
    assert forall c :: IsParam(c) <==> 48 <= c as int <= 57 || c == ';';
  }

  /** Text that is cut ends with all colours off. */
  lemma CutEndsPlain(s: string, w: int)
    requires VisibleLen(s) > w
    ensures var t := Truncated(s, w); |t| >= 4 && t[|t| - 4..] == [27 as char, '[', '0', 'm']
  {
    var scan := Scan(s, w);
    assert RESET == [27 as char, '[', '0', 'm'];
    assert (scan + RESET)[|scan|..] == RESET;
  }
}
