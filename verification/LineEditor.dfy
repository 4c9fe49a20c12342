/**
 Replacing one setting in the first section of a list of lines, for any tests of what a line is. The lines themselves
 stay abstract here; module `SectionEditor` supplies the tests and the text.
 */
module LineEditor {
  import opened Common

  /** The tests that tell section lines, header lines and setting lines from the rest. */
  datatype Rules<!T> = Rules(isSection: T -> bool, isHeader: T -> bool, isSetting: T -> bool)

  /** A section line is a header, and neither is a setting. */
  ghost predicate Consistent<T(!new)>(r: Rules<T>)
  {
    && (forall x: T :: r.isSection(x) ==> r.isHeader(x))
    && (forall x: T :: r.isHeader(x) ==> !r.isSetting(x))
  }

  // ---------- searching and filtering ----------

  /** Index of the first line from `i` on that passes the test, or the length. */
  function First<T>(lines: seq<T>, i: nat, test: T -> bool): (n: nat)
    requires i <= |lines|
    ensures i <= n <= |lines|
    ensures forall k :: i <= k < n ==> !test(lines[k])
    ensures n < |lines| ==> test(lines[n])
    decreases |lines| - i
  {
    if i == |lines| || test(lines[i]) then i else First(lines, i + 1, test)
  }

  /** The lines that fail the test. */
  function Others<T>(lines: seq<T>, test: T -> bool): seq<T>
  {
    if lines == [] then []
    else Others(lines[..|lines| - 1], test) + if test(lines[|lines| - 1]) then [] else [lines[|lines| - 1]]
  }

  lemma FirstIs<T>(lines: seq<T>, i: nat, test: T -> bool, n: nat)
    requires i <= n <= |lines|
    requires forall k :: i <= k < n ==> !test(lines[k])
    requires n < |lines| ==> test(lines[n])
    ensures First(lines, i, test) == n
  {
  }

  lemma OthersSnoc<T>(lines: seq<T>, last: T, test: T -> bool)
    ensures Others(lines + [last], test) == Others(lines, test) + if test(last) then [] else [last]
  {
    assert (lines + [last])[..|lines|] == lines;
  }

  lemma {:induction false} OthersConcat<T>(a: seq<T>, b: seq<T>, test: T -> bool)
    ensures Others(a + b, test) == Others(a, test) + Others(b, test)
    decreases |b|
  {
    if b == [] {
      assert a + b == a;
    } else {
      var init, last := b[..|b| - 1], b[|b| - 1];
      assert a + b == a + init + [last];
      OthersConcat(a, init, test);
      OthersSnoc(a + init, last, test);
    }
  }

  lemma {:induction false} OthersKeepsAll<T>(lines: seq<T>, test: T -> bool)
    requires forall k :: 0 <= k < |lines| ==> !test(lines[k])
    ensures Others(lines, test) == lines
    decreases |lines|
  {
    if lines != [] {
      OthersKeepsAll(lines[..|lines| - 1], test);
    }
  }

  lemma {:induction false} OthersFacts<T>(lines: seq<T>, test: T -> bool)
    ensures forall x :: x in Others(lines, test) ==> !test(x) && x in lines
    decreases |lines|
  {
    if lines != [] {
      OthersFacts(lines[..|lines| - 1], test);
    }
  }

  // ---------- the section and the edit ----------

  function Start<T>(r: Rules<T>, lines: seq<T>): nat
  {
    First(lines, 0, r.isSection)
  }

  /** The header that ends the section, or the end of the lines. */
  function End<T>(r: Rules<T>, lines: seq<T>): (e: nat)
    requires Start(r, lines) < |lines|
    ensures Start(r, lines) < e <= |lines|
  {
    First(lines, Start(r, lines) + 1, r.isHeader)
  }

  function Body<T>(r: Rules<T>, lines: seq<T>): seq<T>
    requires Start(r, lines) < |lines|
  {
    lines[Start(r, lines) + 1..End(r, lines)]
  }

  function Place<T>(r: Rules<T>, body: seq<T>): (p: nat)
    ensures p <= |body|
  {
    First(body, 0, r.isSetting)
  }

  /** What stands in front of the setting after an edit; `opening` starts a section where there is none. */
  function Before<T>(r: Rules<T>, lines: seq<T>, opening: seq<T>): seq<T>
  {
    if Start(r, lines) == |lines| then lines + opening
    else lines[..Start(r, lines) + 1] + Body(r, lines)[..Place(r, Body(r, lines))]
  }

  /** What stands behind it. */
  function After<T>(r: Rules<T>, lines: seq<T>): seq<T>
  {
    if Start(r, lines) == |lines| then []
    else Others(Body(r, lines)[Place(r, Body(r, lines))..], r.isSetting) + lines[End(r, lines)..]
  }

  function Edited<T>(r: Rules<T>, lines: seq<T>, opening: seq<T>, setting: T): seq<T>
  {
    Before(r, lines, opening) + [setting] + After(r, lines)
  }

  /** A section body with the setting in place of the first old one, further old ones dropped. */
  function NewBody<T>(r: Rules<T>, body: seq<T>, setting: T): seq<T>
  {
    body[..Place(r, body)] + [setting] + Others(body[Place(r, body)..], r.isSetting)
  }

  /** Rewriting the body of the section is the edit. */
  lemma EditedInPlace<T>(r: Rules<T>, lines: seq<T>, opening: seq<T>, setting: T)
    requires Start(r, lines) < |lines|
    ensures lines[..Start(r, lines) + 1] + NewBody(r, Body(r, lines), setting) + lines[End(r, lines)..]
         == Edited(r, lines, opening, setting)
  {
    var head, body, tail := lines[..Start(r, lines) + 1], Body(r, lines), lines[End(r, lines)..];
    var front, back := body[..Place(r, body)], Others(body[Place(r, body)..], r.isSetting);
    EditedParts(r, lines, opening);
    FiveParts(head, front, [setting], back, tail);
  }

  /** What stands in front of the setting and behind it, if there is a section. */
  lemma EditedParts<T>(r: Rules<T>, lines: seq<T>, opening: seq<T>)
    requires Start(r, lines) < |lines|
    ensures var body := Body(r, lines);
      && Before(r, lines, opening) == lines[..Start(r, lines) + 1] + body[..Place(r, body)]
      && After(r, lines) == Others(body[Place(r, body)..], r.isSetting) + lines[End(r, lines)..]
  {
  }

  lemma FiveParts<T>(a: seq<T>, b: seq<T>, c: seq<T>, d: seq<T>, e: seq<T>)
    ensures a + (b + c + d) + e == a + b + c + (d + e)
  {
    Associates(b, c, d);
    Associates(a, b, c + d);
    Associates(a + b, c, d);
    Associates(a + b + c, d, e);
  }

  lemma FourParts<T>(a: seq<T>, b: seq<T>, c: seq<T>, d: seq<T>)
    ensures a + b + (c + d) == a + (b + c) + d
  {
    Associates(a + b, c, d);
    Associates(a, b, c);
  }

  // ---------- the loops ----------

  /** Where the section starts, -1 if nowhere, and where it ends. */
  method Locate<T>(r: Rules<T>, lines: seq<T>) returns (start: int, end: nat)
    ensures start == if Start(r, lines) == |lines| then -1 else Start(r, lines)
    ensures Start(r, lines) < |lines| ==> end == End(r, lines)
  {
    start, end := -1, |lines|;
    var i := 0;
    while i < |lines|
      invariant 0 <= i <= |lines|
      invariant Start(r, lines) == First(lines, i, r.isSection)
    {
      if r.isSection(lines[i]) {
        start := i;
        var j := i + 1;
        while j < |lines|
          invariant i < j <= |lines|
          invariant End(r, lines) == First(lines, j, r.isHeader)
        {
          if r.isHeader(lines[j]) {
            return start, j;
          }
          j := j + 1;
        }
        return start, |lines|;
      }
      i := i + 1;
    }
  }

  /** What the rewriting loop has made of `body[..i]`. */
  ghost function Rewritten<T>(r: Rules<T>, body: seq<T>, setting: T, i: nat): seq<T>
    requires i <= |body|
  {
    if i == 0 then []
    else
      Rewritten(r, body, setting, i - 1)
      + if !r.isSetting(body[i - 1]) then [body[i - 1]] else if i - 1 == Place(r, body) then [setting] else []
  }

  lemma {:induction false} RewrittenUpTo<T>(r: Rules<T>, body: seq<T>, setting: T, i: nat)
    requires i <= Place(r, body)
    ensures Rewritten(r, body, setting, i) == body[..i]
  {
    if i > 0 {
      RewrittenUpTo(r, body, setting, i - 1);
      assert body[..i] == body[..i - 1] + [body[i - 1]];
    }
  }

  lemma {:induction false} RewrittenBehind<T>(r: Rules<T>, body: seq<T>, setting: T, p: nat, i: nat)
    requires p == Place(r, body) < i <= |body|
    ensures Rewritten(r, body, setting, i) == body[..p] + [setting] + Others(body[p..i], r.isSetting)
    decreases i
  {
    var last := body[i - 1];
    assert body[p..i] == body[p..i - 1] + [last];
    OthersSnoc(body[p..i - 1], last, r.isSetting);
    if i == p + 1 {
      RewrittenUpTo(r, body, setting, p);
      assert body[p..p] == [];
    } else {
      RewrittenBehind(r, body, setting, p, i - 1);
    }
  }

  /** The loop makes the new body, except that a setting that has replaced nothing is still to be added. */
  lemma RewrittenAll<T>(r: Rules<T>, body: seq<T>, setting: T)
    ensures NewBody(r, body, setting)
         == Rewritten(r, body, setting, |body|) + if Place(r, body) < |body| then [] else [setting]
  {
    var p := Place(r, body);
    if p < |body| {
      RewrittenBehind(r, body, setting, p, |body|);
      assert body[p..|body|] == body[p..];
    } else {
      RewrittenUpTo(r, body, setting, p);
    }
  }

  method RewriteBody<T>(r: Rules<T>, body: seq<T>, setting: T) returns (newBody: seq<T>)
    ensures newBody == NewBody(r, body, setting)
  {
    RewrittenAll(r, body, setting);
    var replaced := false;
    newBody := [];
    var i := 0;
    while i < |body|
      invariant 0 <= i <= |body|
      invariant replaced <==> Place(r, body) < i
      invariant newBody == Rewritten(r, body, setting, i)
    {
      var line := body[i];
      i := i + 1;
      if r.isSetting(line) {
        if !replaced {
          newBody := newBody + [setting];
          replaced := true;
        }
        continue;
      }
      newBody := newBody + [line];
    }
    if !replaced {
      newBody := newBody + [setting];
    }
  }

  // ---------- the frame around a setting ----------

  /** No setting stands in front of the first header. */
  ghost predicate Quiet<T>(r: Rules<T>, lines: seq<T>)
  {
    forall k :: 0 <= k < First(lines, 0, r.isHeader) ==> !r.isSetting(lines[k])
  }

  /** Lines around a setting such that it is the only one of its section, which starts at `d`. */
  ghost predicate Framed<T>(r: Rules<T>, before: seq<T>, after: seq<T>, d: nat)
  {
    && d < |before| && r.isSection(before[d])
    && (forall k :: 0 <= k < d ==> !r.isSection(before[k]))
    && (forall k :: d < k < |before| ==> !r.isHeader(before[k]) && !r.isSetting(before[k]))
    && Quiet(r, after)
  }

  /** Lines that open a section at their end. */
  ghost predicate Opens<T>(r: Rules<T>, opening: seq<T>)
  {
    && opening != [] && r.isSection(opening[|opening| - 1])
    && forall k :: 0 <= k < |opening| - 1 ==> !r.isSection(opening[k])
  }

  function FrameStart<T>(r: Rules<T>, lines: seq<T>, opening: seq<T>): int
  {
    if Start(r, lines) < |lines| then Start(r, lines) else |lines| + |opening| - 1
  }

  lemma FoundBefore<T>(r: Rules<T>, lines: seq<T>, opening: seq<T>)
    requires Start(r, lines) < |lines|
    ensures var d, before := Start(r, lines), Before(r, lines, opening);
      && d < |before| && before[..d + 1] == lines[..d + 1]
      && (forall k :: d < k < |before| ==> !r.isHeader(before[k]) && !r.isSetting(before[k]))
  {
    var d, body := Start(r, lines), Body(r, lines);
    assert forall k :: 0 <= k < |body| ==> body[k] == lines[d + 1 + k];
  }

  lemma QuietConcat<T>(r: Rules<T>, back: seq<T>, tail: seq<T>)
    requires forall x :: x in back ==> !r.isHeader(x) && !r.isSetting(x)
    requires tail != [] ==> r.isHeader(tail[0])
    ensures Quiet(r, back + tail)
  {
    FirstIs(back + tail, 0, r.isHeader, |back|);
  }

  lemma FoundAfter<T>(r: Rules<T>, lines: seq<T>)
    requires Start(r, lines) < |lines|
    ensures Quiet(r, After(r, lines))
  {
    var d, body, e := Start(r, lines), Body(r, lines), End(r, lines);
    var old_ := body[Place(r, body)..];
    OthersFacts(old_, r.isSetting);
    assert forall x :: x in body ==> !r.isHeader(x);
    assert forall x :: x in old_ ==> x in body;
    QuietConcat(r, Others(old_, r.isSetting), lines[e..]);
  }

  /** Every edit leaves its setting framed. */
  lemma EditIsFramed<T>(r: Rules<T>, lines: seq<T>, opening: seq<T>)
    requires Opens(r, opening)
    ensures FrameStart(r, lines, opening) >= 0
    ensures Framed(r, Before(r, lines, opening), After(r, lines), FrameStart(r, lines, opening))
  {
    if Start(r, lines) < |lines| {
      FoundBefore(r, lines, opening);
      FoundAfter(r, lines);
    }
  }

  lemma SliceAround<T>(before: seq<T>, setting: T, after: seq<T>, d: nat, q: nat)
    requires d <= |before| && q <= |after|
    ensures (before + [setting] + after)[d..|before| + 1 + q] == before[d..] + [setting] + after[..q]
  {
  }

  /** Where the section of a framed setting starts and ends, and what is in it. */
  lemma FramedLocates<T>(r: Rules<T>, before: seq<T>, setting: T, after: seq<T>, d: nat)
    requires Framed(r, before, after, d) && r.isSetting(setting) && !r.isHeader(setting)
    ensures var lines, q := before + [setting] + after, First(after, 0, r.isHeader);
      && Start(r, lines) == d
      && End(r, lines) == |before| + 1 + q
      && Body(r, lines) == before[d + 1..] + [setting] + after[..q]
  {
    var lines, q := before + [setting] + after, First(after, 0, r.isHeader);
    SliceAround(before, setting, after, d + 1, q);
    FirstIs(lines, 0, r.isSection, d);
    NoHeaderAround(r, before, setting, after, d, q);
    FirstIs(lines, d + 1, r.isHeader, |before| + 1 + q);
  }

  lemma NoHeaderAround<T>(r: Rules<T>, before: seq<T>, setting: T, after: seq<T>, d: nat, q: nat)
    requires Framed(r, before, after, d) && !r.isHeader(setting) && q == First(after, 0, r.isHeader)
    ensures var lines := before + [setting] + after;
      forall k :: d < k < |before| + 1 + q ==> !r.isHeader(lines[k])
  {
    var lines := before + [setting] + after;
    forall k | d < k < |before| + 1 + q
      ensures !r.isHeader(lines[k])
    {
      assert k > |before| ==> lines[k] == after[k - |before| - 1];
    }
  }

  lemma FramedBody<T>(r: Rules<T>, front: seq<T>, setting: T, back: seq<T>)
    requires r.isSetting(setting)
    requires forall k :: 0 <= k < |front| ==> !r.isSetting(front[k])
    requires forall k :: 0 <= k < |back| ==> !r.isSetting(back[k])
    ensures var body := front + [setting] + back;
      && Place(r, body) == |front| && body[..|front|] == front
      && Others(body[|front|..], r.isSetting) == back
  {
    var body := front + [setting] + back;
    FirstIs(body, 0, r.isSetting, |front|);
    assert body[|front|..] == [setting] + back;
    OthersConcat([setting], back, r.isSetting);
    OthersKeepsAll(back, r.isSetting);
    assert Others([setting], r.isSetting) == [];
  }

  lemma Slices<T>(before: seq<T>, setting: T, after: seq<T>, d: nat, q: nat)
    requires d < |before| && q <= |after|
    ensures var lines := before + [setting] + after;
      && lines[..d + 1] + before[d + 1..] == before
      && after[..q] + lines[|before| + 1 + q..] == after
  {
    var lines := before + [setting] + after;
    assert lines[|before| + 1 + q..] == after[q..];
  }

  /** Editing again around a framed setting finds the same frame. */
  lemma ReEdit<T>(r: Rules<T>, before: seq<T>, setting: T, after: seq<T>, d: nat, opening: seq<T>)
    requires Framed(r, before, after, d) && r.isSetting(setting) && !r.isHeader(setting)
    ensures var lines := before + [setting] + after; Before(r, lines, opening) == before && After(r, lines) == after
  {
    var q := First(after, 0, r.isHeader);
    FramedLocates(r, before, setting, after, d);
    FramedBody(r, before[d + 1..], setting, after[..q]);
    Slices(before, setting, after, d, q);
  }

  /** The first section has exactly one setting line, and that is `setting`. */
  ghost predicate HasJust<T>(r: Rules<T>, lines: seq<T>, setting: T)
  {
    && Start(r, lines) < |lines|
    && exists p :: 0 <= p < |Body(r, lines)| && Body(r, lines)[p] == setting
         && forall k :: 0 <= k < |Body(r, lines)| ==> (r.isSetting(Body(r, lines)[k]) <==> k == p)
  }

  lemma FramedHasJust<T>(r: Rules<T>, before: seq<T>, setting: T, after: seq<T>, d: nat)
    requires Framed(r, before, after, d) && r.isSetting(setting) && !r.isHeader(setting)
    ensures HasJust(r, before + [setting] + after, setting)
  {
    FramedLocates(r, before, setting, after, d);
    var body := Body(r, before + [setting] + after);
    var p := |before| - d - 1;
    assert body[p] == setting;
    assert forall k :: 0 <= k < |body| ==> (r.isSetting(body[k]) <==> k == p);
  }

  /** All lines but the old settings of the section; if there is no section, its opening comes behind them. */
  function Remaining<T>(r: Rules<T>, lines: seq<T>, opening: seq<T>): seq<T>
  {
    if Start(r, lines) == |lines| then lines + opening
    else lines[..Start(r, lines) + 1] + Others(Body(r, lines), r.isSetting) + lines[End(r, lines)..]
  }

  /** Without its setting, an edited file is the remaining old lines. */
  lemma FrameIsOldLines<T>(r: Rules<T>, lines: seq<T>, opening: seq<T>)
    ensures Before(r, lines, opening) + After(r, lines) == Remaining(r, lines, opening)
  {
    if Start(r, lines) < |lines| {
      var body := Body(r, lines);
      OthersOfBody(r, body);
      FourParts(lines[..Start(r, lines) + 1], body[..Place(r, body)], Others(body[Place(r, body)..], r.isSetting),
                lines[End(r, lines)..]);
    }
  }

  lemma OthersOfBody<T>(r: Rules<T>, body: seq<T>)
    ensures Others(body, r.isSetting) == body[..Place(r, body)] + Others(body[Place(r, body)..], r.isSetting)
  {
    var front, back := body[..Place(r, body)], body[Place(r, body)..];
    assert body == front + back;
    OthersConcat(front, back, r.isSetting);
    OthersKeepsAll(front, r.isSetting);
  }

  /** Lines of the same kinds, cut off somewhere, are as quiet as before. */
  lemma QuietPrefix<T>(r: Rules<T>, lines: seq<T>, cut: seq<T>)
    requires Quiet(r, lines) && |cut| <= |lines|
    requires forall k :: 0 <= k < |cut| ==> (r.isHeader(cut[k]) <==> r.isHeader(lines[k]))
    requires forall k :: 0 <= k < |cut| ==> (r.isSetting(cut[k]) <==> r.isSetting(lines[k]))
    ensures Quiet(r, cut)
  {
    var e := First(lines, 0, r.isHeader);
    if e < |cut| {
      assert r.isHeader(cut[e]);
    }
    assert First(cut, 0, r.isHeader) <= e;
  }

  lemma {:induction false} OthersHasAll<T>(lines: seq<T>, test: T -> bool, x: T)
    requires x in lines && !test(x)
    ensures x in Others(lines, test)
    decreases |lines|
  {
    var last := lines[|lines| - 1];
    if x != last {
      OthersHasAll(lines[..|lines| - 1], test, x);
    }
  }

  lemma OthersExact<T>(lines: seq<T>, test: T -> bool, x: T)
    ensures x in Others(lines, test) <==> x in lines && !test(x)
  {
    OthersFacts(lines, test);
    if x in lines && !test(x) {
      OthersHasAll(lines, test, x);
    }
  }

  /** Every line of an edited file is an old line or one that the edit brings in. */
  lemma LinesComeFrom<T>(r: Rules<T>, lines: seq<T>, opening: seq<T>)
    ensures forall x :: x in Before(r, lines, opening) ==> x in lines || x in opening
    ensures forall x :: x in After(r, lines) ==> x in lines
  {
    if Start(r, lines) < |lines| {
      var body := Body(r, lines);
      OthersFacts(body[Place(r, body)..], r.isSetting);
    }
  }

  /** In front of the setting an edit keeps the lines of the section up to its first old setting. */
  lemma KeptInFront<T>(r: Rules<T>, lines: seq<T>, opening: seq<T>)
    requires Start(r, lines) < |lines|
    ensures Before(r, lines, opening)[Start(r, lines) + 1..] == Body(r, lines)[..Place(r, Body(r, lines))]
  {
  }

  /** A line of the section that is no setting stays in front of the new setting or behind it. */
  lemma OtherLineIsKept<T>(r: Rules<T>, lines: seq<T>, x: T)
    requires Start(r, lines) < |lines| && x in Body(r, lines) && !r.isSetting(x)
    ensures var body := Body(r, lines);
      x in body[..Place(r, body)] || x in Others(body[Place(r, body)..], r.isSetting)
  {
    var body := Body(r, lines);
    OthersExact(body, r.isSetting, x);
    OthersOfBody(r, body);
  }

  /** No header is among the lines of a section that an edit keeps. */
  lemma KeptIsNoHeader<T>(r: Rules<T>, lines: seq<T>, k: nat)
    requires Start(r, lines) < |lines|
    requires k < |Others(Body(r, lines)[Place(r, Body(r, lines))..], r.isSetting)|
    ensures !r.isHeader(Others(Body(r, lines)[Place(r, Body(r, lines))..], r.isSetting)[k])
  {
    var body := Body(r, lines);
    var old_ := body[Place(r, body)..];
    OthersFacts(old_, r.isSetting);
    assert forall x :: x in body ==> !r.isHeader(x);
    assert forall x :: x in old_ ==> x in body;
  }

  lemma JustOne<T>(r: Rules<T>, lines: seq<T>, setting: T, y: T)
    requires HasJust(r, lines, setting) && y in Body(r, lines) && r.isSetting(y)
    ensures y == setting
  {
  }

  lemma ContinuedBody<T>(r: Rules<T>, first: T, more: seq<T>)
    requires r.isSetting(first) && forall i :: 0 <= i < |more| ==> !r.isSetting(more[i])
    ensures Place(r, [first] + more) == 0 && Others([first] + more, r.isSetting) == more
  {
    FirstIs([first] + more, 0, r.isSetting, 0);
    OthersConcat([first], more, r.isSetting);
    OthersKeepsAll(more, r.isSetting);
    assert Others([first], r.isSetting) == [];
    assert [] + more == more;
  }

  lemma WholeBody<T>(r: Rules<T>, head: T, body: seq<T>)
    requires r.isSection(head) && forall i :: 0 <= i < |body| ==> !r.isHeader(body[i])
    ensures var lines := [head] + body;
      Start(r, lines) == 0 && End(r, lines) == |lines| && Body(r, lines) == body && lines[..1] == [head]
  {
    var lines := [head] + body;
    FirstIs(lines, 0, r.isSection, 0);
    FirstIs(lines, 1, r.isHeader, |lines|);
    assert lines[1..|lines|] == body;
  }

  /** A section whose setting goes on over further lines: only the first of them is replaced. */
  lemma ContinuedSetting<T>(r: Rules<T>, head: T, first: T, more: seq<T>, opening: seq<T>)
    requires r.isSection(head) && r.isSetting(first) && !r.isHeader(first)
    requires forall i :: 0 <= i < |more| ==> !r.isHeader(more[i]) && !r.isSetting(more[i])
    ensures var lines := [head] + ([first] + more);
      Before(r, lines, opening) == [head] && After(r, lines) == more
  {
    var body := [first] + more;
    WholeBody(r, head, body);
    ContinuedBody(r, first, more);
    assert body[..0] == [];
    assert body[0..] == body;
    assert [head] + [] == [head];
    assert more + ([head] + body)[|body| + 1..] == more;
  }

  lemma NothingInFront<T>(r: Rules<T>, front: seq<T>)
    requires forall i :: 0 <= i < |front| ==> !r.isSetting(front[i])
    ensures Place(r, front) == |front| && front[..Place(r, front)] == front && front[Place(r, front)..] == []
  {
    FirstIs(front, 0, r.isSetting, |front|);
  }

  /** A section without the setting gets it at its end, in front of whatever looks like the next header. */
  lemma SettingBeforeHeader<T>(r: Rules<T>, head: T, front: seq<T>, next: T, back: seq<T>, opening: seq<T>)
    requires r.isSection(head) && r.isHeader(next)
    requires forall i :: 0 <= i < |front| ==> !r.isHeader(front[i]) && !r.isSetting(front[i])
    ensures var lines := [head] + (front + ([next] + back));
      Before(r, lines, opening) == [head] + front && After(r, lines) == [next] + back
  {
    var lines := [head] + (front + ([next] + back));
    FirstIs(lines, 0, r.isSection, 0);
    assert lines[1..|front| + 1] == front && lines[|front| + 1] == next && lines[|front| + 1..] == [next] + back;
    FirstIs(lines, 1, r.isHeader, |front| + 1);
    NothingInFront(r, front);
    assert lines[..1] == [head] && [] + ([next] + back) == [next] + back;
  }
}
