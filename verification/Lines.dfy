/** Splitting text into lines, stripping white space, and joining lines again, as Python's string methods do it. */
module Lines {
  import opened Common

  /** The characters at which `splitlines` breaks. Reading a file in text mode has already turned "\r\n" into "\n". */
  predicate IsBreak(c: char)
  {
    || '\n' <= c <= '\r'
    || '\U{1C}' <= c <= '\U{1E}'
    || c == '\U{85}' || c == '\U{2028}' || c == '\U{2029}'
  }

  /** The characters that `strip` removes. */
  predicate IsSpace(c: char)
  {
    || IsBreak(c)
    || c == ' ' || c == '\t' || c == '\U{1F}' || c == '\U{A0}' || c == '\U{1680}'
    || '\U{2000}' <= c <= '\U{200A}'
    || c == '\U{202F}' || c == '\U{205F}' || c == '\U{3000}'
  }

  function RStrip(s: string): (t: string)
    ensures t <= s
    ensures t != "" ==> !IsSpace(t[|t| - 1])
    ensures forall i :: |t| <= i < |s| ==> IsSpace(s[i])
  {
    if s != "" && IsSpace(s[|s| - 1]) then RStrip(s[..|s| - 1]) else s
  }

  function LStrip(s: string): (t: string)
    ensures |t| <= |s|
  {
    if s != "" && IsSpace(s[0]) then LStrip(s[1..]) else s
  }

  function Strip(s: string): string
  {
    LStrip(RStrip(s))
  }

  predicate StartsWith(s: string, prefix: string)
  {
    prefix <= s
  }

  /** Length of the text in front of the first line break. */
  function LineLength(s: string): (n: nat)
    ensures n <= |s|
    ensures forall i :: 0 <= i < n ==> !IsBreak(s[i])
  {
    if s == "" || IsBreak(s[0]) then 0 else 1 + LineLength(s[1..])
  }

  function SplitLines(s: string): seq<string>
    decreases |s|
  {
    if s == "" then []
    else
      var n := LineLength(s);
      [s[..n]] + if n == |s| then [] else SplitLines(s[n + 1..])
  }

  /** "\n".join(lines) */
  function Join(lines: seq<string>): string
  {
    if lines == [] then ""
    else if |lines| == 1 then lines[0]
    else Join(lines[..|lines| - 1]) + ("\n" + lines[|lines| - 1])
  }

  /**
   Lines that are nothing but white space are dropped from the end, and white space from the end of the last line
   left.
   */
  function Trim(lines: seq<string>): (t: seq<string>)
    ensures |t| <= |lines|
    ensures t != [] ==> t[..|t| - 1] == lines[..|t| - 1] && t[|t| - 1] == RStrip(lines[|t| - 1]) && t[|t| - 1] != ""
  {
    if lines == [] then []
    else
      var last := RStrip(lines[|lines| - 1]);
      if last == "" then Trim(lines[..|lines| - 1]) else lines[..|lines| - 1] + [last]
  }

  predicate Unbroken(line: string)
  {
    forall i :: 0 <= i < |line| ==> !IsBreak(line[i])
  }

  predicate AllUnbroken(lines: seq<string>)
  {
    forall i :: 0 <= i < |lines| ==> Unbroken(lines[i])
  }

  // ---------- stripping ----------

  lemma {:induction false} RStripConcat(a: string, b: string)
    ensures RStrip(a + b) == if RStrip(b) == "" then RStrip(a) else a + RStrip(b)
    decreases |b|
  {
    if b == "" {
      assert a + b == a;
    } else if IsSpace(b[|b| - 1]) {
      assert (a + b)[..|a + b| - 1] == a + b[..|b| - 1];
      RStripConcat(a, b[..|b| - 1]);
    }
  }

  lemma RStripTwice(s: string)
    ensures RStrip(RStrip(s)) == RStrip(s)
  {
  }

  lemma {:induction false} LStripKeepsEnd(s: string)
    requires s != "" && !IsSpace(s[|s| - 1])
    ensures LStrip(s) != ""
    decreases |s|
  {
    if IsSpace(s[0]) {
      LStripKeepsEnd(s[1..]);
    }
  }

  /** A line is blank to one of the strips just when it is to the other. */
  lemma BlankBothWays(s: string)
    ensures Strip(s) == "" <==> RStrip(s) == ""
    ensures Strip(RStrip(s)) == Strip(s)
  {
    RStripTwice(s);
    if RStrip(s) != "" {
      LStripKeepsEnd(RStrip(s));
    }
  }

  // ---------- joining and splitting ----------

  lemma {:induction false} RStripJoin(lines: seq<string>)
    ensures RStrip(Join(lines)) == Join(Trim(lines))
    decreases |lines|
  {
    if |lines| == 1 {
      assert [] + [RStrip(lines[0])] == [RStrip(lines[0])];
      assert Trim(lines[..0]) == [];
    } else if |lines| > 1 {
      var before, last := lines[..|lines| - 1], lines[|lines| - 1];
      RStripConcat(Join(before), "\n" + last);
      RStripConcat("\n", last);
      assert RStrip("\n") == RStrip("");
      RStripJoin(before);
      assert RStrip(last) != "" ==> (before + [RStrip(last)])[..|before|] == before;
    }
  }

  /** Every line with a line end behind it. */
  function Unlines(lines: seq<string>): string
  {
    if lines == [] then "" else lines[0] + ("\n" + Unlines(lines[1..]))
  }

  lemma {:induction false} UnlinesSnoc(lines: seq<string>, last: string)
    ensures Unlines(lines + [last]) == Unlines(lines) + (last + "\n")
    decreases |lines|
  {
    if lines == [] {
      assert lines + [last] == [last] && Unlines([last][1..]) == "";
      assert last + ("\n" + "") == "" + (last + "\n");
    } else {
      assert (lines + [last])[1..] == lines[1..] + [last];
      UnlinesSnoc(lines[1..], last);
    }
  }

  lemma {:induction false} JoinIsUnlines(lines: seq<string>)
    requires lines != []
    ensures Join(lines) + "\n" == Unlines(lines)
    decreases |lines|
  {
    if |lines| == 1 {
      assert lines == [] + [lines[0]];
      UnlinesSnoc([], lines[0]);
    } else {
      var before, last := lines[..|lines| - 1], lines[|lines| - 1];
      JoinIsUnlines(before);
      UnlinesSnoc(before, last);
      assert lines == before + [last];
    }
  }

  lemma {:induction false} LineLengthOf(line: string, rest: string)
    requires Unbroken(line)
    ensures LineLength(line + ("\n" + rest)) == |line|
    decreases |line|
  {
    var end := "\n" + rest;
    if line == "" {
      assert line + end == end;
    } else {
      assert (line + end)[1..] == line[1..] + end;
      LineLengthOf(line[1..], rest);
    }
  }

  lemma {:induction false} SplitUnlines(lines: seq<string>)
    requires AllUnbroken(lines)
    ensures SplitLines(Unlines(lines)) == lines
    decreases |lines|
  {
    if lines != [] {
      SplitFirst(lines[0], Unlines(lines[1..]));
      SplitUnlines(lines[1..]);
      assert lines == [lines[0]] + lines[1..];
    }
  }

  lemma SplitFirst(line: string, rest: string)
    requires Unbroken(line)
    ensures SplitLines(line + ("\n" + rest)) == [line] + SplitLines(rest)
  {
    var s := line + ("\n" + rest);
    LineLengthOf(line, rest);
    assert s[..|line|] == line;
    assert s[|line| + 1..] == rest;
  }

  lemma {:induction false} SplitIsUnbroken(s: string)
    ensures AllUnbroken(SplitLines(s))
    decreases |s|
  {
    if s != "" && LineLength(s) < |s| {
      SplitIsUnbroken(s[LineLength(s) + 1..]);
    }
  }

  lemma TrimIsUnbroken(lines: seq<string>)
    requires AllUnbroken(lines)
    ensures AllUnbroken(Trim(lines))
  {
    var t := Trim(lines);
    forall i | 0 <= i < |t|
      ensures Unbroken(t[i])
    {
      assert i < |t| - 1 ==> t[i] == t[..|t| - 1][i];
      assert t[i] <= lines[i];
    }
  }

  /** A file written from lines reads back as those lines, less what the final strip takes off the end. */
  lemma WrittenReadsBack(lines: seq<string>)
    requires AllUnbroken(lines) && Trim(lines) != []
    ensures SplitLines(RStrip(Join(lines)) + "\n") == Trim(lines)
  {
    RStripJoin(lines);
    TrimIsUnbroken(lines);
    JoinIsUnlines(Trim(lines));
    SplitUnlines(Trim(lines));
  }

  // ---------- trimming ----------

  lemma TrimAt(lines: seq<string>, k: nat)
    requires k < |Trim(lines)|
    ensures Trim(lines)[k] == lines[k] || Trim(lines)[k] == RStrip(lines[k])
  {
    var t := Trim(lines);
    var n := |t| - 1;
    if k < n {
      assert t[k] == t[..n][k] && lines[..n][k] == lines[k];
    }
  }

  lemma TrimSnoc(lines: seq<string>, last: string)
    ensures Trim(lines + [last]) == if RStrip(last) == "" then Trim(lines) else lines + [RStrip(last)]
  {
    assert (lines + [last])[..|lines|] == lines;
  }

  lemma LastSplit<T>(s: seq<T>)
    requires s != []
    ensures s == s[..|s| - 1] + [s[|s| - 1]]
  {
  }

  lemma TrimSnocBehind(front: seq<string>, init: seq<string>, last: string)
    requires Trim(front + init) == front + Trim(init)
    ensures Trim(front + (init + [last])) == front + Trim(init + [last])
  {
    TrimSnoc(front + init, last);
    TrimSnoc(init, last);
    Associates(front, init, [last]);
    Associates(front, init, [RStrip(last)]);
  }

  lemma TrimsNothing(front: seq<string>)
    requires front != [] && RStrip(front[|front| - 1]) == front[|front| - 1] != ""
    ensures Trim(front) == front
  {
    LastSplit(front);
    TrimSnoc(front[..|front| - 1], front[|front| - 1]);
  }

  /** Trimming stops at a line that ends in something else than white space. */
  lemma {:induction false} TrimBehind(front: seq<string>, after: seq<string>)
    requires front != [] && RStrip(front[|front| - 1]) == front[|front| - 1] != ""
    ensures Trim(front + after) == front + Trim(after)
    decreases |after|
  {
    if after == [] {
      TrimsNothing(front);
      assert front + [] == front;
    } else {
      LastSplit(after);
      TrimBehind(front, after[..|after| - 1]);
      TrimSnocBehind(front, after[..|after| - 1], after[|after| - 1]);
    }
  }

  lemma {:induction false} TrimTwice(lines: seq<string>)
    ensures Trim(Trim(lines)) == Trim(lines)
    decreases |lines|
  {
    if lines != [] {
      var init, last := lines[..|lines| - 1], RStrip(lines[|lines| - 1]);
      if last == "" {
        TrimTwice(init);
      } else {
        TrimSnoc(init, last);
      }
    }
  }

  /** A line that is not blank stays, but for white space at its end. */
  lemma {:induction false} TrimKeepsText(lines: seq<string>, k: nat)
    requires k < |lines| && RStrip(lines[k]) != ""
    ensures k < |Trim(lines)| && RStrip(Trim(lines)[k]) == RStrip(lines[k])
    decreases |lines|
  {
    var last := RStrip(lines[|lines| - 1]);
    if last == "" {
      TrimKeepsText(lines[..|lines| - 1], k);
    } else {
      TrimAt(lines, k);
      RStripTwice(lines[k]);
    }
  }

  // ---------- the characters ----------

  /** The line boundaries of `str.splitlines`. */
  lemma BreaksAre(c: char)
    ensures IsBreak(c) <==> c as int in {10, 11, 12, 13, 28, 29, 30, 133, 0x2028, 0x2029}
  {
  }

  /** The white space of `str.strip`. */
  lemma SpacesAre(c: char)
    ensures IsSpace(c) <==>
      || c as int in {9, 10, 11, 12, 13, 28, 29, 30, 31, 32, 133, 160, 0x1680, 0x2028, 0x2029, 0x202F, 0x205F, 0x3000}
      || 0x2000 <= c as int <= 0x200A
  {
  }
}
