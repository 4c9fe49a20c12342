/**
 The vault's plain text: one line "host|key|value" for each entry, without any escaping. Entries read back as they were
 written exactly when their parts are clean; what becomes of other text is worked out for every write.
 */
module VaultFile {
  import opened Common
  import opened Lines
  import opened StableSort

  datatype Entry = Entry(host: string, key: string, value: string)

  // ---------- reading ----------

  /** Index of the first `c`, or the length. */
  function IndexOf(s: string, c: char): (n: nat)
    ensures n <= |s|
    ensures c !in s[..n]
    ensures n < |s| ==> s[n] == c
  {
    if s == "" || s[0] == c then 0 else 1 + IndexOf(s[1..], c)
  }

  /** text.split("\n") */
  function Pieces(s: string): seq<string>
    decreases |s|
  {
    var n := IndexOf(s, '\n');
    if n == |s| then [s] else [s[..n]] + Pieces(s[n + 1..])
  }

  /** The entry on a line: none on blank lines, on comments and on lines with fewer than two bars. */
  function ReadLine(line: string): seq<Entry>
  {
    var s := Strip(line);
    if s == "" || s[0] == '#' then [] else ReadParts(s)
  }

  function ReadParts(s: string): seq<Entry>
  {
    var i := IndexOf(s, '|');
    if i == |s| then [] else ReadRest(s[..i], s[i + 1..])
  }

  function ReadRest(host: string, rest: string): seq<Entry>
  {
    var j := IndexOf(rest, '|');
    if j == |rest| then [] else [Entry(host, rest[..j], rest[j + 1..])]
  }

  function ReadLines(lines: seq<string>): seq<Entry>
  {
    if lines == [] then [] else ReadLine(lines[0]) + ReadLines(lines[1..])
  }

  function ReadText(s: string): seq<Entry>
  {
    ReadLines(Pieces(s))
  }

  function Parse(text: string): seq<Entry>
  {
    ReadText(Strip(text))
  }

  method ParseLine(text: string) returns (entries: seq<Entry>)
    ensures entries == ReadLine(text)
  {
    var line := Strip(text);
    if line == "" || line[0] == '#' {
      return [];
    }
    var i := IndexOf(line, '|');
    if i < |line| {
      var rest := line[i + 1..];
      var j := IndexOf(rest, '|');
      if j < |rest| {
        return [Entry(line[..i], rest[..j], rest[j + 1..])];
      }
    }
    return [];
  }

  method ParseEntries(text: string) returns (entries: seq<Entry>)
    ensures entries == Parse(text)
  {
    var lines := Pieces(Strip(text));
    entries := [];
    var n := 0;
    while n < |lines|
      invariant 0 <= n <= |lines|
      invariant entries + ReadLines(lines[n..]) == ReadLines(lines)
    {
      ReadLinesFrom(lines, n, entries);
      var more := ParseLine(lines[n]);
      entries := entries + more;
      n := n + 1;
    }
  }

  lemma ReadLinesFrom(lines: seq<string>, n: nat, done: seq<Entry>)
    requires n < |lines|
    ensures done + ReadLines(lines[n..]) == done + ReadLine(lines[n]) + ReadLines(lines[n + 1..])
  {
    assert lines[n..][1..] == lines[n + 1..];
    Associates(done, ReadLine(lines[n]), ReadLines(lines[n + 1..]));
  }

  // ---------- order ----------

  /** Strings compare character by character. */
  predicate Less(s: string, t: string)
  {
    if t == "" then false
    else if s == "" then true
    else if s[0] != t[0] then s[0] < t[0]
    else Less(s[1..], t[1..])
  }

  /** Entries are sorted by host, then by key. */
  predicate PlaceLess(host: string, key: string, host': string, key': string)
  {
    if host != host' then Less(host, host') else Less(key, key')
  }

  predicate Comes(e: Entry, f: Entry)
  {
    PlaceLess(e.host, e.key, f.host, f.key)
  }

  function Sorted(es: seq<Entry>): seq<Entry>
  {
    Sort(es, Comes)
  }

  // ---------- writing ----------

  /** The comment on the first line. */
  const TITLE: string := " FREQ Vault " + "\U{2014}" + " encrypted credential store"

  function LineOf(e: Entry): string
  {
    e.host + ("|" + (e.key + ("|" + e.value)))
  }

  /** What the line of an entry reads as; it is several lines if one of the parts has a line end. */
  function ReadBack(e: Entry): seq<Entry>
  {
    ReadText(LineOf(e))
  }

  function LinesOf(es: seq<Entry>): seq<string>
  {
    if es == [] then [] else LinesOf(es[..|es| - 1]) + [LineOf(es[|es| - 1])]
  }

  function Serialize(es: seq<Entry>): string
  {
    Join(["#" + TITLE] + LinesOf(Sorted(es))) + "\n"
  }

  method SerializeEntries(entries: seq<Entry>) returns (text: string)
    ensures text == Serialize(entries)
  {
    var lines := ["#" + TITLE];
    var sorted := Sorted(entries);
    var i := 0;
    while i < |sorted|
      invariant 0 <= i <= |sorted|
      invariant lines == ["#" + TITLE] + LinesOf(sorted[..i])
    {
      assert sorted[..i + 1][..i] == sorted[..i];
      lines := lines + [LineOf(sorted[i])];
      i := i + 1;
    }
    assert sorted[..i] == sorted;
    text := Join(lines) + "\n";
  }

  // ---------- the vault's operations ----------

  /** The value of the first entry at a place. */
  function Lookup(es: seq<Entry>, host: string, key: string): Maybe<string>
  {
    if es == [] then None
    else if es[0].host == host && es[0].key == key then Some(es[0].value)
    else Lookup(es[1..], host, key)
  }

  /** All entries but those at a place. */
  function Without(es: seq<Entry>, host: string, key: string): seq<Entry>
  {
    if es == [] then []
    else
      var last := es[|es| - 1];
      Without(es[..|es| - 1], host, key) + if last.host == host && last.key == key then [] else [last]
  }

  /** What the vault reads as after a write, which goes through the text. */
  function SetIn(es: seq<Entry>, host: string, key: string, value: string): seq<Entry>
  {
    Parse(Serialize(Without(es, host, key) + [Entry(host, key, value)]))
  }

  function DeleteIn(es: seq<Entry>, host: string, key: string): seq<Entry>
  {
    if Lookup(es, host, key).None? then es else Parse(Serialize(Without(es, host, key)))
  }

  const DEFAULT: string := "DEFAULT"

  /** A value that is missing at its place is taken from the default place. */
  function GetIn(es: seq<Entry>, host: string, key: string): string
  {
    match Lookup(es, host, key)
    case Some(value) => value
    case None => if Lookup(es, DEFAULT, key).Some? then Lookup(es, DEFAULT, key).value else ""
  }

  method Find(entries: seq<Entry>, host: string, key: string) returns (found: Maybe<string>)
    ensures found == Lookup(entries, host, key)
  {
    var i := 0;
    while i < |entries|
      invariant 0 <= i <= |entries|
      invariant Lookup(entries[i..], host, key) == Lookup(entries, host, key)
    {
      if entries[i].host == host && entries[i].key == key {
        return Some(entries[i].value);
      }
      assert entries[i..][1..] == entries[i + 1..];
      i := i + 1;
    }
    return None;
  }

  method Keep(entries: seq<Entry>, host: string, key: string) returns (kept: seq<Entry>)
    ensures kept == Without(entries, host, key)
  {
    kept := [];
    var i := 0;
    while i < |entries|
      invariant 0 <= i <= |entries|
      invariant kept == Without(entries[..i], host, key)
    {
      assert entries[..i + 1][..i] == entries[..i];
      if !(entries[i].host == host && entries[i].key == key) {
        kept := kept + [entries[i]];
      }
      i := i + 1;
    }
    assert entries[..i] == entries;
  }

  /** What the vault seems to hold: a text that cannot be decrypted is taken for an empty one. */
  function Seen(text: string, readable: bool): seq<Entry>
  {
    if readable then Parse(text) else []
  }

  method Load(text: string, readable: bool) returns (entries: seq<Entry>)
    ensures entries == Seen(text, readable)
  {
    entries := ParseEntries(if readable then text else "");
    EmptyReadsNothing();
  }

  lemma EmptyReadsNothing()
    ensures Parse("") == []
  {
    ReadTextOfLine("");
  }

  method VaultGet(text: string, host: string, key: string, readable: bool) returns (value: string)
    ensures value == GetIn(Seen(text, readable), host, key)
  {
    var entries := Load(text, readable);
    var found := Find(entries, host, key);
    if found.Some? {
      return found.value;
    }
    found := Find(entries, DEFAULT, key);
    return if found.Some? then found.value else "";
  }

  /** `readable` says whether the text could be decrypted, `done` whether the new one could be encrypted and written. */
  method VaultSet(text: string, host: string, key: string, value: string, readable: bool, done: bool)
    returns (after: string)
    ensures Parse(after) == if done then SetIn(Seen(text, readable), host, key, value) else Parse(text)
  {
    var entries := Load(text, readable);
    entries := Keep(entries, host, key);
    var written := SerializeEntries(entries + [Entry(host, key, value)]);
    return if done then written else text;
  }

  method VaultDelete(text: string, host: string, key: string, readable: bool, done: bool)
    returns (after: string, ok: bool)
    ensures ok <==> done && Lookup(Seen(text, readable), host, key).Some?
    ensures Parse(after) == if done && readable then DeleteIn(Parse(text), host, key) else Parse(text)
  {
    var entries := Load(text, readable);
    var kept := Keep(entries, host, key);
    WithoutSize(entries, host, key);
    if |kept| == |entries| {
      return text, false;
    }
    var written := SerializeEntries(kept);
    return if done then written else text, done;
  }

  lemma {:induction false} WithoutSize(es: seq<Entry>, host: string, key: string)
    ensures |Without(es, host, key)| <= |es|
    ensures |Without(es, host, key)| == |es| <==> Lookup(es, host, key).None?
    decreases |es|
  {
    if es != [] {
      var before, last := es[..|es| - 1], es[|es| - 1];
      WithoutSize(before, host, key);
      assert es == before + [last];
      LookupConcat(before, [last], host, key);
    }
  }

  // ---------- clean entries ----------

  predicate PlainText(s: string)
  {
    '\n' !in s && '|' !in s
  }

  /** A host that a line can begin with: no line end, no bar, and not the look of a comment or of an indented line. */
  predicate CleanHost(host: string)
  {
    PlainText(host) && (host != "" ==> !IsSpace(host[0]) && host[0] != '#')
  }

  predicate CleanName(host: string, key: string)
  {
    CleanHost(host) && PlainText(key)
  }

  predicate CleanValue(value: string)
  {
    '\n' !in value && RStrip(value) == value
  }

  predicate Clean(e: Entry)
  {
    CleanName(e.host, e.key) && CleanValue(e.value)
  }

  predicate AllClean(es: seq<Entry>)
  {
    forall i :: 0 <= i < |es| ==> Clean(es[i])
  }

  /** What is left of a value at its own place: its first line without white space at the end. */
  function Kept(value: string): string
  {
    RStrip(value[..IndexOf(value, '\n')])
  }

  /** What stands behind the first line end. */
  function Further(value: string): Maybe<string>
  {
    var n := IndexOf(value, '\n');
    if n == |value| then None else Some(value[n + 1..])
  }

  /** The entries that the further lines of a value read as. */
  function Spill(value: string): seq<Entry>
  {
    match Further(value)
    case None => []
    case Some(more) => ReadText(more)
  }

  lemma {:induction false} LStripShape(s: string)
    ensures LStrip(s) == s[|s| - |LStrip(s)|..]
    ensures LStrip(s) != "" ==> !IsSpace(LStrip(s)[0])
    decreases |s|
  {
    if s != "" && IsSpace(s[0]) {
      LStripShape(s[1..]);
    }
  }

  lemma StripShape(s: string)
    ensures var t := Strip(s);
      && (t != "" ==> !IsSpace(t[0]) && !IsSpace(t[|t| - 1]))
      && forall c :: c in t ==> c in s
  {
    var r := RStrip(s);
    LStripShape(r);
    assert forall i :: 0 <= i < |r| ==> r[i] == s[i];
  }

  lemma RStripKeeps(s: string)
    requires s != "" ==> !IsSpace(s[|s| - 1])
    ensures RStrip(s) == s
  {
  }

  lemma RestShape(host: string, rest: string)
    requires ReadRest(host, rest) != []
    ensures var e := ReadRest(host, rest)[0];
      ReadRest(host, rest) == [e] && e.host == host && '|' !in e.key && rest == e.key + ("|" + e.value)
  {
    CutAtChar(rest, IndexOf(rest, '|'), '|');
  }

  lemma PartsShape(s: string)
    requires ReadParts(s) != []
    ensures var e := ReadParts(s)[0];
      ReadParts(s) == [e] && s == LineOf(e) && '|' !in e.host && '|' !in e.key
  {
    var i := IndexOf(s, '|');
    CutAtChar(s, i, '|');
    RestShape(s[..i], s[i + 1..]);
  }

  lemma CutAtChar(s: string, n: nat, c: char)
    requires n < |s| && s[n] == c
    ensures s == s[..n] + ([c] + s[n + 1..])
  {
  }

  /** A stripped line that names an entry is clean. */
  lemma CleanByLine(e: Entry)
    requires '|' !in e.host && '|' !in e.key && '\n' !in LineOf(e)
    requires !IsSpace(LineOf(e)[0]) && LineOf(e)[0] != '#' && !IsSpace(LineOf(e)[|LineOf(e)| - 1])
    ensures Clean(e)
  {
    var line := LineOf(e);
    assert e.host != "" ==> line[0] == e.host[0];
    assert e.value != "" ==> line[|line| - 1] == e.value[|e.value| - 1];
    assert forall c :: c in e.host || c in e.key || c in e.value ==> c in line;
    RStripKeeps(e.value);
  }

  lemma PartsAreClean(s: string)
    requires '\n' !in s && s != "" && !IsSpace(s[0]) && s[0] != '#' && !IsSpace(s[|s| - 1])
    ensures AllClean(ReadParts(s))
  {
    if ReadParts(s) != [] {
      PartsShape(s);
      CleanByLine(ReadParts(s)[0]);
    }
  }

  /** What is read from a line is clean. */
  lemma ReadLineIsClean(line: string)
    requires '\n' !in line
    ensures AllClean(ReadLine(line))
  {
    var s := Strip(line);
    StripShape(line);
    if s != "" && s[0] != '#' {
      PartsAreClean(s);
    }
  }

  lemma {:induction false} PiecesAreLines(s: string)
    ensures forall i :: 0 <= i < |Pieces(s)| ==> '\n' !in Pieces(s)[i]
    decreases |s|
  {
    var n := IndexOf(s, '\n');
    if n < |s| {
      PiecesAreLines(s[n + 1..]);
    }
  }

  lemma {:induction false} ReadLinesAreClean(lines: seq<string>)
    requires forall i :: 0 <= i < |lines| ==> '\n' !in lines[i]
    ensures AllClean(ReadLines(lines))
    decreases |lines|
  {
    if lines != [] {
      ReadLineIsClean(lines[0]);
      ReadLinesAreClean(lines[1..]);
    }
  }

  /** Whatever the text, what is read from it is clean. */
  lemma ParsedIsClean(text: string)
    ensures AllClean(Parse(text))
  {
    PiecesAreLines(Strip(text));
    ReadLinesAreClean(Pieces(Strip(text)));
  }

  // ---------- reading what was written ----------

  lemma {:induction false} ReadLinesConcat(a: seq<string>, b: seq<string>)
    ensures ReadLines(a + b) == ReadLines(a) + ReadLines(b)
    decreases |a|
  {
    if a == [] {
      assert a + b == b;
    } else {
      assert (a + b)[1..] == a[1..] + b;
      ReadLinesConcat(a[1..], b);
    }
  }

  lemma {:induction false} IndexOfConcat(a: string, c: char, b: string)
    requires c !in a
    ensures IndexOf(a + ([c] + b), c) == |a|
    decreases |a|
  {
    if a == "" {
      assert a + ([c] + b) == [c] + b;
    } else {
      assert (a + ([c] + b))[1..] == a[1..] + ([c] + b);
      IndexOfConcat(a[1..], c, b);
    }
  }

  lemma {:induction false} IndexOfNone(s: string, c: char)
    requires c !in s
    ensures IndexOf(s, c) == |s|
    decreases |s|
  {
    if s != "" {
      IndexOfNone(s[1..], c);
    }
  }

  lemma AroundChar(a: string, c: char, b: string)
    ensures (a + ([c] + b))[..|a|] == a
    ensures (a + ([c] + b))[|a| + 1..] == b
  {
    assert (a + ([c] + b))[|a|..] == [c] + b;
  }

  lemma InnerAssociates(a: string, c: char, b: string, rest: string)
    ensures a + ([c] + b) + rest == a + ([c] + (b + rest))
  {
  }

  lemma PiecesFirst(front: string, back: string)
    requires '\n' !in front
    ensures Pieces(front + ("\n" + back)) == [front] + Pieces(back)
  {
    IndexOfConcat(front, '\n', back);
    AroundChar(front, '\n', back);
  }

  lemma PiecesStep(front: string, back: string, b: string)
    requires '\n' !in front && Pieces(back + ("\n" + b)) == Pieces(back) + Pieces(b)
    ensures Pieces(front + ("\n" + back) + ("\n" + b)) == Pieces(front + ("\n" + back)) + Pieces(b)
  {
    InnerAssociates(front, '\n', back, "\n" + b);
    PiecesFirst(front, back);
    PiecesFirst(front, back + ("\n" + b));
    Associates([front], Pieces(back), Pieces(b));
  }

  lemma PiecesOfLine(line: string)
    requires '\n' !in line
    ensures Pieces(line) == [line]
  {
    IndexOfNone(line, '\n');
  }

  lemma {:induction false} PiecesConcat(a: string, b: string)
    ensures Pieces(a + ("\n" + b)) == Pieces(a) + Pieces(b)
    decreases |a|
  {
    var n := IndexOf(a, '\n');
    if n == |a| {
      AllTaken(a);
      PiecesOfLine(a);
      PiecesFirst(a, b);
    } else {
      CutAtChar(a, n, '\n');
      PiecesConcat(a[n + 1..], b);
      PiecesStep(a[..n], a[n + 1..], b);
    }
  }

  lemma ReadTextConcat(a: string, b: string)
    ensures ReadText(a + ("\n" + b)) == ReadText(a) + ReadText(b)
  {
    PiecesConcat(a, b);
    ReadLinesConcat(Pieces(a), Pieces(b));
  }

  lemma ReadTextOfLine(line: string)
    requires '\n' !in line
    ensures ReadText(line) == ReadLine(line)
  {
    IndexOfNone(line, '\n');
    assert Pieces(line) == [line] && [line][1..] == [];
    assert ReadLine(line) + ReadLines([]) == ReadLine(line);
  }

  lemma SpaceOnLine(line: string, c: char)
    requires IsSpace(c)
    ensures ReadLine(line + [c]) == ReadLine(line)
  {
    var more := line + [c];
    assert more[..|more| - 1] == line;
    assert RStrip(more) == RStrip(line);
  }

  /** White space behind a text adds nothing to what is read. */
  lemma {:induction false} SpaceReadsNothing(s: string, c: char)
    requires IsSpace(c)
    ensures ReadText(s + [c]) == ReadText(s)
    decreases |s|
  {
    var n := IndexOf(s, '\n');
    if n < |s| {
      var front, back := s[..n], s[n + 1..];
      assert s == front + ("\n" + back);
      assert s + [c] == front + ("\n" + (back + [c]));
      ReadTextConcat(front, back);
      ReadTextConcat(front, back + [c]);
      SpaceReadsNothing(back, c);
    } else if c == '\n' {
      LineEndReadsNothing(s);
    } else {
      ReadTextOfLine(s);
      ReadTextOfLine(s + [c]);
      SpaceOnLine(s, c);
    }
  }

  lemma LineEndReadsNothing(s: string)
    ensures ReadText(s + "\n") == ReadText(s)
  {
    ReadTextConcat(s, "");
    assert s + "\n" == s + ("\n" + "");
    ReadTextOfLine("");
    assert ReadLine("") == [];
    assert ReadText(s) + [] == ReadText(s);
  }

  lemma {:induction false} RStripReads(s: string)
    ensures ReadText(RStrip(s)) == ReadText(s)
    decreases |s|
  {
    if s != "" && IsSpace(s[|s| - 1]) {
      var before := s[..|s| - 1];
      RStripReads(before);
      SpaceReadsNothing(before, s[|s| - 1]);
      assert RStrip(s) == RStrip(before);
      assert s == before + [s[|s| - 1]];
    }
  }

  /** Everything that the lines of some entries read as. */
  function ReadAll(es: seq<Entry>): seq<Entry>
  {
    if es == [] then [] else ReadAll(es[..|es| - 1]) + ReadBack(es[|es| - 1])
  }

  lemma {:induction false} ReadAllConcat(a: seq<Entry>, b: seq<Entry>)
    ensures ReadAll(a + b) == ReadAll(a) + ReadAll(b)
    decreases |b|
  {
    if b == [] {
      assert a + b == a;
    } else {
      assert (a + b)[..|a + b| - 1] == a + b[..|b| - 1];
      ReadAllConcat(a, b[..|b| - 1]);
      Associates(ReadAll(a), ReadAll(b[..|b| - 1]), ReadBack(b[|b| - 1]));
    }
  }

  lemma {:induction false} ReadUnlines(first: string, es: seq<Entry>)
    ensures ReadText(Unlines([first] + LinesOf(es))) == ReadText(first) + ReadAll(es)
    decreases |es|
  {
    if es == [] {
      UnlinesRead([], first);
      UnlinesOfNone();
      assert [first] + LinesOf(es) == [] + [first];
    } else {
      var before, line := es[..|es| - 1], LineOf(es[|es| - 1]);
      ReadUnlines(first, before);
      UnlinesRead([first] + LinesOf(before), line);
      Associates([first], LinesOf(before), [line]);
      Associates(ReadText(first), ReadAll(before), ReadText(line));
    }
  }

  lemma UnlinesOfNone()
    ensures ReadText(Unlines([])) == []
  {
    ReadTextOfLine("");
  }

  lemma {:induction false} UnlinesRead(lines: seq<string>, last: string)
    ensures ReadText(Unlines(lines + [last])) == ReadText(Unlines(lines)) + ReadText(last)
    decreases |lines|
  {
    if lines == [] {
      assert lines + [last] == [last] && Unlines([last][1..]) == "";
      assert last + ("\n" + "") == last + "\n";
      LineEndReadsNothing(last);
      UnlinesOfNone();
    } else {
      var rest := lines[1..];
      assert (lines + [last])[1..] == rest + [last];
      UnlinesRead(rest, last);
      ReadTextConcat(lines[0], Unlines(rest + [last]));
      ReadTextConcat(lines[0], Unlines(rest));
      Associates(ReadText(lines[0]), ReadText(Unlines(rest)), ReadText(last));
    }
  }

  lemma TitleIsOneLine()
    ensures '\n' !in TITLE
  {
    var parts := [" FREQ Vault ", "\U{2014}", " encrypted credential store"];
    assert '\n' !in parts[0] && '\n' !in parts[1] && '\n' !in parts[2];
    assert TITLE == parts[0] + parts[1] + parts[2];
  }

  /** Text that begins with "#" is not stripped in front. */
  lemma CommentStrips(text: string)
    ensures Strip("#" + text) == RStrip("#" + text) != ""
    ensures Strip("#" + text)[0] == '#'
  {
    RStripConcat("#", text);
    RStripKeeps("#");
  }

  lemma CommentReadsNothing(title: string)
    requires '\n' !in title
    ensures ReadText("#" + title) == []
  {
    CommentStrips(title);
    ReadTextOfLine("#" + title);
  }

  lemma CommentedReads(title: string, es: seq<Entry>)
    requires '\n' !in title
    ensures Parse(Join(["#" + title] + LinesOf(es)) + "\n") == ReadAll(es)
  {
    var first := "#" + title;
    var lines := [first] + LinesOf(es);
    var text := Unlines(lines);
    JoinIsUnlines(lines);
    assert text == "#" + (title + ("\n" + Unlines(lines[1..])));
    CommentStrips(title + ("\n" + Unlines(lines[1..])));
    RStripReads(text);
    ReadUnlines(first, es);
    CommentReadsNothing(title);
    assert [] + ReadAll(es) == ReadAll(es);
  }

  /** The text of some entries reads as what their lines read as, in sorted order. */
  lemma SerializedReads(es: seq<Entry>)
    ensures Parse(Serialize(es)) == ReadAll(Sorted(es))
  {
    TitleIsOneLine();
    CommentedReads(TITLE, Sorted(es));
  }

  /**
   An entry with a clean place reads as itself, cut down to its first line, and as whatever the further lines read as.
   */
  lemma EntryReads(host: string, key: string, value: string)
    requires CleanName(host, key)
    ensures ReadBack(Entry(host, key, value)) == [Entry(host, key, Kept(value))] + Spill(value)
  {
    var n := IndexOf(value, '\n');
    if n < |value| {
      FirstLineOf(value[..n], value[n + 1..]);
      CutAtChar(value, n, '\n');
      MoreLinesRead(host, key, value[..n], value[n + 1..]);
      OneLineReads(host, key, value[..n]);
    } else {
      OnlyLineOf(value);
      OneLineReads(host, key, value);
    }
  }

  lemma FirstLineOf(v: string, more: string)
    requires '\n' !in v
    ensures Kept(v + ("\n" + more)) == RStrip(v) && Spill(v + ("\n" + more)) == ReadText(more)
  {
    IndexOfConcat(v, '\n', more);
    AroundChar(v, '\n', more);
  }

  lemma OnlyLineOf(value: string)
    requires '\n' !in value
    ensures Kept(value) == RStrip(value) && Spill(value) == []
  {
    IndexOfNone(value, '\n');
    AllTaken(value);
  }

  lemma AllTaken<T>(s: seq<T>)
    ensures s[..|s|] == s
  {
  }

  lemma OneLineReads(host: string, key: string, v: string)
    requires CleanName(host, key) && '\n' !in v
    ensures ReadText(LineOf(Entry(host, key, v))) == [Entry(host, key, RStrip(v))]
  {
    LineReads(host, key, v);
    LineIsOneLine(host, key, v);
    ReadTextOfLine(LineOf(Entry(host, key, v)));
  }

  lemma MoreLinesRead(host: string, key: string, v: string, more: string)
    ensures ReadText(LineOf(Entry(host, key, v + ("\n" + more))))
         == ReadText(LineOf(Entry(host, key, v))) + ReadText(more)
  {
    LineEndInValue(host, key, v, more);
    ReadTextConcat(LineOf(Entry(host, key, v)), more);
  }

  lemma LineEndInValue(host: string, key: string, v: string, more: string)
    ensures LineOf(Entry(host, key, v + ("\n" + more))) == LineOf(Entry(host, key, v)) + ("\n" + more)
  {
  }

  lemma PartsRead(host: string, key: string, value: string)
    requires PlainText(host) && PlainText(key)
    ensures ReadParts(host + ("|" + (key + ("|" + value)))) == [Entry(host, key, value)]
  {
    RestRead(host, key, value);
    IndexOfConcat(host, '|', key + ("|" + value));
    AroundChar(host, '|', key + ("|" + value));
  }

  lemma RestRead(host: string, key: string, value: string)
    requires PlainText(key)
    ensures ReadRest(host, key + ("|" + value)) == [Entry(host, key, value)]
  {
    IndexOfConcat(key, '|', value);
    AroundChar(key, '|', value);
  }

  /** Stripping a line takes nothing off a clean place in front. */
  lemma LineStrips(front: string, value: string)
    requires front != "" && !IsSpace(front[0]) && !IsSpace(front[|front| - 1])
    ensures Strip(front + value) == front + RStrip(value)
  {
    RStripConcat(front, value);
    RStripKeeps(front);
    assert front + "" == front;
    assert (front + RStrip(value))[0] == front[0];
  }

  lemma LineReads(host: string, key: string, value: string)
    requires CleanName(host, key) && '\n' !in value
    ensures ReadLine(LineOf(Entry(host, key, value))) == [Entry(host, key, RStrip(value))]
  {
    var front, v := host + ("|" + (key + "|")), RStrip(value);
    LineFront(host, key, value);
    LineFront(host, key, v);
    FrontIsClean(host, key);
    LineStrips(front, value);
    assert (front + v)[0] == front[0];
    StrippedReads(front + value, front + v);
    PartsRead(host, key, v);
  }

  lemma StrippedReads(line: string, s: string)
    requires Strip(line) == s && s != "" && s[0] != '#'
    ensures ReadLine(line) == ReadParts(s)
  {
  }

  lemma HostAndBar(host: string)
    requires CleanHost(host)
    ensures var front := host + "|"; !IsSpace(front[0]) && front[0] != '#' && !IsSpace(front[|front| - 1])
  {
    assert (host + "|")[0] == if host == "" then '|' else host[0];
  }

  lemma OneBarStrips(host: string, text: string)
    requires CleanHost(host)
    ensures Strip(host + ("|" + text)) == host + ("|" + RStrip(text))
    ensures (host + ("|" + RStrip(text)))[0] != '#'
  {
    HostAndBar(host);
    Associates(host, "|", text);
    Associates(host, "|", RStrip(text));
    LineStrips(host + "|", text);
    assert (host + "|" + RStrip(text))[0] == (host + "|")[0];
  }

  lemma OneBarHasNoParts(host: string, text: string)
    requires PlainText(host) && PlainText(text)
    ensures ReadParts(host + ("|" + text)) == []
  {
    IndexOfConcat(host, '|', text);
    AroundChar(host, '|', text);
    IndexOfNone(text, '|');
  }

  /** A line with just one bar, behind a clean host, reads as nothing. */
  lemma OneBarReadsNothing(host: string, text: string)
    requires CleanHost(host) && PlainText(text)
    ensures ReadText(host + ("|" + text)) == []
  {
    OneBarStrips(host, text);
    OneBarHasNoParts(host, RStrip(text));
    StrippedReads(host + ("|" + text), host + ("|" + RStrip(text)));
    ReadTextOfLine(host + ("|" + text));
  }

  lemma LineIsOneLine(host: string, key: string, value: string)
    requires CleanName(host, key) && '\n' !in value
    ensures '\n' !in LineOf(Entry(host, key, value))
  {
  }

  lemma LineFront(host: string, key: string, value: string)
    ensures host + ("|" + (key + ("|" + value))) == host + ("|" + (key + "|")) + value
  {
    assert ("|" + (key + "|")) + value == "|" + (key + ("|" + value));
  }

  lemma FrontIsClean(host: string, key: string)
    requires CleanName(host, key)
    ensures var front := host + ("|" + (key + "|"));
      front != "" && !IsSpace(front[0]) && front[0] != '#' && !IsSpace(front[|front| - 1]) && '\n' !in front
  {
    var front := host + ("|" + (key + "|"));
    assert front[0] == if host == "" then '|' else host[0];
    assert front[|front| - 1] == '|';
  }

  lemma CleanEntryReads(e: Entry)
    requires Clean(e)
    ensures ReadBack(e) == [e]
  {
    OnlyLineOf(e.value);
    EntryReads(e.host, e.key, e.value);
    assert [e] + [] == [e];
  }

  lemma {:induction false} CleanReadsBack(es: seq<Entry>)
    requires AllClean(es)
    ensures ReadAll(es) == es
    decreases |es|
  {
    if es != [] {
      LastSplit(es);
      CleanReadsBack(es[..|es| - 1]);
      CleanEntryReads(es[|es| - 1]);
    }
  }

  lemma CleanByMembers(es: seq<Entry>)
    ensures AllClean(es) <==> forall e :: e in es ==> Clean(e)
  {
  }

  /** Entries read back as they were written, in sorted order, exactly when all of them are clean. */
  lemma ReadsBack(es: seq<Entry>)
    ensures Parse(Serialize(es)) == Sorted(es) <==> AllClean(es)
  {
    SortedIsClean(es);
    if AllClean(es) {
      SerializedReads(es);
      CleanReadsBack(Sorted(es));
    }
    ParsedIsClean(Serialize(es));
  }

  lemma SortedIsClean(es: seq<Entry>)
    ensures AllClean(Sorted(es)) <==> AllClean(es)
  {
    SortPermutes(es, Comes);
    CleanByMembers(es);
    CleanByMembers(Sorted(es));
    assert forall e :: e in es <==> e in multiset(es);
    assert forall e :: e in Sorted(es) <==> e in multiset(Sorted(es));
  }

  // ---------- looking up ----------

  lemma {:induction false} LookupConcat(a: seq<Entry>, b: seq<Entry>, host: string, key: string)
    ensures Lookup(a + b, host, key)
         == if Lookup(a, host, key).Some? then Lookup(a, host, key) else Lookup(b, host, key)
    decreases |a|
  {
    if a == [] {
      assert a + b == b;
    } else {
      assert (a + b)[1..] == a[1..] + b;
      LookupConcat(a[1..], b, host, key);
    }
  }

  lemma {:induction false} LookupIsEntry(es: seq<Entry>, host: string, key: string)
    ensures Lookup(es, host, key).Some? ==> Entry(host, key, Lookup(es, host, key).value) in es
    ensures Lookup(es, host, key).None? <==> forall e :: e in es ==> !(e.host == host && e.key == key)
    decreases |es|
  {
    if es != [] {
      LookupIsEntry(es[1..], host, key);
    }
  }

  lemma {:induction false} WithoutMembers(es: seq<Entry>, host: string, key: string)
    ensures forall e :: e in Without(es, host, key) <==> e in es && !(e.host == host && e.key == key)
    decreases |es|
  {
    if es != [] {
      WithoutMembers(es[..|es| - 1], host, key);
      assert es == es[..|es| - 1] + [es[|es| - 1]];
    }
  }

  lemma {:induction false} LookupWithout(es: seq<Entry>, host: string, key: string, host': string, key': string)
    ensures Lookup(Without(es, host, key), host', key')
         == if host == host' && key == key' then None else Lookup(es, host', key')
    decreases |es|
  {
    if es != [] {
      var before, last := es[..|es| - 1], es[|es| - 1];
      LookupWithout(before, host, key, host', key');
      LookupConcat(before, [last], host', key');
      LookupConcat(Without(before, host, key), [last], host', key');
      assert es == before + [last] && [last][1..] == [];
      assert Without(before, host, key) + [] == Without(before, host, key);
    }
  }

  lemma {:induction false} LessIsStrict(s: string, t: string)
    ensures !(Less(s, t) && Less(t, s)) && !Less(s, s)
    ensures s == t || Less(s, t) || Less(t, s)
    decreases |s|
  {
    if s != "" {
      LessIsStrict(s[1..], if t == "" then "" else t[1..]);
      assert t != "" && s[0] == t[0] && s[1..] == t[1..] ==> s == [s[0]] + s[1..] == t;
    }
  }

  lemma {:induction false} LessIsTransitive(s: string, t: string, u: string)
    requires Less(s, t) && Less(t, u)
    ensures Less(s, u)
    decreases |s|
  {
    if s != "" && s[0] == t[0] == u[0] {
      LessIsTransitive(s[1..], t[1..], u[1..]);
    }
  }

  lemma PlacesAreOrdered(host: string, key: string, host': string, key': string)
    ensures !(PlaceLess(host, key, host', key') && PlaceLess(host', key', host, key))
    ensures PlaceLess(host, key, host', key') ==> host != host' || key != key'
    ensures (host == host' && key == key') || PlaceLess(host, key, host', key') || PlaceLess(host', key', host, key)
  {
    LessIsStrict(host, host');
    LessIsStrict(key, key');
  }

  lemma ComesIsTransitive(e: Entry, f: Entry, g: Entry)
    requires Comes(e, f) && Comes(f, g)
    ensures Comes(e, g)
  {
    LessIsStrict(e.host, f.host);
    if e.host == f.host == g.host {
      LessIsTransitive(e.key, f.key, g.key);
    } else if e.host != f.host && f.host != g.host {
      LessIsTransitive(e.host, f.host, g.host);
    }
  }

  lemma ComesThrough(e: Entry, f: Entry, g: Entry)
    requires Comes(e, f) && !Comes(g, f)
    ensures Comes(e, g)
  {
    PlacesAreOrdered(f.host, f.key, g.host, g.key);
    if Comes(f, g) {
      ComesIsTransitive(e, f, g);
    }
  }

  lemma ComesIsOrder()
    ensures WeakOrder(Comes)
  {
    forall e: Entry, f: Entry | Comes(e, f)
      ensures !Comes(f, e)
    {
      PlacesAreOrdered(e.host, e.key, f.host, f.key);
    }
    forall e: Entry, f: Entry, g: Entry | Comes(e, f) && !Comes(g, f)
      ensures Comes(e, g)
    {
      ComesThrough(e, f, g);
    }
  }

  /** Behind the slot of an entry there is none at its place, nor at an earlier one. */
  lemma NoneBehind(s: seq<Entry>, e: Entry, host: string, key: string)
    requires !PlaceLess(e.host, e.key, host, key)
    ensures Lookup(s[Slot(s, e, Comes)..], host, key).None?
  {
    var p := Slot(s, e, Comes);
    LookupIsEntry(s[p..], host, key);
    assert forall i :: p <= i < |s| ==> Comes(e, s[i]);
  }

  /** In front of the slot of an entry there is none at a later place. */
  lemma NoneInFront(s: seq<Entry>, e: Entry, host: string, key: string)
    requires InOrder(s, Comes) && PlaceLess(e.host, e.key, host, key)
    ensures Lookup(s[..Slot(s, e, Comes)], host, key).None?
  {
    var p := Slot(s, e, Comes);
    LookupIsEntry(s[..p], host, key);
    ComesIsOrder();
    forall i | 0 <= i < p
      ensures !Comes(e, s[i])
    {
      SlotDivides(s, e, Comes, i);
    }
  }

  /** Sorting keeps the first entry of each place first. */
  lemma {:induction false} LookupSorted(es: seq<Entry>, host: string, key: string)
    ensures Lookup(Sorted(es), host, key) == Lookup(es, host, key)
    decreases |es|
  {
    if es != [] {
      var before, last := es[..|es| - 1], es[|es| - 1];
      LookupSorted(before, host, key);
      LookupInsert(Sorted(before), last, host, key);
      LookupConcat(before, [last], host, key);
      LastSplit(es);
    }
  }

  lemma LookupInsert(s: seq<Entry>, e: Entry, host: string, key: string)
    ensures Lookup(Insert(s, e, Comes), host, key)
         == if Lookup(s, host, key).Some? then Lookup(s, host, key) else Lookup([e], host, key)
  {
    var p := Slot(s, e, Comes);
    assert s == s[..p] + s[p..];
    if host == e.host && key == e.key {
      NoneBehind(s, e, host, key) by {
        PlacesAreOrdered(host, key, host, key);
      }
    } else {
      assert Lookup([e], host, key).None?;
    }
    LookupAround(s[..p], [e], s[p..], host, key);
  }

  /** Looking up with something put in between. */
  lemma LookupAround(a: seq<Entry>, mid: seq<Entry>, b: seq<Entry>, host: string, key: string)
    requires Lookup(mid, host, key).None? || Lookup(b, host, key).None?
    ensures Lookup(a + mid + b, host, key)
         == if Lookup(a + b, host, key).Some? then Lookup(a + b, host, key) else Lookup(mid, host, key)
  {
    LookupConcat(a + mid, b, host, key);
    LookupConcat(a, mid, host, key);
    LookupConcat(a, b, host, key);
  }

  // ---------- theorems ----------

  lemma SortedSnoc(es: seq<Entry>, e: Entry)
    ensures Sorted(es + [e]) == Insert(Sorted(es), e, Comes)
  {
    assert (es + [e])[..|es|] == es;
  }

  lemma WithoutIsClean(es: seq<Entry>, host: string, key: string)
    requires AllClean(es)
    ensures AllClean(Sorted(Without(es, host, key)))
  {
    WithoutMembers(es, host, key);
    CleanByMembers(es);
    CleanByMembers(Without(es, host, key));
    SortedIsClean(Without(es, host, key));
  }

  lemma InsertReads(s: seq<Entry>, e: Entry)
    requires AllClean(s)
    ensures ReadAll(Insert(s, e, Comes)) == s[..Slot(s, e, Comes)] + ReadBack(e) + s[Slot(s, e, Comes)..]
  {
    var p := Slot(s, e, Comes);
    ReadAllConcat(s[..p] + [e], s[p..]);
    ReadAllConcat(s[..p], [e]);
    CleanReadsBack(s[..p]);
    CleanReadsBack(s[p..]);
    ReadAllOfOne(e);
  }

  lemma ReadAllOfOne(e: Entry)
    ensures ReadAll([e]) == ReadBack(e)
  {
    assert [e][..0] == [];
    assert [] + ReadBack(e) == ReadBack(e);
  }

  /** What the vault reads as after any write, whatever its parts. */
  lemma SetReads(es: seq<Entry>, host: string, key: string, value: string)
    requires AllClean(es)
    ensures var s, e := Sorted(Without(es, host, key)), Entry(host, key, value);
      SetIn(es, host, key, value) == s[..Slot(s, e, Comes)] + ReadBack(e) + s[Slot(s, e, Comes)..]
  {
    var before, e := Without(es, host, key), Entry(host, key, value);
    SerializedReads(before + [e]);
    SortedSnoc(before, e);
    WithoutIsClean(es, host, key);
    InsertReads(Sorted(before), e);
  }

  /** Looking up among entries in the middle of which others have been put. */
  lemma LookupBetween(a: seq<Entry>, mid: seq<Entry>, b: seq<Entry>, host: string, key: string)
    ensures Lookup(a + mid + b, host, key) ==
      if Lookup(a, host, key).None? && Lookup(mid, host, key).Some? then Lookup(mid, host, key)
      else Lookup(a + b, host, key)
  {
    LookupConcat(a, b, host, key);
    LookupConcat(a + mid, b, host, key);
    LookupConcat(a, mid, host, key);
  }

  /**
   The entries other than those at a place, in order and cut where a new one goes: what a lookup finds in the two
   parts.
   */
  lemma LookupInParts(es: seq<Entry>, e: Entry, host: string, key: string)
    ensures var s, p := Sorted(Without(es, e.host, e.key)), Slot(Sorted(Without(es, e.host, e.key)), e, Comes);
      && Lookup(s[..p] + s[p..], host, key) == (if host == e.host && key == e.key then None else Lookup(es, host, key))
      && (PlaceLess(e.host, e.key, host, key) ==> Lookup(s[..p], host, key).None?)
      && (!PlaceLess(e.host, e.key, host, key) ==> Lookup(s[p..], host, key).None?)
  {
    var kept := Without(es, e.host, e.key);
    var s, p := Sorted(kept), Slot(Sorted(kept), e, Comes);
    assert s == s[..p] + s[p..];
    LookupSorted(kept, host, key);
    LookupWithout(es, e.host, e.key, host, key);
    if PlaceLess(e.host, e.key, host, key) {
      ComesIsOrder();
      SortInOrder(kept, Comes);
      NoneInFront(s, e, host, key);
    } else {
      NoneBehind(s, e, host, key);
    }
  }

  /** What stands at a place but for what a write at `host` and `key` takes away. */
  function Other(es: seq<Entry>, host: string, key: string, host': string, key': string): Maybe<string>
  {
    if host' == host && key' == key then None else Lookup(es, host', key')
  }

  /**
   The exact effect of any write on every place, whatever host, key and value it is made with. What its lines read as
   at a place is found there if the vault has nothing else there or comes to it later; otherwise the place is as before.
   */
  lemma LookupAfterSet(es: seq<Entry>, host: string, key: string, value: string, host': string, key': string)
    requires AllClean(es)
    ensures var was := Other(es, host, key, host', key');
      var read := Lookup(ReadBack(Entry(host, key, value)), host', key');
      Lookup(SetIn(es, host, key, value), host', key') ==
        if read.Some? && (was.None? || PlaceLess(host, key, host', key')) then read else was
  {
    var s, e := Sorted(Without(es, host, key)), Entry(host, key, value);
    var a, b := s[..Slot(s, e, Comes)], s[Slot(s, e, Comes)..];
    SetReads(es, host, key, value);
    LookupInParts(es, e, host', key');
    LookupConcat(a, b, host', key');
    LookupBetween(a, ReadBack(e), b, host', key');
  }

  /**
   If the place of the write is clean, that place holds what is kept of the value, and elsewhere just the further lines
   of the value count.
   */
  lemma LookupAfterCleanSet(es: seq<Entry>, host: string, key: string, value: string, host': string, key': string)
    requires AllClean(es) && CleanName(host, key)
    ensures var was, spilt := Lookup(es, host', key'), Lookup(Spill(value), host', key');
      Lookup(SetIn(es, host, key, value), host', key') ==
        if host' == host && key' == key then Some(Kept(value))
        else if spilt.Some? && (was.None? || PlaceLess(host, key, host', key')) then spilt
        else was
  {
    var e := Entry(host, key, Kept(value));
    LookupAfterSet(es, host, key, value, host', key');
    EntryReads(host, key, value);
    LookupConcat([e], Spill(value), host', key');
    assert [e][1..] == [];
  }

  lemma MembersBetween(a: seq<Entry>, mid: seq<Entry>, b: seq<Entry>, x: Entry)
    ensures x in a + mid + b <==> x in a + b || x in mid
  {
  }

  /** After a write there are the old entries of other places and what the written lines read as. */
  lemma EntryAfterSet(es: seq<Entry>, host: string, key: string, value: string, x: Entry)
    requires AllClean(es)
    ensures x in SetIn(es, host, key, value) <==>
      (x in es && !(x.host == host && x.key == key)) || x in ReadBack(Entry(host, key, value))
  {
    var s, e := Sorted(Without(es, host, key)), Entry(host, key, value);
    var a, b := s[..Slot(s, e, Comes)], s[Slot(s, e, Comes)..];
    assert s == a + b;
    SetReads(es, host, key, value);
    WithoutMembers(es, host, key);
    SortedMembers(Without(es, host, key));
    MembersBetween(a, ReadBack(e), b, x);
  }

  lemma SetIsClean(es: seq<Entry>, host: string, key: string, value: string)
    ensures AllClean(SetIn(es, host, key, value))
  {
    ParsedIsClean(Serialize(Without(es, host, key) + [Entry(host, key, value)]));
  }

  lemma SortedMembers(es: seq<Entry>)
    ensures forall e :: e in Sorted(es) <==> e in es
  {
    SortPermutes(es, Comes);
    assert forall e :: e in es <==> e in multiset(es);
    assert forall e :: e in Sorted(es) <==> e in multiset(Sorted(es));
  }

  /** What is written is found again exactly when its place and value are clean. */
  lemma SetThenGet(es: seq<Entry>, host: string, key: string, value: string)
    requires AllClean(es)
    ensures Lookup(SetIn(es, host, key, value), host, key) == Some(value) <==> Clean(Entry(host, key, value))
  {
    var after := SetIn(es, host, key, value);
    SetIsClean(es, host, key, value);
    LookupIsEntry(after, host, key);
    CleanByMembers(after);
    if Clean(Entry(host, key, value)) {
      LookupAfterCleanSet(es, host, key, value, host, key);
      OnlyLineOf(value);
    }
  }

  lemma DeleteReads(es: seq<Entry>, host: string, key: string)
    requires AllClean(es)
    ensures AllClean(DeleteIn(es, host, key))
    ensures forall e :: e in DeleteIn(es, host, key) <==> e in es && !(e.host == host && e.key == key)
  {
    WithoutMembers(es, host, key);
    LookupIsEntry(es, host, key);
    WithoutIsClean(es, host, key);
    SerializedReads(Without(es, host, key));
    CleanReadsBack(Sorted(Without(es, host, key)));
    SortedMembers(Without(es, host, key));
  }

  /** A deletion empties its place and leaves all others. */
  lemma LookupAfterDelete(es: seq<Entry>, host: string, key: string, host': string, key': string)
    requires AllClean(es)
    ensures Lookup(DeleteIn(es, host, key), host', key')
         == if host' == host && key' == key then None else Lookup(es, host', key')
  {
    var kept := Without(es, host, key);
    LookupWithout(es, host, key, host', key');
    LookupSorted(kept, host', key');
    WithoutIsClean(es, host, key);
    SerializedReads(kept);
    CleanReadsBack(Sorted(kept));
  }

  /** A write whose reading of the vault failed leaves nothing but what its own lines read as. */
  lemma FailedReadForgets(host: string, key: string, value: string)
    ensures SetIn([], host, key, value) == ReadBack(Entry(host, key, value))
  {
    SetReads([], host, key, value);
    assert Without([], host, key) == [] && Sorted([]) == [];
    assert [] + ReadBack(Entry(host, key, value)) + [] == ReadBack(Entry(host, key, value));
  }

  // ---------- keys that are not plain ----------

  lemma KeyLineSplits(host: string, front: string, more: string, value: string)
    ensures LineOf(Entry(host, front + ("\n" + more), value))
         == host + ("|" + front) + ("\n" + (more + ("|" + value)))
  {
    InnerAssociates(front, '\n', more, "|" + value);
    InnerAssociates(host, '|', front, "\n" + (more + ("|" + value)));
  }

  lemma MiddleReads(line: string, rest: string, e: Entry)
    requires Clean(e) && ReadText(line) == []
    ensures Lookup(ReadText(line + ("\n" + (LineOf(e) + ("\n" + rest)))), e.host, e.key) == Some(e.value)
  {
    ReadTextConcat(line, LineOf(e) + ("\n" + rest));
    ReadTextConcat(LineOf(e), rest);
    CleanEntryReads(e);
    LookupConcat([], [e] + ReadText(rest), e.host, e.key);
  }

  /** A key with the line of an entry in its middle is read as that entry, too, whatever its value. */
  lemma LineInKeyReads(host: string, front: string, e: Entry, back: string, value: string)
    requires CleanHost(host) && PlainText(front) && Clean(e)
    ensures Lookup(ReadBack(Entry(host, front + ("\n" + (LineOf(e) + ("\n" + back))), value)), e.host, e.key)
         == Some(e.value)
  {
    KeyLineSplits(host, front, LineOf(e) + ("\n" + back), value);
    InnerAssociates(LineOf(e), '\n', back, "|" + value);
    OneBarReadsNothing(host, front);
    MiddleReads(host + ("|" + front), back + ("|" + value), e);
  }

  lemma {:induction false} PrefixIsNotBehind(s: string, more: string)
    ensures !Less(s + more, s)
    decreases |s|
  {
    if s != "" {
      assert (s + more)[1..] == s[1..] + more;
      PrefixIsNotBehind(s[1..], more);
    }
  }

  lemma KeyIsCutAtBar(host: string, key: string, n: nat, value: string)
    requires n < |key| && key[n] == '|'
    ensures LineOf(Entry(host, key, value)) == LineOf(Entry(host, key[..n], key[n + 1..] + ("|" + value)))
  {
    CutAtChar(key, n, '|');
    InnerAssociates(key[..n], '|', key[n + 1..], "|" + value);
  }

  lemma PlainUpToBar(key: string)
    requires '\n' !in key && '|' in key
    ensures var n := IndexOf(key, '|'); n < |key| && PlainText(key[..n])
  {
    AllTaken(key);
  }

  lemma {:induction false} IndexBehind(front: string, value: string, c: char)
    requires c !in front
    ensures IndexOf(front + value, c) == |front| + IndexOf(value, c)
    decreases |front|
  {
    if front == "" {
      assert front + value == value;
    } else {
      assert (front + value)[1..] == front[1..] + value;
      IndexBehind(front[1..], value, c);
    }
  }

  lemma DropBehind<T>(front: seq<T>, s: seq<T>, n: nat)
    requires n <= |s|
    ensures (front + s)[|front| + n..] == s[n..]
  {
  }

  lemma FurtherBehind(front: string, value: string)
    requires '\n' !in front
    ensures Further(front + value) == Further(value)
  {
    var n := IndexOf(value, '\n');
    IndexBehind(front, value, '\n');
    if n < |value| {
      DropBehind(front, value, n + 1);
    }
  }

  lemma SpillBehindBar(text: string, value: string)
    requires '\n' !in text
    ensures Spill(text + ("|" + value)) == Spill(value)
  {
    assert text + ("|" + value) == text + "|" + value;
    FurtherBehind(text + "|", value);
  }

  /** A key with a bar but without a line end is read as a shorter key at the same host. */
  lemma BarredKeyReads(host: string, key: string, value: string)
    requires CleanHost(host) && '\n' !in key && '|' in key && Spill(value) == []
    ensures var n := IndexOf(key, '|');
      n < |key| && ReadBack(Entry(host, key, value)) == [Entry(host, key[..n], Kept(key[n + 1..] + ("|" + value)))]
  {
    var n := IndexOf(key, '|');
    PlainUpToBar(key);
    KeyIsCutAtBar(host, key, n, value);
    var more := key[n + 1..] + ("|" + value);
    SpillBehindBar(key[n + 1..], value);
    EntryReads(host, key[..n], more);
    assert [Entry(host, key[..n], Kept(more))] + [] == [Entry(host, key[..n], Kept(more))];
  }

  /** The vault does not come to that place later. */
  lemma BarredKeyIsNotBehind(host: string, key: string, value: string, host': string, key': string)
    requires CleanHost(host) && '\n' !in key && '|' in key && Spill(value) == []
    requires Lookup(ReadBack(Entry(host, key, value)), host', key').Some?
    ensures !PlaceLess(host, key, host', key')
  {
    var n := IndexOf(key, '|');
    BarredKeyReads(host, key, value);
    LookupIsEntry(ReadBack(Entry(host, key, value)), host', key');
    PrefixIsNotBehind(key[..n], key[n..]);
    TakeDrop(key, n);
  }

  // ---------- the text itself, and the default place ----------

  /** The line of an entry behind the comment. */
  lemma OneEntryIsWritten(e: Entry)
    ensures Serialize([e]) == "# FREQ Vault " + "\U{2014}" + " encrypted credential store" + "\n"
                              + (e.host + "|" + e.key + "|" + e.value) + "\n"
  {
    OneIsSorted(e);
    assert [e][..0] == [] && LinesOf([e][..0]) == [];
    assert [] + [LineOf(e)] == [LineOf(e)];
    var first := "#" + TITLE;
    var lines := [first] + [LineOf(e)];
    assert lines[..1] == [first] && Join(lines) == first + ("\n" + LineOf(e));
    LineIsJoined(e);
    Associates(first, "\n", LineOf(e));
    TitleText();
  }

  lemma OneIsSorted(e: Entry)
    ensures Sorted([e]) == [e]
  {
    SortedSnoc([], e);
    assert [] + [e] == [e] && [][..0] + [e] + [][0..] == [e];
  }

  lemma TitleText()
    ensures "#" + TITLE == "# FREQ Vault " + "\U{2014}" + " encrypted credential store"
  {
    Associates("#", " FREQ Vault ", "\U{2014}");
    Associates("#", " FREQ Vault " + "\U{2014}", " encrypted credential store");
    assert "#" + " FREQ Vault " == "# FREQ Vault ";
  }

  lemma LineIsJoined(e: Entry)
    ensures LineOf(e) == e.host + "|" + e.key + "|" + e.value
  {
    Associates(e.host, "|", e.key + ("|" + e.value));
    Associates(e.host + "|", e.key, "|" + e.value);
    Associates(e.host + "|" + e.key, "|", e.value);
  }

  /** The default place counts only where nothing stands. */
  lemma DefaultIsLastResort(es: seq<Entry>, host: string, key: string)
    ensures (exists e :: e in es && e.host == host && e.key == key) ==> Entry(host, key, GetIn(es, host, key)) in es
    ensures (forall e :: e in es ==> !(e.host == host && e.key == key)) ==>
      if exists e :: e in es && e.host == "DEFAULT" && e.key == key
      then Entry("DEFAULT", key, GetIn(es, host, key)) in es
      else GetIn(es, host, key) == ""
  {
    LookupIsEntry(es, host, key);
    LookupIsEntry(es, "DEFAULT", key);
  }

  /** Of several entries at a place the first one is found. */
  lemma FirstIsFound(a: seq<Entry>, e: Entry, b: seq<Entry>)
    requires forall x :: x in a ==> !(x.host == e.host && x.key == e.key)
    ensures GetIn(a + ([e] + b), e.host, e.key) == e.value
  {
    LookupConcat(a, [e] + b, e.host, e.key);
    LookupIsEntry(a, e.host, e.key);
  }
}
