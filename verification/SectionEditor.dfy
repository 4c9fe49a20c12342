/**
 The editor that puts one setting into the `[dashboard]` section of the configuration file, line by line, without
 parsing the rest of it. The theorems are those of a cell: the last write wins, writing twice is writing once, and
 everything else stays where it is.
 */
module SectionEditor {
  import opened Common
  import opened Lines
  import opened LineEditor
  import Toml

  const SECTION: string := "[dashboard]"
  const KEY: string := "trusted_proxy_cidrs"

  predicate IsSection(line: string)
  {
    Strip(line) == SECTION
  }

  /** A line that opens a section, as far as a look at its two ends can tell. */
  predicate IsHeader(line: string)
  {
    var stripped := Strip(line);
    stripped != "" && stripped[0] == '[' && stripped[|stripped| - 1] == ']'
  }

  predicate IsSetting(line: string)
  {
    StartsWith(Strip(line), KEY)
  }

  const RULES: Rules<string> := Rules(IsSection, IsHeader, IsSetting)

  // ---------- the addresses and their setting ----------

  datatype Normalized = Cidrs(cidrs: seq<string>) | Invalid(text: string)

  /**
   The networks of the values that are not blank, each once, in order of first mention; or the first value that is
   none.
   */
  function Normalize(values: seq<string>, network: string -> Maybe<string>): Normalized
  {
    if values == [] then Cidrs([])
    else
      match Normalize(values[..|values| - 1], network)
      case Invalid(text) => Invalid(text)
      case Cidrs(cidrs) =>
        var text := Strip(values[|values| - 1]);
        if text == "" then Cidrs(cidrs)
        else
          match network(text)
          case None => Invalid(text)
          case Some(cidr) => Cidrs(if cidr in cidrs then cidrs else cidrs + [cidr])
  }

  /** `network` stands for the address library: it gives the canonical form of an address, if it is one. */
  method NormalizeCidrs(values: seq<string>, network: string -> Maybe<string>) returns (n: Normalized)
    ensures n == Normalize(values, network)
  {
    var cidrs: seq<string> := [];
    var i := 0;
    while i < |values|
      invariant 0 <= i <= |values|
      invariant Normalize(values[..i], network) == Cidrs(cidrs)
    {
      assert values[..i + 1][..i] == values[..i];
      var text := Strip(values[i]);
      i := i + 1;
      if text == "" {
        continue;
      }
      var parsed := network(text);
      if parsed.None? {
        InvalidStays(values, i, network);
        return Invalid(text);
      }
      if parsed.value !in cidrs {
        cidrs := cidrs + [parsed.value];
      }
    }
    assert values[..i] == values;
    return Cidrs(cidrs);
  }

  lemma {:induction false} InvalidStays(values: seq<string>, i: nat, network: string -> Maybe<string>)
    requires i <= |values| && Normalize(values[..i], network).Invalid?
    ensures Normalize(values, network) == Normalize(values[..i], network)
    decreases |values|
  {
    if i == |values| {
      assert values[..i] == values;
    } else {
      assert values[..|values| - 1][..i] == values[..i];
      InvalidStays(values[..|values| - 1], i, network);
    }
  }

  /** Value `k` is not blank, and its network is `c`. */
  predicate Names(values: seq<string>, k: nat, network: string -> Maybe<string>, c: string)
    requires k < |values|
  {
    Strip(values[k]) != "" && network(Strip(values[k])) == Some(c)
  }

  lemma {:induction false} NormalizedDiffer(values: seq<string>, network: string -> Maybe<string>)
    requires Normalize(values, network).Cidrs?
    ensures var cidrs := Normalize(values, network).cidrs;
      forall i, j :: 0 <= i < j < |cidrs| ==> cidrs[i] != cidrs[j]
    decreases |values|
  {
    if values != [] {
      NormalizedDiffer(values[..|values| - 1], network);
    }
  }

  /** Normalised addresses are exactly the networks of the values, each once. */
  lemma {:induction false} NormalizedAreNetworks(values: seq<string>, network: string -> Maybe<string>, c: string)
    requires Normalize(values, network).Cidrs?
    ensures c in Normalize(values, network).cidrs <==> exists k :: 0 <= k < |values| && Names(values, k, network, c)
    decreases |values|
  {
    if values != [] {
      var init := values[..|values| - 1];
      NormalizedAreNetworks(init, network, c);
      assert forall k :: 0 <= k < |init| ==> (Names(init, k, network, c) <==> Names(values, k, network, c));
      assert c in Normalize(values, network).cidrs
        <==> c in Normalize(init, network).cidrs || Names(values, |values| - 1, network, c);
    }
  }

  function HexDigit(n: nat): (c: char)
    requires n < 16
    ensures '0' <= c <= 'f'
  {
    if n < 10 then ('0' as int + n) as char else ('a' as int + n - 10) as char
  }

  /** `n` as hexadecimal digits. */
  function HexDigits(n: nat, width: nat): (s: string)
    ensures |s| == width && forall i :: 0 <= i < |s| ==> ' ' <= s[i] <= '~'
  {
    if width == 0 then "" else HexDigits(n / 16, width - 1) + [HexDigit(n % 16)]
  }

  /** "\uXXXX" */
  function HexEscape(n: nat): (s: string)
    requires n < 0x1_0000
    ensures |s| == 6 && forall i :: 0 <= i < |s| ==> ' ' <= s[i] <= '~'
  {
    "\\u" + HexDigits(n, 4)
  }

  /** A character beyond 16 bits, less the first 65536, as two escapes. */
  function Surrogates(n: nat): (s: string)
    requires n < 0x10_0000
    ensures forall i :: 0 <= i < |s| ==> ' ' <= s[i] <= '~'
  {
    HexEscape(0xD800 + n / 0x400) + HexEscape(0xDC00 + n % 0x400)
  }

  /** A character as `json.dumps` writes it: only printable ASCII remains, and quotes and backslashes are escaped. */
  function JsonChar(c: char): (s: string)
    ensures forall i :: 0 <= i < |s| ==> ' ' <= s[i] <= '~'
  {
    var n := c as int;
    if c == '"' then "\\\""
    else if c == '\\' then "\\\\"
    else if c == '\n' then "\\n"
    else if c == '\r' then "\\r"
    else if c == '\t' then "\\t"
    else if n == 8 then "\\b"
    else if n == 12 then "\\f"
    else if ' ' <= c <= '~' then [c]
    else if n < 0x1_0000 then HexEscape(n)
    else Surrogates(n - 0x1_0000)
  }

  function JsonChars(value: string): (s: string)
    ensures forall i :: 0 <= i < |s| ==> ' ' <= s[i] <= '~'
  {
    if value == "" then "" else JsonChar(value[0]) + JsonChars(value[1..])
  }

  function JsonString(value: string): (s: string)
    ensures forall i :: 0 <= i < |s| ==> ' ' <= s[i] <= '~'
  {
    "\"" + (JsonChars(value) + "\"")
  }

  /** The values, quoted and separated by commas. */
  function Quoted(values: seq<string>): (s: string)
    ensures forall i :: 0 <= i < |s| ==> ' ' <= s[i] <= '~'
  {
    if values == [] then ""
    else if |values| == 1 then JsonString(values[0])
    else Quoted(values[..|values| - 1]) + (", " + JsonString(values[|values| - 1]))
  }

  function Setting(cidrs: seq<string>): string
  {
    KEY + (" = [" + (Quoted(cidrs) + "]"))
  }

  // ---------- the edit ----------

  /** How a missing section is begun: set off by a blank line from text in front of it. */
  function Opening(lines: seq<string>): seq<string>
  {
    if lines != [] && Strip(lines[|lines| - 1]) != "" then ["", SECTION] else [SECTION]
  }

  /** The lines after an edit. */
  function EditedLines(lines: seq<string>, setting: string): seq<string>
  {
    Edited(RULES, lines, Opening(lines), setting)
  }

  /** The file after an edit. */
  function Written(text: string, setting: string): string
  {
    RStrip(Join(EditedLines(SplitLines(text), setting))) + "\n"
  }

  lemma EditedByAppending(lines: seq<string>, setting: string)
    requires Start(RULES, lines) == |lines|
    ensures var separated := if lines != [] && Strip(lines[|lines| - 1]) != "" then lines + [""] else lines;
      EditedLines(lines, setting) == separated + [SECTION, setting]
  {
    AppendTwo(lines, SECTION, setting);
    AppendTwo(lines + [""], SECTION, setting);
    Associates(lines, [""], [SECTION]);
    assert [""] + [SECTION] == ["", SECTION];
  }

  lemma AppendTwo(lines: seq<string>, x: string, y: string)
    ensures lines + [x] + [y] + [] == lines + [x, y]
  {
  }

  /** A missing section goes to the end; in a section that is there, the body is rewritten. */
  method EditLines(lines: seq<string>, setting: string) returns (edited: seq<string>)
    ensures edited == EditedLines(lines, setting)
  {
    var start, end := Locate(RULES, lines);
    if start == -1 {
      EditedByAppending(lines, setting);
      var separated := if lines != [] && Strip(lines[|lines| - 1]) != "" then lines + [""] else lines;
      return separated + [SECTION, setting];
    }
    EditedInPlace(RULES, lines, Opening(lines), setting);
    var newBody := RewriteBody(RULES, lines[start + 1..end], setting);
    return lines[..start + 1] + newBody + lines[end..];
  }

  /** Read the lines, edit them, and write them back without white space at the end. */
  method WriteSetting(text: string, setting: string) returns (file: string)
    ensures file == Written(text, setting)
  {
    var lines := EditLines(SplitLines(text), setting);
    file := RStrip(Join(lines)) + "\n";
  }

  // ---------- the tests ----------

  lemma RulesAreConsistent()
    ensures Consistent(RULES)
  {
    assert SECTION[0] == '[' && SECTION[|SECTION| - 1] == ']' && KEY[0] == 't';
  }

  lemma SectionOpens(lines: seq<string>)
    ensures Opens(RULES, Opening(lines))
  {
    assert SECTION[|SECTION| - 1] == ']' && SECTION[0] == '[';
    assert Strip(SECTION) == SECTION;
  }

  /** A setting as the editor makes it: it sits on one line, has no white space around it, and is recognised as one. */
  ghost predicate Proper(setting: string)
  {
    Unbroken(setting) && RStrip(setting) == setting && setting != "" && IsSetting(setting)
  }

  lemma ProperIsSetting(setting: string)
    requires Proper(setting)
    ensures RULES.isSetting(setting) && !RULES.isHeader(setting)
  {
    RulesAreConsistent();
  }

  lemma KeyIsPlain()
    ensures Unbroken(KEY) && KEY != "" && !IsSpace(KEY[0])
  {
    assert KEY[0] == 't';
  }

  /** A line that begins with the key and ends in something else than white space is the key's and is not stripped. */
  lemma KeyLineStands(rest: string)
    requires rest != "" && !IsSpace(rest[|rest| - 1]) && Unbroken(rest)
    ensures Proper(KEY + rest) && Strip(KEY + rest) == KEY + rest
  {
    KeyIsPlain();
    var s := KEY + rest;
    assert s[0] == KEY[0] && s[|s| - 1] == rest[|rest| - 1];
    assert Strip(s) == s;
  }

  lemma SettingIsProper(cidrs: seq<string>)
    ensures Proper(Setting(cidrs))
  {
    var rest := " = [" + (Quoted(cidrs) + "]");
    assert Unbroken(" = [") && Unbroken("]");
    assert rest[|rest| - 1] == ']';
    KeyLineStands(rest);
  }

  // ---------- the end of the file ----------

  /** White space at the end does not change what a line is. */
  lemma RStripKeepsKind(line: string)
    ensures RULES.isHeader(RStrip(line)) <==> RULES.isHeader(line)
    ensures RULES.isSetting(RStrip(line)) <==> RULES.isSetting(line)
  {
    BlankBothWays(line);
  }

  lemma TrimIsQuiet(lines: seq<string>)
    requires Quiet(RULES, lines)
    ensures Quiet(RULES, Trim(lines))
  {
    var t := Trim(lines);
    forall k | 0 <= k < |t|
      ensures RULES.isHeader(t[k]) <==> RULES.isHeader(lines[k])
      ensures RULES.isSetting(t[k]) <==> RULES.isSetting(lines[k])
    {
      RStripKeepsKind(lines[k]);
      TrimAt(lines, k);
    }
    QuietPrefix(RULES, lines, t);
  }

  /** Unbroken lines stay so when they are edited. */
  lemma EditIsUnbroken(lines: seq<string>, setting: string)
    requires AllUnbroken(lines) && Unbroken(setting)
    ensures AllUnbroken(EditedLines(lines, setting))
  {
    var before, after := Before(RULES, lines, Opening(lines)), After(RULES, lines);
    OpeningIsUnbroken(lines);
    LinesComeFrom(RULES, lines, Opening(lines));
    UnbrokenMembers(lines);
    InUnbroken(before + [setting] + after);
  }

  lemma OpeningIsUnbroken(lines: seq<string>)
    ensures forall x :: x in Opening(lines) ==> Unbroken(x)
  {
    assert Unbroken("") && Unbroken(SECTION);
  }

  lemma UnbrokenMembers(lines: seq<string>)
    requires AllUnbroken(lines)
    ensures forall x :: x in lines ==> Unbroken(x)
  {
  }

  lemma InUnbroken(lines: seq<string>)
    requires forall x :: x in lines ==> Unbroken(x)
    ensures AllUnbroken(lines)
  {
  }

  /** The lines of a file just written: the frame, the setting, and what the final strip left of the rest. */
  lemma WrittenLines(text: string, setting: string)
    requires Proper(setting)
    ensures var lines := SplitLines(text);
      var all := Before(RULES, lines, Opening(lines)) + [setting] + Trim(After(RULES, lines));
      Trim(EditedLines(lines, setting)) == all && SplitLines(Written(text, setting)) == all
  {
    var lines := SplitLines(text);
    TrimBehind(Before(RULES, lines, Opening(lines)) + [setting], After(RULES, lines));
    SplitIsUnbroken(text);
    EditIsUnbroken(lines, setting);
    WrittenReadsBack(EditedLines(lines, setting));
  }

  // ---------- theorems ----------

  /** The lines of a written file hold the setting in a frame that does not depend on it. */
  lemma WrittenIsFramed(text: string, setting: string)
    requires Proper(setting)
    ensures var lines := SplitLines(text);
      var d := FrameStart(RULES, lines, Opening(lines));
      d >= 0 && Framed(RULES, Before(RULES, lines, Opening(lines)), Trim(After(RULES, lines)), d)
  {
    var lines := SplitLines(text);
    SectionOpens(lines);
    EditIsFramed(RULES, lines, Opening(lines));
    TrimIsQuiet(After(RULES, lines));
  }

  /** The last write wins: what an earlier edit wrote leaves no trace in the file. */
  lemma LastWriteWins(text: string, first: string, second: string)
    requires Proper(first) && Proper(second)
    ensures Written(Written(text, first), second) == Written(text, second)
  {
    var lines := SplitLines(text);
    var once := SplitLines(Written(text, first));
    var before, after := Before(RULES, lines, Opening(lines)), Trim(After(RULES, lines));
    WrittenLines(text, first);
    WrittenIsFramed(text, first);
    ProperIsSetting(first);
    ReEdit(RULES, before, first, after, FrameStart(RULES, lines, Opening(lines)), Opening(once));
    WrittenLines(Written(text, first), second);
    WrittenLines(text, second);
    TrimTwice(After(RULES, lines));
    RStripJoin(EditedLines(lines, second));
    RStripJoin(EditedLines(once, second));
  }

  /**
   The laws for the setting as it is made from address lists: the last list wins, and writing a list twice is writing
   it once.
   */
  lemma WritingCidrs(text: string, c1: seq<string>, c2: seq<string>)
    ensures Written(Written(text, Setting(c1)), Setting(c2)) == Written(text, Setting(c2))
    ensures Written(Written(text, Setting(c1)), Setting(c1)) == Written(text, Setting(c1))
  {
    SettingIsProper(c1);
    SettingIsProper(c2);
    LastWriteWins(text, Setting(c1), Setting(c2));
    LastWriteWins(text, Setting(c1), Setting(c1));
  }

  /** After an edit the first section has exactly one setting line, and it is the one written. */
  lemma ExactlyOneSetting(text: string, setting: string)
    requires Proper(setting)
    ensures HasJust(RULES, SplitLines(Written(text, setting)), setting)
  {
    var lines := SplitLines(text);
    WrittenLines(text, setting);
    WrittenIsFramed(text, setting);
    ProperIsSetting(setting);
    FramedHasJust(RULES, Before(RULES, lines, Opening(lines)), setting, Trim(After(RULES, lines)),
                  FrameStart(RULES, lines, Opening(lines)));
  }

  /**
   Everything else keeps its text and order: in front of and behind the setting stand the old lines without the old
   settings of the section, or, if there was no section, all old lines, a blank line where one is needed, and the new
   section line. From the end of the file only white space goes.
   */
  lemma OtherLinesStay(text: string, setting: string)
    requires Proper(setting)
    ensures var old_ := SplitLines(text);
      var before, after := Before(RULES, old_, Opening(old_)), After(RULES, old_);
      && SplitLines(Written(text, setting)) == before + [setting] + Trim(after)
      && before + after == Remaining(RULES, old_, Opening(old_))
  {
    WrittenLines(text, setting);
    FrameIsOldLines(RULES, SplitLines(text), Opening(SplitLines(text)));
  }

  // ---------- other keys of the section ----------

  /** A line for exactly this key: behind its name comes an equals sign. */
  predicate IsKeyLine(line: string)
  {
    IsSetting(line) && var rest := LStrip(Strip(line)[|KEY|..]); rest != "" && rest[0] == '='
  }

  /** The line is among those of the section, but for white space at its end. */
  ghost predicate Survives(section: seq<string>, line: string)
  {
    exists y :: y in section && RStrip(y) == RStrip(line)
  }

  lemma KindByText(a: string, b: string)
    requires RStrip(a) == RStrip(b)
    ensures (IsSetting(a) <==> IsSetting(b)) && (IsKeyLine(a) <==> IsKeyLine(b))
  {
    BlankBothWays(a);
    BlankBothWays(b);
  }

  lemma SettingHasText(line: string)
    requires IsSetting(line)
    ensures RStrip(line) != ""
  {
    BlankBothWays(line);
    assert KEY != "";
  }

  /** The lines of the section after an edit. */
  lemma SectionAfter(text: string, setting: string)
    requires Proper(setting) && Start(RULES, SplitLines(text)) < |SplitLines(text)|
    ensures var old_, new_ := SplitLines(text), SplitLines(Written(text, setting));
      var before, after := Before(RULES, old_, Opening(old_)), Trim(After(RULES, old_));
      && new_ == before + [setting] + after && HasJust(RULES, new_, setting)
      && Body(RULES, new_) == before[Start(RULES, old_) + 1..] + [setting] + after[..First(after, 0, RULES.isHeader)]
  {
    var old_ := SplitLines(text);
    WrittenLines(text, setting);
    WrittenIsFramed(text, setting);
    ProperIsSetting(setting);
    ExactlyOneSetting(text, setting);
    FramedLocates(RULES, Before(RULES, old_, Opening(old_)), setting, Trim(After(RULES, old_)), Start(RULES, old_));
  }

  /** Up to a line that the edit keeps, what is behind the setting holds no header, even after the end is trimmed. */
  lemma NoHeaderBefore(lines: seq<string>, k: nat)
    requires Start(RULES, lines) < |lines|
    requires k < |Others(Body(RULES, lines)[Place(RULES, Body(RULES, lines))..], RULES.isSetting)|
    requires k < |Trim(After(RULES, lines))|
    ensures !RULES.isHeader(Trim(After(RULES, lines))[k])
  {
    var after := After(RULES, lines);
    KeptIsNoHeader(RULES, lines, k);
    TrimAt(after, k);
    RStripKeepsKind(after[k]);
  }

  /** The lines behind the setting, up to the next header, survive if they are not blank. */
  lemma KeptBehind(lines: seq<string>, x: string)
    requires Start(RULES, lines) < |lines| && RStrip(x) != ""
    requires x in Others(Body(RULES, lines)[Place(RULES, Body(RULES, lines))..], RULES.isSetting)
    ensures var after := Trim(After(RULES, lines)); Survives(after[..First(after, 0, RULES.isHeader)], x)
  {
    var kept := Others(Body(RULES, lines)[Place(RULES, Body(RULES, lines))..], RULES.isSetting);
    var after, t := After(RULES, lines), Trim(After(RULES, lines));
    var k :| 0 <= k < |kept| && kept[k] == x;
    assert after[k] == x;
    TrimKeepsText(after, k);
    var q := First(t, 0, RULES.isHeader);
    if q <= k {
      NoHeaderBefore(lines, q);
      assert false;
    }
    assert t[..q][k] == t[k];
  }

  lemma SurvivesAround(front: seq<string>, setting: string, back: seq<string>, x: string)
    requires x in front || Survives(back, x)
    ensures Survives(front + [setting] + back, x)
  {
    var all := front + [setting] + back;
    if x in front {
      assert x in all;
    } else {
      var y :| y in back && RStrip(y) == RStrip(x);
      assert y in all;
    }
  }

  /** A line of the section that is no setting survives the edit. */
  lemma NoSettingSurvives(text: string, setting: string, x: string)
    requires Proper(setting) && Start(RULES, SplitLines(text)) < |SplitLines(text)|
    requires x in Body(RULES, SplitLines(text)) && !RULES.isSetting(x) && RStrip(x) != ""
    requires HasJust(RULES, SplitLines(Written(text, setting)), setting)
    ensures Survives(Body(RULES, SplitLines(Written(text, setting))), x)
  {
    var old_ := SplitLines(text);
    var d, before, after := Start(RULES, old_), Before(RULES, old_, Opening(old_)), Trim(After(RULES, old_));
    SectionAfter(text, setting);
    KeptInFront(RULES, old_, Opening(old_));
    OtherLineIsKept(RULES, old_, x);
    if x !in before[d + 1..] {
      KeptBehind(old_, x);
    }
    SurvivesAround(before[d + 1..], setting, after[..First(after, 0, RULES.isHeader)], x);
  }

  /** A line that begins like the setting but is for another key does not. */
  lemma OtherSettingIsDropped(lines: seq<string>, setting: string, x: string)
    requires HasJust(RULES, lines, setting) && IsKeyLine(setting) && IsSetting(x) && !IsKeyLine(x)
    ensures !Survives(Body(RULES, lines), x)
  {
    forall y | y in Body(RULES, lines)
      ensures RStrip(y) != RStrip(x)
    {
      if RStrip(y) == RStrip(x) {
        KindByText(x, y);
        JustOne(RULES, lines, setting, y);
        assert false;
      }
    }
  }

  /**
   Every line of the section that is not blank and is for another key survives an edit exactly if no line of the section
   begins with the key's name without being for that key.
   */
  lemma OtherKeysSurviveExactly(text: string, setting: string)
    requires Proper(setting) && IsKeyLine(setting) && Start(RULES, SplitLines(text)) < |SplitLines(text)|
    ensures HasJust(RULES, SplitLines(Written(text, setting)), setting)
    ensures var was, section := Body(RULES, SplitLines(text)), Body(RULES, SplitLines(Written(text, setting)));
      (forall x :: x in was && !IsKeyLine(x) && RStrip(x) != "" ==> Survives(section, x))
      <==> (forall x :: x in was && IsSetting(x) ==> IsKeyLine(x))
  {
    ExactlyOneSetting(text, setting);
    var was, lines := Body(RULES, SplitLines(text)), SplitLines(Written(text, setting));
    forall x | x in was && RStrip(x) != "" && !IsSetting(x)
      ensures Survives(Body(RULES, lines), x)
    {
      NoSettingSurvives(text, setting, x);
    }
    forall x | x in was && IsSetting(x) && !IsKeyLine(x)
      ensures RStrip(x) != "" && !Survives(Body(RULES, lines), x)
    {
      SettingHasText(x);
      OtherSettingIsDropped(lines, setting, x);
    }
  }

  // ---------- two files ----------

  lemma SettingIsKeyLine(cidrs: seq<string>)
    ensures IsKeyLine(Setting(cidrs))
  {
    var rest := " = [" + (Quoted(cidrs) + "]");
    assert Unbroken(" = [") && Unbroken("]");
    assert rest[|rest| - 1] == ']';
    KeyLineStands(rest);
    assert (KEY + rest)[|KEY|..] == rest;
    assert rest[0] == ' ' && rest[1..][0] == '=';
    assert LStrip(rest) == rest[1..];
  }

  /** A line of the section `[dashboard]` alone in its file. */
  lemma SectionOfOne(line: string)
    requires Unbroken(line) && !RULES.isHeader(line)
    ensures var lines := SplitLines(Unlines([SECTION, line]));
      lines == [SECTION, line] && Start(RULES, lines) == 0 && Body(RULES, lines) == [line]
  {
    var lines := [SECTION, line];
    SectionLine();
    SplitUnlines(lines);
    FirstIs(lines, 0, RULES.isSection, 0);
    FirstIs(lines, 1, RULES.isHeader, 2);
  }

  /** Behind the key's name with more letters comes no equals sign. */
  lemma LongerKeyIsOther(more: string)
    requires more != "" && !IsSpace(more[0]) && more[0] != '=' && !IsSpace(more[|more| - 1]) && Unbroken(more)
    ensures var line := KEY + more; IsSetting(line) && !IsKeyLine(line) && Unbroken(line) && !RULES.isHeader(line)
  {
    var line := KEY + more;
    KeyLineStands(more);
    ProperIsSetting(line);
    assert line[|KEY|..] == more;
  }

  /** In a section with only such a key, an edit puts the setting in its place, and the key is lost. */
  lemma LongerKeyIsLost(more: string, cidrs: seq<string>)
    requires more != "" && !IsSpace(more[0]) && more[0] != '=' && !IsSpace(more[|more| - 1]) && Unbroken(more)
    ensures var text := Unlines([SECTION, KEY + more]);
      && HasJust(RULES, SplitLines(Written(text, Setting(cidrs))), Setting(cidrs))
      && !Survives(Body(RULES, SplitLines(Written(text, Setting(cidrs)))), KEY + more)
  {
    LongerKeyIsOther(more);
    SectionOfOne(KEY + more);
    SettingIsProper(cidrs);
    SettingIsKeyLine(cidrs);
    var text := Unlines([SECTION, KEY + more]);
    ExactlyOneSetting(text, Setting(cidrs));
    OtherSettingIsDropped(SplitLines(Written(text, Setting(cidrs))), Setting(cidrs), KEY + more);
  }

  /** For example the key `trusted_proxy_cidrs_extra`. */
  lemma ExtraKeyIsLost(cidrs: seq<string>)
    ensures var text := Unlines([SECTION, KEY + "_extra = 1"]);
      && HasJust(RULES, SplitLines(Written(text, Setting(cidrs))), Setting(cidrs))
      && !Survives(Body(RULES, SplitLines(Written(text, Setting(cidrs)))), KEY + "_extra = 1")
  {
    LongerKeyIsLost("_extra = 1", cidrs);
  }

  lemma SectionLine()
    ensures Unbroken(SECTION) && RULES.isSection(SECTION)
  {
    assert Strip(SECTION) == SECTION;
  }

  lemma ContinuedLines(first: string, more: seq<string>)
    requires Unbroken(first) && AllUnbroken(more)
    ensures SplitLines(Unlines([SECTION] + ([first] + more))) == [SECTION] + ([first] + more)
  {
    var lines := [SECTION] + ([first] + more);
    SectionLine();
    assert forall i :: 1 < i < |lines| ==> lines[i] == more[i - 2];
    SplitUnlines(lines);
  }

  /**
   An old setting that goes on over several lines loses only the first of them: the others stay behind the new
   setting.
   */
  lemma ContinuationStays(first: string, more: seq<string>, setting: string)
    requires Proper(setting) && RULES.isSetting(first) && !RULES.isHeader(first) && Unbroken(first)
    requires AllUnbroken(more) && more != [] && RStrip(more[|more| - 1]) == more[|more| - 1] != ""
    requires forall i :: 0 <= i < |more| ==> !RULES.isHeader(more[i]) && !RULES.isSetting(more[i])
    ensures SplitLines(Written(Unlines([SECTION] + ([first] + more)), setting)) == [SECTION] + [setting] + more
  {
    var lines := [SECTION] + ([first] + more);
    ContinuedLines(first, more);
    SectionLine();
    ContinuedSetting(RULES, SECTION, first, more, Opening(lines));
    TrimsNothing(more);
    WrittenLines(Unlines(lines), setting);
  }

  lemma FrontedLines(front: seq<string>, back: seq<string>)
    requires AllUnbroken(front) && AllUnbroken(back)
    ensures SplitLines(Unlines([SECTION] + (front + back))) == [SECTION] + (front + back)
  {
    var lines := [SECTION] + (front + back);
    SectionLine();
    assert forall i :: 0 < i < |lines| ==> lines[i] == if i <= |front| then front[i - 1] else back[i - 1 - |front|];
    SplitUnlines(lines);
  }

  /**
   A line of the section that looks like a header ends it for the editor: the setting goes in front of that line, and
   an old one behind it stays.
   */
  lemma HeaderLookAlikeEndsSection(front: seq<string>, next: string, back: seq<string>, setting: string)
    requires Proper(setting) && RULES.isHeader(next) && AllUnbroken(front) && AllUnbroken([next] + back)
    requires forall i :: 0 <= i < |front| ==> !RULES.isHeader(front[i]) && !RULES.isSetting(front[i])
    requires back != [] && RStrip(back[|back| - 1]) == back[|back| - 1] != ""
    ensures SplitLines(Written(Unlines([SECTION] + (front + ([next] + back))), setting))
         == [SECTION] + front + [setting] + ([next] + back)
  {
    var lines := [SECTION] + (front + ([next] + back));
    FrontedLines(front, [next] + back);
    SectionLine();
    SettingBeforeHeader(RULES, SECTION, front, next, back, Opening(lines));
    TrimsNothing([next] + back);
    WrittenLines(Unlines(lines), setting);
  }

  lemma KeyLineWith(rest: string)
    requires Unbroken(rest) && rest != "" && !IsSpace(rest[|rest| - 1])
    ensures Unbroken(KEY + rest) && RULES.isSetting(KEY + rest) && RStrip(KEY + rest) == KEY + rest
  {
    KeyLineStands(rest);
    ProperIsSetting(KEY + rest);
  }

  lemma RowIsPlain(row: string)
    requires row != "" && !IsSpace(row[0]) && !IsSpace(row[|row| - 1]) && row[0] != '[' && row[0] != 't'
    ensures !RULES.isHeader(row) && !RULES.isSetting(row) && RStrip(row) == row
  {
    assert Strip(row) == row && KEY[0] == 't';
  }

  lemma RowLooksLikeHeader(row: string)
    requires |row| > 1 && row[0] == '[' && row[|row| - 1] == ']'
    ensures RULES.isHeader(row)
  {
    assert Strip(row) == row;
  }

  /** For example the line `[1, 2]` inside an array of several lines: the old setting behind it stays beside the new. */
  lemma NestedArrayHidesSetting(cidrs: seq<string>)
    ensures var first, next, last, hidden := "rows = [", "[1, 2]", "]", KEY + " = []";
      && RULES.isSetting(hidden)
      && SplitLines(Written(Unlines([SECTION] + ([first] + ([next] + [last, hidden]))), Setting(cidrs)))
         == [SECTION] + [first] + [Setting(cidrs)] + ([next] + [last, hidden])
  {
    var first, next, last, hidden := "rows = [", "[1, 2]", "]", KEY + " = []";
    assert Unbroken(first) && Unbroken(next) && Unbroken(last) && Unbroken(" = []");
    RowIsPlain(first);
    RowLooksLikeHeader(next);
    KeyLineWith(" = []");
    SettingIsProper(cidrs);
    HeaderLookAlikeEndsSection([first], next, [last, hidden], Setting(cidrs));
  }

  // ---------- the setting holds its addresses ----------

  predicate Printable(text: string)
  {
    forall i :: 0 <= i < |text| ==> 32 <= text[i] as int < 127
  }

  /** For printable ASCII the quoting of JSON is that of TOML. */
  lemma {:induction false} JsonIsToml(text: string)
    requires Printable(text)
    ensures JsonChars(text) == Toml.Escape(text) && Toml.Clean(text)
    decreases |text|
  {
    if text != "" {
      JsonIsToml(text[1..]);
      assert JsonChar(text[0]) == Toml.EscapeChar(text[0]);
      assert text == [text[0]] + text[1..];
    }
  }

  lemma JsonStringIsToml(text: string)
    requires Printable(text)
    ensures JsonString(text) == Toml.TomlString(text)
  {
    JsonIsToml(text);
    Toml.ReplacesEscape(text);
    Associates("\"", Toml.Escape(text), "\"");
  }

  predicate AllPrintable(values: seq<string>)
  {
    forall i :: 0 <= i < |values| ==> Printable(values[i])
  }

  lemma {:induction false} JoinItemsSnoc(items: seq<string>, last: string)
    requires items != []
    ensures Toml.JoinItems(items + [last]) == Toml.JoinItems(items) + (", " + Toml.TomlString(last))
    decreases |items|
  {
    var all := items + [last];
    assert all[1..] == items[1..] + [last];
    if |items| == 1 {
      assert all[1..] == [last];
    } else {
      JoinItemsSnoc(items[1..], last);
      var first, more := Toml.TomlString(items[0]), Toml.JoinItems(items[1..]);
      Associates(first, ", " + more, ", " + Toml.TomlString(last));
      Associates(", ", more, ", " + Toml.TomlString(last));
    }
  }

  lemma {:induction false} QuotedIsToml(values: seq<string>)
    requires AllPrintable(values)
    ensures Quoted(values) == Toml.JoinItems(values)
    decreases |values|
  {
    if |values| == 1 {
      JsonStringIsToml(values[0]);
    } else if |values| > 1 {
      var before, last := values[..|values| - 1], values[|values| - 1];
      QuotedIsToml(before);
      JsonStringIsToml(last);
      JoinItemsSnoc(before, last);
      assert values == before + [last];
    }
  }

  lemma KeyIsKey()
    ensures Toml.IsKey(KEY)
  {
    var parts := ["trusted", "_proxy", "_cidrs"];
    assert Toml.IsKey(parts[0]) && Toml.IsKey(parts[1]) && Toml.IsKey(parts[2]);
    assert KEY == parts[0] + parts[1] + parts[2];
  }

  /** Read as TOML, the line of the setting gives its key exactly the addresses that were written, in order. */
  lemma SettingHolds(cidrs: seq<string>, rest: string)
    requires AllPrintable(cidrs)
    ensures Toml.ReadPair(Setting(cidrs) + ("\n" + rest))
         == Toml.Got(("trusted_proxy_cidrs", Toml.Arr(cidrs)), "\n" + rest)
  {
    QuotedIsToml(cidrs);
    SettingIsPrinted(cidrs, rest);
    AddressesAreClean(cidrs);
    KeyIsKey();
    Toml.PairReadsBack(KEY, Toml.Arr(cidrs), rest);
  }

  lemma SettingIsPrinted(cidrs: seq<string>, rest: string)
    requires Quoted(cidrs) == Toml.JoinItems(cidrs)
    ensures Setting(cidrs) + ("\n" + rest) == Toml.PrintPair(KEY, Toml.Arr(cidrs)) + rest
  {
    LineIsPrinted(KEY, Quoted(cidrs), rest);
  }

  lemma LineIsPrinted(key: string, items: string, rest: string)
    ensures key + (" = [" + (items + "]")) + ("\n" + rest) == key + (" = " + ("[" + (items + "]") + "\n")) + rest
  {
    var list := items + "]";
    assert " = [" + list == " = " + ("[" + list);
    assert key + (" = " + ("[" + list)) + ("\n" + rest) == key + (" = " + ("[" + list + "\n")) + rest;
  }

  lemma AddressesAreClean(cidrs: seq<string>)
    requires AllPrintable(cidrs)
    ensures Toml.CleanValue(Toml.Arr(cidrs))
  {
    forall i | 0 <= i < |cidrs|
      ensures Toml.Clean(cidrs[i])
    {
      JsonIsToml(cidrs[i]);
    }
  }

  /** So the section of the written file has one setting, and that is the list of addresses written. */
  lemma WrittenHolds(text: string, cidrs: seq<string>, rest: string)
    requires AllPrintable(cidrs)
    ensures var lines := SplitLines(Written(text, Setting(cidrs)));
      && HasJust(RULES, lines, Setting(cidrs))
      && Toml.ReadPair(Setting(cidrs) + ("\n" + rest))
         == Toml.Got(("trusted_proxy_cidrs", Toml.Arr(cidrs)), "\n" + rest)
  {
    SettingIsProper(cidrs);
    ExactlyOneSetting(text, Setting(cidrs));
    SettingHolds(cidrs, rest);
  }

  lemma TwoLinesJoined(first: string, second: string)
    requires second != "" && RStrip(second) == second
    ensures RStrip(Join([first, second])) == first + ("\n" + second)
  {
    var lines := [first, second];
    assert lines[..1] == [first];
    assert Join(lines) == first + ("\n" + second) == first + "\n" + second;
    RStripConcat(first + "\n", second);
  }

  /** A file with nothing in it becomes a file with just the section and the setting. */
  lemma EmptyFileGetsSection(cidrs: seq<string>)
    ensures Written("", Setting(cidrs))
         == "[dashboard]" + ("\n" + ("trusted_proxy_cidrs" + (" = [" + (Quoted(cidrs) + "]")))) + "\n"
  {
    var setting, none: seq<string> := Setting(cidrs), [];
    SettingIsProper(cidrs);
    EditedByAppending(none, setting);
    assert none + [SECTION, setting] == [SECTION, setting];
    TwoLinesJoined(SECTION, setting);
  }

  // ---------- which addresses are refused ----------

  /** Value `k` is an address that is none. */
  predicate IsNone(values: seq<string>, k: nat, network: string -> Maybe<string>)
    requires k < |values|
  {
    Strip(values[k]) != "" && network(Strip(values[k])).None?
  }

  /** Value `k` is the first that is an address and none. */
  predicate IsFirstNone(values: seq<string>, k: nat, network: string -> Maybe<string>)
    requires k < |values|
  {
    IsNone(values, k, network) && forall j :: 0 <= j < k ==> !IsNone(values, j, network)
  }

  /** A list is refused exactly if one of its values is no address, and then for the first of these. */
  lemma {:induction false} RefusedExactly(values: seq<string>, network: string -> Maybe<string>)
    ensures Normalize(values, network).Invalid? <==> exists k :: 0 <= k < |values| && IsNone(values, k, network)
    ensures Normalize(values, network).Invalid? ==>
      exists k :: 0 <= k < |values| && IsFirstNone(values, k, network)
        && Normalize(values, network).text == Strip(values[k])
    decreases |values|
  {
    if values != [] {
      var init, last := values[..|values| - 1], values[|values| - 1];
      RefusedExactly(init, network);
      NoneSnoc(init, last, network);
      assert values == init + [last];
      if Normalize(init, network).Invalid? {
        var k: nat :| k < |init| && IsFirstNone(init, k, network) && Normalize(init, network).text == Strip(init[k]);
        assert IsFirstNone(values, k, network) && values[k] == init[k];
      } else if IsNone(values, |init|, network) {
        assert IsFirstNone(values, |init|, network);
      }
    }
  }

  lemma NoneSnoc(init: seq<string>, last: string, network: string -> Maybe<string>)
    ensures forall k: nat :: k < |init| ==> (IsNone(init, k, network) <==> IsNone(init + [last], k, network))
    ensures forall k: nat :: k < |init| && IsFirstNone(init, k, network) ==> IsFirstNone(init + [last], k, network)
  {
  }

  /** Value `k` names network `c`, and `d` is not named before or there. */
  predicate NamedFirst(values: seq<string>, k: nat, network: string -> Maybe<string>, c: string, d: string)
    requires k < |values|
  {
    Names(values, k, network, c) && forall m :: 0 <= m <= k ==> !Names(values, m, network, d)
  }

  /** The networks stand in the order in which the values first name them. */
  lemma {:induction false} NormalizedInOrder(values: seq<string>, network: string -> Maybe<string>, i: nat, j: nat)
    requires Normalize(values, network).Cidrs? && i < j < |Normalize(values, network).cidrs|
    ensures var cidrs := Normalize(values, network).cidrs;
      exists k :: 0 <= k < |values| && NamedFirst(values, k, network, cidrs[i], cidrs[j])
    decreases |values|
  {
    var init, cidrs := values[..|values| - 1], Normalize(values, network).cidrs;
    var c, d := cidrs[i], cidrs[j];
    var k: nat;
    if j < |Normalize(init, network).cidrs| {
      NormalizedInOrder(init, network, i, j);
      k :| k < |init| && NamedFirst(init, k, network, c, d);
    } else {
      k := NamedBefore(init, network, c, d);
    }
    NamedFirstStays(init, values, k, network, c, d);
  }

  lemma NamedBefore(init: seq<string>, network: string -> Maybe<string>, c: string, d: string) returns (k: nat)
    requires Normalize(init, network).Cidrs?
    requires c in Normalize(init, network).cidrs && d !in Normalize(init, network).cidrs
    ensures k < |init| && NamedFirst(init, k, network, c, d)
  {
    NormalizedAreNetworks(init, network, c);
    NormalizedAreNetworks(init, network, d);
    k :| k < |init| && Names(init, k, network, c);
  }

  lemma NamedFirstStays(init: seq<string>, all: seq<string>, k: nat, network: string -> Maybe<string>,
                        c: string, d: string)
    requires init <= all && k < |init| && NamedFirst(init, k, network, c, d)
    ensures NamedFirst(all, k, network, c, d)
  {
    forall m: nat | m <= k
      ensures !Names(all, m, network, d)
    {
      assert !Names(init, m, network, d);
    }
  }

  // ---------- what the quoting of JSON says ----------

  function HexValue(c: char): Maybe<nat>
  {
    if '0' <= c <= '9' then Some(c as int - '0' as int)
    else if 'a' <= c <= 'f' then Some(10 + c as int - 'a' as int)
    else None
  }

  /** The number that hexadecimal digits stand for. */
  function HexNumber(s: string): Maybe<nat>
  {
    if s == "" then Some(0)
    else
      match (HexNumber(s[..|s| - 1]), HexValue(s[|s| - 1]))
      case (Some(high), Some(digit)) => Some(high * 16 + digit)
      case _ => None
  }

  /** The 16 bits that a backslash, a "u" and four hexadecimal digits stand for. */
  function CodeUnit(s: string): Maybe<nat>
    requires |s| == 6
  {
    if s[..2] == "\\u" then HexNumber(s[2..]) else None
  }

  /** What a backslash and one more character stand for. */
  function ShortMeans(c: char): Maybe<nat>
  {
    match c
    case '"' => Some(34)
    case '\\' => Some(92)
    case 'b' => Some(8)
    case 't' => Some(9)
    case 'n' => Some(10)
    case 'f' => Some(12)
    case 'r' => Some(13)
    case _ => None
  }

  /** A character beyond 16 bits is written as two surrogates. */
  function PairMeans(high: Maybe<nat>, low: Maybe<nat>): Maybe<nat>
  {
    if high.Some? && low.Some? && 0xD800 <= high.value < 0xDC00 <= low.value < 0xE000 then
      Some(0x1_0000 + (high.value - 0xD800) * 0x400 + (low.value - 0xDC00))
    else None
  }

  /** What a character of a JSON string or an escape in it stands for (section 7 of RFC 8259). */
  function JsonMeans(s: string): Maybe<nat>
  {
    if |s| == 1 then (if s[0] == '"' || s[0] == '\\' then None else Some(s[0] as int))
    else if |s| == 2 then (if s[0] == '\\' then ShortMeans(s[1]) else None)
    else if |s| == 6 then CodeUnit(s)
    else if |s| == 12 then PairMeans(CodeUnit(s[..6]), CodeUnit(s[6..]))
    else None
  }

  lemma HexDigitMeans(n: nat)
    requires n < 16
    ensures HexValue(HexDigit(n)) == Some(n)
  {
  }

  lemma HexNumberSnoc(s: string, high: nat, digit: nat)
    requires HexNumber(s) == Some(high) && digit < 16
    ensures HexNumber(s + [HexDigit(digit)]) == Some(high * 16 + digit)
  {
    HexDigitMeans(digit);
    assert (s + [HexDigit(digit)])[..|s|] == s;
  }

  function Pow16(width: nat): nat
  {
    if width == 0 then 1 else 16 * Pow16(width - 1)
  }

  lemma {:induction false} HexDigitsMean(n: nat, width: nat)
    requires n < Pow16(width)
    ensures HexNumber(HexDigits(n, width)) == Some(n)
  {
    if width > 0 {
      HexDigitsMean(n / 16, width - 1);
      LastDigitMeans(n, width);
    }
  }

  lemma LastDigitMeans(n: nat, width: nat)
    requires width > 0 && HexNumber(HexDigits(n / 16, width - 1)) == Some(n / 16)
    ensures HexNumber(HexDigits(n, width)) == Some(n)
  {
    HexNumberSnoc(HexDigits(n / 16, width - 1), n / 16, n % 16);
  }

  lemma HexEscapeMeans(n: nat)
    requires n < 0x1_0000
    ensures CodeUnit(HexEscape(n)) == Some(n)
  {
    assert Pow16(2) == 0x100;
    HexDigitsMean(n, 4);
    assert HexEscape(n)[2..] == HexDigits(n, 4);
  }

  lemma LongMeans(s: string, t: string, high: nat, low: nat)
    requires |s| == |t| == 6 && high < 0x400 && low < 0x400
    requires CodeUnit(s) == Some(0xD800 + high) && CodeUnit(t) == Some(0xDC00 + low)
    ensures JsonMeans(s + t) == Some(0x1_0000 + high * 0x400 + low)
  {
    assert (s + t)[..6] == s && (s + t)[6..] == t;
  }

  lemma SurrogatesMean(n: nat)
    requires n < 0x10_0000
    ensures JsonMeans(Surrogates(n)) == Some(0x1_0000 + n)
  {
    var high, low := n / 0x400, n % 0x400;
    var s, t := HexEscape(0xD800 + high), HexEscape(0xDC00 + low);
    assert |s| == 6 && CodeUnit(s) == Some(0xD800 + high) by {
      HexEscapeMeans(0xD800 + high);
    }
    assert |t| == 6 && CodeUnit(t) == Some(0xDC00 + low) by {
      HexEscapeMeans(0xDC00 + low);
    }
    LongMeans(s, t, high, low);
  }

  /** The characters that have a short escape. */
  predicate HasShort(c: char)
  {
    c as int in {8, 9, 10, 12, 13, 34, 92}
  }

  lemma ShortEscapeMeans(c: char)
    requires HasShort(c)
    ensures JsonMeans(JsonChar(c)) == Some(c as int)
  {
  }

  lemma OtherMeans(c: char)
    requires !HasShort(c) && c as int < 0x1_0000
    ensures JsonMeans(JsonChar(c)) == Some(c as int)
  {
    if 32 <= c as int < 127 {
      assert JsonChar(c) == [c];
    } else {
      HexEscapeMeans(c as int);
      assert JsonChar(c) == HexEscape(c as int);
    }
  }

  /** Every character is quoted as something that stands for it. */
  lemma JsonCharMeans(c: char)
    ensures JsonMeans(JsonChar(c)) == Some(c as int)
  {
    if HasShort(c) {
      ShortEscapeMeans(c);
    } else if c as int < 0x1_0000 {
      OtherMeans(c);
    } else {
      SurrogatesMean(c as int - 0x1_0000);
    }
  }
}
