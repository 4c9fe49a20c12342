/**
 The part of TOML v1.0.0 that the host registry uses: comments, `[[host]]` headers, and keys with basic strings, decimal
 integers, booleans and arrays of basic strings. `ReadDoc` reads it character by character; anything outside this part
 is an error, as it is for text that is no TOML at all.
 */
module Toml {
  import opened Common

  datatype Value = Str(text: string) | Int(n: int) | Bool(b: bool) | Arr(items: seq<string>)

  type Table = map<string, Value>

  /** A piece of the text read, with what follows it. */
  datatype Reading<+T> = Got(value: T, rest: string) | Bad

  datatype Doc = Ok(tables: seq<Table>) | Err

  // ---------- characters ----------

  /** Control characters other than tab may stand neither in a string nor in a comment. */
  predicate Forbidden(c: char)
  {
    (c < ' ' && c != '\t') || c == '\U{7F}'
  }

  predicate IsKeyChar(c: char)
  {
    'A' <= c <= 'Z' || 'a' <= c <= 'z' || '0' <= c <= '9' || c == '_' || c == '-'
  }

  predicate IsDigit(c: char)
  {
    '0' <= c <= '9'
  }

  predicate Clean(s: string)
  {
    forall i :: 0 <= i < |s| ==> !Forbidden(s[i])
  }

  // ---------- the reader ----------

  function SkipSpace(s: string): (rest: string)
    ensures |rest| <= |s|
  {
    if s != "" && (s[0] == ' ' || s[0] == '\t') then SkipSpace(s[1..]) else s
  }

  /** Also skips line ends, as between the items of an array. */
  function SkipBlank(s: string): (rest: string)
    ensures |rest| <= |s|
  {
    if s != "" && (s[0] == ' ' || s[0] == '\t' || s[0] == '\n') then SkipBlank(s[1..]) else s
  }

  /** The character that a backslash and `c` stand for. */
  function Unescape(c: char): Reading<char>
  {
    if c == '"' then Got('"', "") else if c == '\\' then Got('\\', "")
    else if c == 'n' then Got('\n', "") else if c == 't' then Got('\t', "")
    else if c == 'r' then Got('\r', "") else if c == 'b' then Got('\U{8}', "") else if c == 'f' then Got('\U{C}', "")
    else Bad
  }

  /** A basic string whose opening quote has been read. */
  function ReadString(s: string): (r: Reading<string>)
    ensures r.Got? ==> |r.rest| < |s|
  {
    if s == "" || Forbidden(s[0]) then Bad
    else if s[0] == '"' then Got("", s[1..])
    else if s[0] == '\\' then
      if |s| < 2 || Unescape(s[1]).Bad? then Bad
      else match ReadString(s[2..])
           case Got(text, rest) => Got([Unescape(s[1]).value] + text, rest)
           case Bad => Bad
    else match ReadString(s[1..])
         case Got(text, rest) => Got([s[0]] + text, rest)
         case Bad => Bad
  }

  function KeyRun(s: string): (n: nat)
    ensures n <= |s|
  {
    if s != "" && IsKeyChar(s[0]) then 1 + KeyRun(s[1..]) else 0
  }

  function DigitRun(s: string): (n: nat)
    ensures n <= |s|
    ensures forall i :: 0 <= i < n ==> IsDigit(s[i])
  {
    if s != "" && IsDigit(s[0]) then 1 + DigitRun(s[1..]) else 0
  }

  function DigitValue(c: char): (d: int)
    requires IsDigit(c)
    ensures 0 <= d < 10
  {
    c as int - '0' as int
  }

  function NatOf(digits: string): nat
    requires forall i :: 0 <= i < |digits| ==> IsDigit(digits[i])
  {
    if digits == "" then 0 else NatOf(digits[..|digits| - 1]) * 10 + DigitValue(digits[|digits| - 1])
  }

  /** Decimal digits without a leading zero. */
  function ReadNat(s: string): (r: Reading<nat>)
    ensures r.Got? ==> |r.rest| < |s|
  {
    var n := DigitRun(s);
    if n == 0 || (n > 1 && s[0] == '0') then Bad else Got(NatOf(s[..n]), s[n..])
  }

  function ReadInt(s: string): (r: Reading<int>)
    ensures r.Got? ==> |r.rest| < |s|
  {
    if s != "" && (s[0] == '-' || s[0] == '+') then
      match ReadNat(s[1..])
      case Got(n, rest) =>
        var size: int := n;
        Got(if s[0] == '-' then -size else size, rest)
      case Bad => Bad
    else
      match ReadNat(s)
      case Got(n, rest) => Got(n, rest)
      case Bad => Bad
  }

  /** A basic string with both quotes; three quotes would open a multi-line string, which is not read here. */
  function ReadQuoted(s: string): (r: Reading<string>)
    ensures r.Got? ==> |r.rest| < |s|
  {
    if s == "" || s[0] != '"' || "\"\"\"" <= s then Bad else ReadString(s[1..])
  }

  /** The items of an array whose opening bracket has been read. */
  function ReadItems(s: string): (r: Reading<seq<string>>)
    ensures r.Got? ==> |r.rest| < |s|
    decreases |s|
  {
    var s1 := SkipBlank(s);
    if s1 != "" && s1[0] == ']' then Got([], s1[1..])
    else
      match ReadQuoted(s1)
      case Bad => Bad
      case Got(item, rest) =>
        var s2 := SkipBlank(rest);
        if s2 != "" && s2[0] == ']' then Got([item], s2[1..])
        else if s2 != "" && s2[0] == ',' then
          match ReadItems(s2[1..])
          case Got(items, rest2) => Got([item] + items, rest2)
          case Bad => Bad
        else Bad
  }

  function ReadValue(s: string): (r: Reading<Value>)
    ensures r.Got? ==> |r.rest| < |s|
  {
    if s == "" then Bad
    else if s[0] == '"' then
      match ReadQuoted(s) case Got(text, rest) => Got(Str(text), rest) case Bad => Bad
    else if s[0] == '[' then
      match ReadItems(s[1..]) case Got(items, rest) => Got(Arr(items), rest) case Bad => Bad
    else if "true" <= s then Got(Bool(true), s[4..])
    else if "false" <= s then Got(Bool(false), s[5..])
    else
      match ReadInt(s) case Got(n, rest) => Got(Int(n), rest) case Bad => Bad
  }

  /** Nothing but space may stand between a value or header and the end of its line or a comment. */
  predicate AtLineEnd(s: string)
  {
    var s1 := SkipSpace(s);
    s1 == "" || s1[0] == '\n' || s1[0] == '#'
  }

  function SkipComment(s: string): (r: Reading<()>)
    ensures r.Got? ==> |r.rest| <= |s|
  {
    if s == "" || s[0] == '\n' then Got((), s)
    else if Forbidden(s[0]) then Bad
    else SkipComment(s[1..])
  }

  /** A key, an equals sign and a value. */
  function ReadPair(s: string): (r: Reading<(string, Value)>)
    ensures r.Got? ==> |r.rest| < |s|
  {
    var n := KeyRun(s);
    var s1 := SkipSpace(s[n..]);
    if n == 0 || s1 == "" || s1[0] != '=' then Bad
    else
      match ReadValue(SkipSpace(s1[1..]))
      case Bad => Bad
      case Got(v, rest) => if AtLineEnd(rest) then Got((s[..n], v), rest) else Bad
  }

  const HOST_HEADER: string := "[[host]]"

  /** A whole document, given the tables read so far. A key that is already in its table is an error. */
  function ReadDoc(s: string, tables: seq<Table>): Doc
    decreases |s|
  {
    if s == "" then Ok(tables)
    else if s[0] == ' ' || s[0] == '\t' || s[0] == '\n' then ReadDoc(s[1..], tables)
    else if s[0] == '#' then
      match SkipComment(s[1..]) case Got(_, rest) => ReadDoc(rest, tables) case Bad => Err
    else if HOST_HEADER <= s then
      if AtLineEnd(s[8..]) then ReadDoc(s[8..], tables + [map[]]) else Err
    else
      match ReadPair(s)
      case Bad => Err
      case Got(pair, rest) =>
        if tables == [] || pair.0 in tables[|tables| - 1] then Err
        else ReadDoc(rest, tables[|tables| - 1 := tables[|tables| - 1][pair.0 := pair.1]])
  }

  // ---------- the printer ----------

  /** Python's `text.replace(old, new)` for a single character. */
  function Replace(text: string, old_: char, new_: string): string
  {
    if text == "" then ""
    else (if text[0] == old_ then new_ else [text[0]]) + Replace(text[1..], old_, new_)
  }

  function TomlString(text: string): string
  {
    "\"" + Replace(Replace(text, '\\', "\\\\"), '"', "\\\"") + "\""
  }

  /** Both replacements at once, character by character. */
  function Escape(text: string): string
  {
    if text == "" then "" else EscapeChar(text[0]) + Escape(text[1..])
  }

  function EscapeChar(c: char): string
  {
    if c == '\\' then "\\\\" else if c == '"' then "\\\"" else [c]
  }

  lemma {:induction false} ReplaceConcat(a: string, b: string, old_: char, new_: string)
    ensures Replace(a + b, old_, new_) == Replace(a, old_, new_) + Replace(b, old_, new_)
    decreases |a|
  {
    if a == "" {
      assert a + b == b;
    } else {
      assert (a + b)[1..] == a[1..] + b;
      ReplaceConcat(a[1..], b, old_, new_);
    }
  }

  /** The two replacements one after the other do not get in each other's way. */
  lemma {:induction false} ReplacesEscape(text: string)
    ensures Replace(Replace(text, '\\', "\\\\"), '"', "\\\"") == Escape(text)
    decreases |text|
  {
    if text != "" {
      var first := if text[0] == '\\' then "\\\\" else [text[0]];
      ReplaceConcat(first, Replace(text[1..], '\\', "\\\\"), '"', "\\\"");
      ReplaceOne(text[0]);
      ReplacesEscape(text[1..]);
    }
  }

  lemma ReplaceOne(c: char)
    ensures Replace(if c == '\\' then "\\\\" else [c], '"', "\\\"") == EscapeChar(c)
  {
    if c == '\\' {
      ReplaceConcat("\\", "\\", '"', "\\\"");
      assert "\\" + "\\" == "\\\\";
    }
  }

  function Digits(n: nat): (s: string)
    ensures s != "" && forall i :: 0 <= i < |s| ==> IsDigit(s[i])
    ensures s[0] == '0' ==> n == 0 && |s| == 1
  {
    if n < 10 then [(n + '0' as int) as char] else Digits(n / 10) + [(n % 10 + '0' as int) as char]
  }

  function PrintInt(n: int): string
  {
    if n < 0 then "-" + Digits(-n) else Digits(n)
  }

  function JoinItems(items: seq<string>): string
  {
    if items == [] then ""
    else if |items| == 1 then TomlString(items[0])
    else TomlString(items[0]) + (", " + JoinItems(items[1..]))
  }

  function PrintValue(v: Value): string
  {
    match v
    case Str(text) => TomlString(text)
    case Int(n) => PrintInt(n)
    case Bool(b) => if b then "true" else "false"
    case Arr(items) => "[" + (JoinItems(items) + "]")
  }

  function PrintPair(key: string, v: Value): string
  {
    key + (" = " + (PrintValue(v) + "\n"))
  }

  // ---------- what is printed reads back ----------

  predicate CleanValue(v: Value)
  {
    match v
    case Str(text) => Clean(text)
    case Arr(items) => forall i :: 0 <= i < |items| ==> Clean(items[i])
    case _ => true
  }

  /** One escaped character in front of a string. */
  lemma ReadEscapedChar(c: char, more: string)
    ensures ReadString(EscapeChar(c) + more)
         == if Forbidden(c) then Bad
            else match ReadString(more) case Got(text, rest) => Got([c] + text, rest) case Bad => Bad
  {
    var s := EscapeChar(c) + more;
    assert s[|EscapeChar(c)|..] == more;
    if |EscapeChar(c)| == 2 {
      assert s[2..] == more;
      assert Unescape(s[1]) == Got(c, "");
    } else {
      assert s[1..] == more;
    }
  }

  lemma {:induction false} StringReadsBack(text: string, rest: string)
    ensures ReadString(Escape(text) + ("\"" + rest)) == if Clean(text) then Got(text, rest) else Bad
    decreases |text|
  {
    var tail := "\"" + rest;
    if text == "" {
      assert Escape(text) + tail == tail && tail[1..] == rest;
    } else {
      var more := Escape(text[1..]) + tail;
      StringReadsBack(text[1..], rest);
      ReadEscapedChar(text[0], more);
      assert Escape(text) + tail == EscapeChar(text[0]) + more;
      assert Clean(text) <==> !Forbidden(text[0]) && Clean(text[1..]);
      assert text == [text[0]] + text[1..];
    }
  }

  lemma TomlStringShape(text: string, rest: string)
    ensures TomlString(text) + rest == "\"" + (Escape(text) + ("\"" + rest))
  {
    ReplacesEscape(text);
  }

  /** A printed string is not mistaken for the opening of a multi-line string, as long as no quote follows it. */
  lemma NotTriple(text: string, rest: string)
    requires rest != "" && rest[0] != '"'
    ensures !("\"\"\"" <= "\"" + (Escape(text) + ("\"" + rest)))
  {
    var s := "\"" + (Escape(text) + ("\"" + rest));
    if text == "" {
      assert Escape(text) + ("\"" + rest) == "\"" + rest;
      assert s[2] == rest[0];
    } else {
      assert s[1] == EscapeChar(text[0])[0];
    }
  }

  lemma QuotedReadsBack(text: string, rest: string)
    requires rest != "" && rest[0] != '"'
    ensures ReadQuoted(TomlString(text) + rest) == if Clean(text) then Got(text, rest) else Bad
  {
    TomlStringShape(text, rest);
    NotTriple(text, rest);
    var body := Escape(text) + ("\"" + rest);
    assert ("\"" + body)[1..] == body;
    StringReadsBack(text, rest);
  }

  lemma QuotedStart(text: string, rest: string)
    ensures TomlString(text) + rest != "" && (TomlString(text) + rest)[0] == '"'
  {
  }

  lemma SkipsNothing(s: string)
    requires s != "" && s[0] != ' ' && s[0] != '\t'
    ensures SkipSpace(s) == s
    ensures s[0] != '\n' ==> SkipBlank(s) == s
  {
  }

  predicate CleanItems(items: seq<string>)
  {
    forall i :: 0 <= i < |items| ==> Clean(items[i])
  }

  lemma {:induction false} ItemsReadBack(items: seq<string>, rest: string)
    ensures ReadItems(JoinItems(items) + ("]" + rest)) == if CleanItems(items) then Got(items, rest) else Bad
    decreases |items|
  {
    var close := "]" + rest;
    assert close[1..] == rest;
    if items == [] {
      assert JoinItems(items) + close == close;
      SkipsNothing(close);
    } else if |items| == 1 {
      ReadLastItem(items[0], rest);
      assert items == [items[0]];
    } else {
      ItemsReadBack(items[1..], rest);
      ItemsStep(items, rest);
    }
  }

  lemma JoinFirst(items: seq<string>, close: string)
    requires |items| > 1
    ensures JoinItems(items) + close == TomlString(items[0]) + (", " + (JoinItems(items[1..]) + close))
  {
    Associates(TomlString(items[0]), ", " + JoinItems(items[1..]), close);
    Associates(", ", JoinItems(items[1..]), close);
  }

  lemma ItemsStep(items: seq<string>, rest: string)
    requires |items| > 1
    requires ReadItems(JoinItems(items[1..]) + ("]" + rest))
          == if CleanItems(items[1..]) then Got(items[1..], rest) else Bad
    ensures ReadItems(JoinItems(items) + ("]" + rest)) == if CleanItems(items) then Got(items, rest) else Bad
  {
    CleanSplit(items);
    JoinFirst(items, "]" + rest);
    MoreItems(items[1..], "]" + rest);
    ReadFirstItem(items[0], JoinItems(items[1..]) + ("]" + rest));
  }

  lemma CleanSplit(items: seq<string>)
    requires items != []
    ensures CleanItems(items) <==> Clean(items[0]) && CleanItems(items[1..])
    ensures items == [items[0]] + items[1..]
  {
  }

  lemma ReadLastItem(item: string, rest: string)
    ensures ReadItems(TomlString(item) + ("]" + rest)) == if Clean(item) then Got([item], rest) else Bad
  {
    var close := "]" + rest;
    assert close[1..] == rest;
    QuotedStart(item, close);
    QuotedReadsBack(item, close);
    SkipsNothing(TomlString(item) + close);
    SkipsNothing(close);
  }

  /** The items behind a comma, which itself is followed by a space. */
  lemma ReadFirstItem(item: string, more: string)
    requires SkipBlank(more) == more
    ensures ReadItems(TomlString(item) + (", " + more))
         == if !Clean(item) then Bad
            else match ReadItems(more) case Got(items, rest) => Got([item] + items, rest) case Bad => Bad
  {
    var tail := ", " + more;
    QuotedStart(item, tail);
    QuotedReadsBack(item, tail);
    SkipsNothing(TomlString(item) + tail);
    SkipsNothing(tail);
    assert tail[1..] == " " + more && (" " + more)[1..] == more;
    assert SkipBlank(" " + more) == more;
  }

  lemma MoreItems(items: seq<string>, close: string)
    requires items != []
    ensures SkipBlank(JoinItems(items) + close) == JoinItems(items) + close
  {
    assert (JoinItems(items) + close)[0] == '"';
  }

  lemma {:induction false} DigitRunOfDigits(digits: string, rest: string)
    requires forall i :: 0 <= i < |digits| ==> IsDigit(digits[i])
    requires rest == "" || !IsDigit(rest[0])
    ensures DigitRun(digits + rest) == |digits|
    decreases |digits|
  {
    if digits == "" {
      assert digits + rest == rest;
    } else {
      assert (digits + rest)[1..] == digits[1..] + rest;
      DigitRunOfDigits(digits[1..], rest);
    }
  }

  lemma {:induction false} NatOfDigits(n: nat)
    ensures NatOf(Digits(n)) == n
  {
    var s := Digits(n);
    if n < 10 {
      assert s[..0] == "" && NatOf(s[..0]) == 0;
    } else {
      NatOfDigits(n / 10);
      assert s[..|s| - 1] == Digits(n / 10);
    }
  }

  lemma NatReadsBack(n: nat, rest: string)
    requires rest == "" || !IsDigit(rest[0])
    ensures ReadNat(Digits(n) + rest) == Got(n, rest)
  {
    var s := Digits(n) + rest;
    DigitRunOfDigits(Digits(n), rest);
    NatOfDigits(n);
    assert s[..|Digits(n)|] == Digits(n) && s[|Digits(n)|..] == rest;
    assert s[0] == Digits(n)[0];
  }

  lemma NegativeReadsBack(n: nat, rest: string)
    requires rest == "" || !IsDigit(rest[0])
    ensures ReadInt("-" + (Digits(n) + rest)) == Got(-(n as int), rest)
  {
    var body := Digits(n) + rest;
    NatReadsBack(n, rest);
    assert ("-" + body)[1..] == body;
  }

  lemma NonNegativeReadsBack(n: nat, rest: string)
    requires rest == "" || !IsDigit(rest[0])
    ensures ReadInt(Digits(n) + rest) == Got(n, rest)
  {
    NatReadsBack(n, rest);
    assert IsDigit((Digits(n) + rest)[0]);
  }

  lemma IntReadsBack(n: int, rest: string)
    requires rest == "" || !IsDigit(rest[0])
    ensures ReadInt(PrintInt(n) + rest) == Got(n, rest)
    ensures IsDigit(PrintInt(n)[0]) || PrintInt(n)[0] == '-'
  {
    if n < 0 {
      NegativeReadsBack(-n, rest);
      assert PrintInt(n) + rest == "-" + (Digits(-n) + rest);
    } else {
      NonNegativeReadsBack(n, rest);
    }
  }

  lemma StrReadsBack(text: string, rest: string)
    requires rest != "" && rest[0] == '\n'
    ensures ReadValue(PrintValue(Str(text)) + rest) == if Clean(text) then Got(Str(text), rest) else Bad
  {
    QuotedStart(text, rest);
    QuotedReadsBack(text, rest);
  }

  lemma IntValueReadsBack(n: int, rest: string)
    requires rest != "" && rest[0] == '\n'
    ensures ReadValue(PrintValue(Int(n)) + rest) == Got(Int(n), rest)
  {
    IntReadsBack(n, rest);
    var s := PrintInt(n) + rest;
    assert s[0] == PrintInt(n)[0];
    assert s[0] != 't' && "true"[0] == 't';
    assert s[0] != 'f' && "false"[0] == 'f';
  }

  lemma BoolReadsBack(b: bool, rest: string)
    ensures ReadValue(PrintValue(Bool(b)) + rest) == Got(Bool(b), rest)
  {
    var s := PrintValue(Bool(b)) + rest;
    if b {
      assert "true" <= s && s[4..] == rest;
    } else {
      assert s[0] == 'f' && "true"[0] == 't';
      assert "false" <= s && s[5..] == rest;
    }
  }

  lemma ArrReadsBack(items: seq<string>, rest: string)
    ensures ReadValue(PrintValue(Arr(items)) + rest) == if CleanItems(items) then Got(Arr(items), rest) else Bad
  {
    var body := JoinItems(items) + ("]" + rest);
    ItemsReadBack(items, rest);
    assert PrintValue(Arr(items)) + rest == "[" + body;
    assert ("[" + body)[1..] == body;
  }

  /** A printed value at the end of a line is read back, or rejected if it holds a character that TOML forbids. */
  lemma ValueReadsBack(v: Value, rest: string)
    requires rest != "" && rest[0] == '\n'
    ensures ReadValue(PrintValue(v) + rest) == if CleanValue(v) then Got(v, rest) else Bad
  {
    match v
    case Str(text) => StrReadsBack(text, rest);
    case Int(n) => IntValueReadsBack(n, rest);
    case Bool(b) => BoolReadsBack(b, rest);
    case Arr(items) => ArrReadsBack(items, rest);
  }

  lemma ValueStart(v: Value)
    ensures PrintValue(v) != "" && PrintValue(v)[0] != ' ' && PrintValue(v)[0] != '\t'
  {
    match v
    case Int(n) => assert n >= 0 ==> IsDigit(Digits(n)[0]);
    case Str(text) => assert TomlString(text)[0] == '"';
    case Bool(b) =>
    case Arr(items) => assert PrintValue(v)[0] == '[';
  }

  predicate IsKey(key: string)
  {
    key != "" && forall i :: 0 <= i < |key| ==> IsKeyChar(key[i])
  }

  lemma {:induction false} KeyRunOfKey(key: string, rest: string)
    requires forall i :: 0 <= i < |key| ==> IsKeyChar(key[i])
    requires rest == "" || !IsKeyChar(rest[0])
    ensures KeyRun(key + rest) == |key|
    decreases |key|
  {
    if key == "" {
      assert key + rest == rest;
    } else {
      assert (key + rest)[1..] == key[1..] + rest;
      KeyRunOfKey(key[1..], rest);
    }
  }

  /** The key, the equals sign and the space around it. */
  lemma PairReadsKey(key: string, text: string)
    requires IsKey(key) && text != "" && text[0] != ' ' && text[0] != '\t'
    ensures var s := key + (" = " + text);
      && KeyRun(s) == |key| && s[..|key|] == key
      && SkipSpace(s[|key|..]) == "= " + text
      && SkipSpace(("= " + text)[1..]) == text
  {
    var tail := " = " + text;
    KeyRunOfKey(key, tail);
    assert (key + tail)[|key|..] == tail;
    assert tail[1..] == "= " + text;
    SkipsNothing("= " + text);
    assert ("= " + text)[1..] == " " + text && (" " + text)[1..] == text;
    SkipsNothing(text);
  }

  lemma PairReadsBack(key: string, v: Value, rest: string)
    requires IsKey(key)
    ensures ReadPair(PrintPair(key, v) + rest) == if CleanValue(v) then Got((key, v), "\n" + rest) else Bad
  {
    var end := "\n" + rest;
    var text := PrintValue(v) + end;
    assert PrintPair(key, v) + rest == key + (" = " + text);
    ValueStart(v);
    PairReadsKey(key, text);
    ValueReadsBack(v, end);
    SkipsNothingAtLineEnd(rest);
  }

  lemma SkipsNothingAtLineEnd(rest: string)
    ensures AtLineEnd("\n" + rest)
  {
    SkipsNothing("\n" + rest);
  }

  /** A line that begins like a key is read as a pair. */
  lemma DocTakesPair(s: string, tables: seq<Table>, key: string, v: Value, rest: string)
    requires s != "" && IsKeyChar(s[0]) && ReadPair(s) == Got((key, v), rest)
    requires tables != [] && key !in tables[|tables| - 1]
    ensures ReadDoc(s, tables) == ReadDoc(rest, tables[|tables| - 1 := tables[|tables| - 1][key := v]])
  {
    assert HOST_HEADER[0] == '[';
  }

  lemma DocRefusesPair(s: string, tables: seq<Table>)
    requires s != "" && IsKeyChar(s[0]) && ReadPair(s) == Bad
    ensures ReadDoc(s, tables) == Err
  {
    assert HOST_HEADER[0] == '[';
  }

  /**
   A printed pair puts its value into the last table; a forbidden character in it makes the whole document an error.
   */
  lemma DocReadsPair(key: string, v: Value, rest: string, before: seq<Table>, last: Table)
    requires IsKey(key) && key !in last
    ensures ReadDoc(PrintPair(key, v) + rest, before + [last])
         == if CleanValue(v) then ReadDoc(rest, before + [last[key := v]]) else Err
  {
    var s := PrintPair(key, v) + rest;
    LastTable(before, last, last[key := v]);
    PairReadsBack(key, v, rest);
    assert s[0] == key[0] && IsKeyChar(key[0]);
    if CleanValue(v) {
      DocTakesPair(s, before + [last], key, v, "\n" + rest);
      DocReadsBlank(rest, before + [last[key := v]]);
    } else {
      DocRefusesPair(s, before + [last]);
    }
  }

  lemma LastTable(before: seq<Table>, last: Table, new_: Table)
    ensures (before + [last])[|before|] == last
    ensures (before + [last])[|before| := new_] == before + [new_]
  {
  }

  lemma DocReadsHeader(rest: string, tables: seq<Table>)
    ensures ReadDoc(HOST_HEADER + ("\n" + rest), tables) == ReadDoc(rest, tables + [map[]])
  {
    var end := "\n" + rest;
    var s := HOST_HEADER + end;
    assert s[8..] == end && end[1..] == rest;
    SkipsNothingAtLineEnd(rest);
  }

  lemma DocReadsBlank(rest: string, tables: seq<Table>)
    ensures ReadDoc("\n" + rest, tables) == ReadDoc(rest, tables)
  {
    assert ("\n" + rest)[1..] == rest;
  }

  lemma {:induction false} CommentReads(comment: string, rest: string)
    requires Clean(comment) && '\n' !in comment
    ensures SkipComment(comment + ("\n" + rest)) == Got((), "\n" + rest)
    decreases |comment|
  {
    var end := "\n" + rest;
    if comment == "" {
      assert comment + end == end;
    } else {
      assert (comment + end)[1..] == comment[1..] + end;
      CommentReads(comment[1..], rest);
    }
  }

  lemma DocReadsComment(comment: string, rest: string, tables: seq<Table>)
    requires Clean(comment) && '\n' !in comment
    ensures ReadDoc("#" + (comment + ("\n" + rest)), tables) == ReadDoc(rest, tables)
  {
    var s := "#" + (comment + ("\n" + rest));
    assert s[1..] == comment + ("\n" + rest);
    CommentReads(comment, rest);
    DocReadsBlank(rest, tables);
  }

  // ---------- what else the reader takes and refuses ----------

  /** The characters that may not stand in a string: the control characters, but tab may. */
  lemma ForbiddenAre(c: char)
    ensures Forbidden(c) <==> (c as int < 32 && c as int != 9) || c as int == 127
  {
  }

  /** A backslash and a letter stand for one character. */
  lemma EscapesStandFor(rest: string)
    ensures ReadString("\\\"" + ("\"" + rest)) == Got("\"", rest)
    ensures ReadString("\\\\" + ("\"" + rest)) == Got("\\", rest)
    ensures ReadString("\\n" + ("\"" + rest)) == Got([10 as char], rest)
    ensures ReadString("\\t" + ("\"" + rest)) == Got([9 as char], rest)
    ensures ReadString("\\r" + ("\"" + rest)) == Got([13 as char], rest)
    ensures ReadString("\\b" + ("\"" + rest)) == Got([8 as char], rest)
    ensures ReadString("\\f" + ("\"" + rest)) == Got([12 as char], rest)
  {
    EscapeReads('"', '"', rest);
    EscapeReads('\\', '\\', rest);
    EscapeReads('n', 10 as char, rest);
    EscapeReads('t', 9 as char, rest);
    EscapeReads('r', 13 as char, rest);
    EscapeReads('b', 8 as char, rest);
    EscapeReads('f', 12 as char, rest);
  }

  lemma EscapeReads(c: char, meaning: char, rest: string)
    requires Unescape(c) == Got(meaning, "")
    ensures ReadString(['\\', c] + ("\"" + rest)) == Got([meaning], rest)
  {
    var s := ['\\', c] + ("\"" + rest);
    assert s[2..] == "\"" + rest && ("\"" + rest)[1..] == rest;
    assert [meaning] + "" == [meaning];
  }

  /** No other letter does. */
  lemma OtherEscapesAreBad(c: char, rest: string)
    requires c !in "\"\\ntrbf"
    ensures ReadString(['\\', c] + rest) == Bad
  {
    assert "\"\\ntrbf" == ['"', '\\', 'n', 't', 'r', 'b', 'f'];
  }

  /** A key that its table has already makes the document an error, and so does a key in front of all tables. */
  lemma KeyTwiceIsError(s: string, tables: seq<Table>, key: string, v: Value, rest: string)
    requires s != "" && IsKeyChar(s[0]) && ReadPair(s) == Got((key, v), rest)
    requires tables == [] || key in tables[|tables| - 1]
    ensures ReadDoc(s, tables) == Err
  {
    assert HOST_HEADER[0] == '[';
  }

  /** Only bare keys are read: letters, digits, underscores and dashes. */
  lemma KeyCharsAre(c: char)
    ensures IsKeyChar(c) <==>
      var n := c as int; 48 <= n <= 57 || 65 <= n <= 90 || n == 95 || 97 <= n <= 122 || n == 45
  {
  }
}
