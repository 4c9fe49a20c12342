/**
 Bordered lines of a terminal box. The theorems give, for every width and both character sets, exactly what is visible
 of each line, and from that the width: the terminal's width, but never less than the two border characters.
 */
module BoxLayout {
  import opened AnsiText
  import opened Common

  const PURPLE: string := Sgr("38;5;93")
  const PURPLE_BOLD: string := Sgr("1;38;5;93")
  const GRAY: string := Sgr("38;5;245")

  // ---------- symbols, in Unicode or plain ASCII ----------

  function Arrow(ascii: bool): string { if ascii then "->" else "\U{2192}" }
  function TopLeft(ascii: bool): char { if ascii then '+' else '\U{256D}' }
  function TopRight(ascii: bool): char { if ascii then '+' else '\U{256E}' }
  function Horizontal(ascii: bool): char { if ascii then '-' else '\U{2500}' }
  function Vertical(ascii: bool): char { if ascii then '|' else '\U{2502}' }
  function LeftMiddle(ascii: bool): char { if ascii then '+' else '\U{251C}' }
  function RightMiddle(ascii: bool): char { if ascii then '+' else '\U{2524}' }

  /** A character `n` times; not at all if `n` is negative. */
  function Repeat(c: char, n: int): (s: string)
    ensures |s| == Max(n, 0)
    ensures forall i :: 0 <= i < |s| ==> s[i] == c
  {
    seq(Max(n, 0), _ => c)
  }

  // ---------- what a line must show ----------

  /** `text` cut or filled up with spaces to `n` characters. */
  function Fitted(text: string, n: int): (s: string)
    ensures |s| == Max(n, 0)
  {
    Take(text, n) + Repeat(' ', n - |text|)
  }

  /** A line of the box with `text` between its borders. */
  function Boxed(text: string, w: int, ascii: bool): (s: string)
    ensures |s| == Max(w, 2)
  {
    [Vertical(ascii)] + Fitted(text, w - 2) + [Vertical(ascii)]
  }

  /** A horizontal rule between two corner characters. */
  function Rule(left: char, right: char, w: int, ascii: bool): (s: string)
    ensures |s| == Max(w, 2)
  {
    [left] + Repeat(Horizontal(ascii), w - 2) + [right]
  }

  /** A rule with `caption` in the middle, the odd character to its right. */
  function TitledRule(caption: string, w: int, ascii: bool): (s: string)
    ensures |s| == Max(w, 2)
  {
    var shown := Take(caption, w - 2);
    var free := Max(w - 2, 0) - |shown|;
    [LeftMiddle(ascii)] + Repeat(Horizontal(ascii), free / 2) + shown
    + Repeat(Horizontal(ascii), free - free / 2) + [RightMiddle(ascii)]
  }

  // ---------- putting pieces together ----------

  /** `text` is well formed and shows `visible`. */
  ghost predicate Shows(text: string, visible: string)
  {
    WellFormed(text) && Strip(text) == visible
  }

  lemma ShowsConcat(a: string, va: string, b: string, vb: string)
    requires Shows(a, va) && Shows(b, vb)
    ensures Shows(a + b, va + vb)
  {
    StripConcat(a, b);
  }

  lemma PurpleIsInvisible()
    ensures Shows(PURPLE, "")
  {
    SgrIsInvisible("38;5;93");
  }

  lemma PurpleBoldIsInvisible()
    ensures Shows(PURPLE_BOLD, "")
  {
    SgrIsInvisible("1;38;5;93");
  }

  lemma GrayIsInvisible()
    ensures Shows(GRAY, "")
  {
    SgrIsInvisible("38;5;245");
  }

  /** A colour in front of a text changes nothing that is visible. */
  lemma Coloured(colour: string, text: string, visible: string)
    requires Shows(colour, "") && Shows(text, visible)
    ensures Shows(colour + text, visible)
  {
    ShowsConcat(colour, "", text, visible);
    assert "" + visible == visible;
  }

  /** Plain characters in front of a text are visible in front of it. */
  lemma Prefixed(plain: string, text: string, visible: string)
    requires ESC !in plain && Shows(text, visible)
    ensures Shows(plain + text, plain + visible)
  {
    PlainText(plain);
    ShowsConcat(plain, plain, text, visible);
  }

  /** A colour with its plain text and the reset behind it. */
  lemma ColouredPlain(colour: string, plain: string, reset: string)
    requires Shows(colour, "") && ESC !in plain && Shows(reset, "")
    ensures Shows(colour + (plain + reset), plain)
  {
    Prefixed(plain, reset, "");
    assert plain + "" == plain;
    Coloured(colour, plain + reset, plain);
  }

  /** Plain text, coloured in front, with more text behind it. */
  lemma ColouredPrefix(colour: string, plain: string, text: string, visible: string)
    requires Shows(colour, "") && ESC !in plain && Shows(text, visible)
    ensures Shows(colour + (plain + text), plain + visible)
  {
    Prefixed(plain, text, visible);
    Coloured(colour, plain + text, plain + visible);
  }

  /** The padding and the right border of a line. */
  function LineEnd(pad: string, colour: string, border: string, reset: string): string
  {
    pad + (colour + (border + reset))
  }

  lemma LineEndShows(pad: string, colour: string, border: string, reset: string)
    requires Shows(colour, "") && Shows(reset, "") && ESC !in pad && ESC !in border
    ensures Shows(LineEnd(pad, colour, border, reset), pad + border)
  {
    ColouredPlain(colour, border, reset);
    Prefixed(pad, colour + (border + reset), border);
  }

  /** A whole line: left border, text, padding, right border. */
  function LineOf(text: string, pad: string, colour: string, border: string, reset: string): string
  {
    colour + (border + (reset + (text + LineEnd(pad, colour, border, reset))))
  }

  lemma LineOfShows(text: string, visible: string, pad: string, colour: string, border: string, reset: string)
    requires Shows(text, visible)
    requires Shows(colour, "") && Shows(reset, "") && ESC !in pad && ESC !in border
    ensures Shows(LineOf(text, pad, colour, border, reset), border + (visible + (pad + border)))
  {
    LineEndShows(pad, colour, border, reset);
    var end := LineEnd(pad, colour, border, reset);
    ShowsConcat(text, visible, end, pad + border);
    Coloured(reset, text + end, visible + (pad + border));
    ColouredPrefix(colour, border, reset + (text + end), visible + (pad + border));
  }

  /** A line is boxed text as soon as its content shows that text cut to the inner width. */
  lemma BoxedLineShows(shown: string, text: string, w: int, ascii: bool, colour: string, reset: string)
    requires Shows(shown, Take(text, w - 2)) && Shows(colour, "") && Shows(reset, "")
    ensures Shows(LineOf(shown, Repeat(' ', w - 2 - |text|), colour, [Vertical(ascii)], reset), Boxed(text, w, ascii))
  {
    var border, pad := [Vertical(ascii)], Repeat(' ', w - 2 - |text|);
    LineOfShows(shown, Take(text, w - 2), pad, colour, border, reset);
    assert border + (Take(text, w - 2) + (pad + border)) == Boxed(text, w, ascii);
  }

  /** Cut and padded content between two vertical borders. */
  function BorderedText(content: string, w: int, ascii: bool): string
  {
    LineOf(Truncated(content, w - 2), Repeat(' ', w - 2 - VisibleLen(content)), PURPLE, [Vertical(ascii)], RESET)
  }

  lemma BorderedInColour(content: string, w: int, ascii: bool, colour: string, reset: string)
    requires WellFormed(content) && Shows(colour, "") && Shows(reset, "")
    ensures Shows(LineOf(Truncated(content, w - 2), Repeat(' ', w - 2 - VisibleLen(content)), colour, [Vertical(ascii)],
                         reset),
                  Boxed(Strip(content), w, ascii))
  {
    TruncateAgreesWithStrip(content, w - 2);
    BoxedLineShows(Truncated(content, w - 2), Strip(content), w, ascii, colour, reset);
  }

  lemma BorderedTextShows(content: string, w: int, ascii: bool)
    ensures WellFormed(content) ==> Shows(BorderedText(content, w, ascii), Boxed(Strip(content), w, ascii))
  {
    if WellFormed(content) {
      PurpleIsInvisible();
      ResetIsInvisible();
      BorderedInColour(content, w, ascii, PURPLE, RESET);
    }
  }

  // ---------- the lines as they are printed ----------

  /** Content between borders. */
  method BorderedLine(content: string, w: int, ascii: bool) returns (out: string)
    ensures out == BorderedText(content, w, ascii)
    ensures WellFormed(content) ==> Shows(out, Boxed(Strip(content), w, ascii))
  {
    var inner := w - 2;
    var shown, contentVis: int := content, VisibleLen(content);
    if contentVis > inner {
      shown := Truncate(content, inner);
      contentVis := inner;
    }
    var pad := Max(0, inner - contentVis);
    assert Repeat(' ', pad) == Repeat(' ', w - 2 - VisibleLen(content));
    BorderedTextShows(content, w, ascii);
    return LineOf(shown, Repeat(' ', pad), PURPLE, [Vertical(ascii)], RESET);
  }

  /** A content line, indented. */
  method Line(text: string, indent: int, w: int, ascii: bool) returns (out: string)
    ensures WellFormed(text) ==> Shows(out, Boxed(Repeat(' ', indent) + Strip(text), w, ascii))
  {
    var prefix := Repeat(' ', indent);
    out := BorderedLine(prefix + text, w, ascii);
    if WellFormed(text) {
      Prefixed(prefix, text, Strip(text));
    }
  }

  /** A divider, with a centred title if there is one. */
  method Divider(title: string, w: int, ascii: bool) returns (out: string)
    ensures WellFormed(title) ==>
      Shows(out, if title == "" then Rule(LeftMiddle(ascii), RightMiddle(ascii), w, ascii)
                 else TitledRule(" " + Strip(title) + " ", w, ascii))
  {
    var inner := w - 2;
    var h := Horizontal(ascii);
    if title == "" {
      out := PURPLE + ([LeftMiddle(ascii)] + Repeat(h, inner) + [RightMiddle(ascii)] + RESET);
      assert Repeat(h, inner) == Repeat(Horizontal(ascii), w - 2);
      PurpleIsInvisible();
      ResetIsInvisible();
      RuleShows(LeftMiddle(ascii), RightMiddle(ascii), w, ascii, PURPLE, RESET);
      return;
    }
    var caption := " " + (title + " ");
    var shown, labelVis: int := caption, VisibleLen(caption);
    if labelVis > inner {
      shown := Truncate(caption, inner);
      labelVis := inner;
    }
    var left := (inner - labelVis) / 2;
    var right := inner - labelVis - left;
    var rightEnd := Repeat(h, right) + [RightMiddle(ascii)];
    var leftEnd := [LeftMiddle(ascii)] + Repeat(h, left);
    out := TitledOf(leftEnd, shown, rightEnd, PURPLE, GRAY, RESET);
    assert leftEnd == LeftHalf(labelVis, w, ascii) && rightEnd == RightHalf(labelVis, w, ascii);
    TitledTextShows(title, w, ascii);
  }

  /** The halves of a divider around a title that takes up `vis` characters. */
  function LeftHalf(vis: int, w: int, ascii: bool): string
  {
    [LeftMiddle(ascii)] + Repeat(Horizontal(ascii), (w - 2 - vis) / 2)
  }

  function RightHalf(vis: int, w: int, ascii: bool): string
  {
    Repeat(Horizontal(ascii), w - 2 - vis - (w - 2 - vis) / 2) + [RightMiddle(ascii)]
  }

  lemma TitledRuleParts(text: string, w: int, ascii: bool)
    ensures var vis := Min(|text|, w - 2);
      LeftHalf(vis, w, ascii) + (Take(text, w - 2) + RightHalf(vis, w, ascii)) == TitledRule(text, w, ascii)
  {
  }

  lemma TitledShownShows(shown: string, text: string, w: int, ascii: bool, colour: string, titleColour: string,
      reset: string)
    requires Shows(shown, Take(text, w - 2))
    requires Shows(colour, "") && Shows(titleColour, "") && Shows(reset, "")
    ensures var vis := Min(|text|, w - 2);
      Shows(TitledOf(LeftHalf(vis, w, ascii), shown, RightHalf(vis, w, ascii), colour, titleColour, reset),
            TitledRule(text, w, ascii))
  {
    var vis := Min(|text|, w - 2);
    TitledRuleParts(text, w, ascii);
    TitledOfShows(LeftHalf(vis, w, ascii), shown, Take(text, w - 2), RightHalf(vis, w, ascii),
                  colour, titleColour, reset);
  }

  /** The divider text for a caption. */
  function TitledText(caption: string, w: int, ascii: bool): string
  {
    var vis := Min(VisibleLen(caption), w - 2);
    TitledOf(LeftHalf(vis, w, ascii), Truncated(caption, w - 2), RightHalf(vis, w, ascii), PURPLE, GRAY, RESET)
  }

  lemma TitledTextShows(title: string, w: int, ascii: bool)
    ensures WellFormed(title) ==>
      Shows(TitledText(" " + (title + " "), w, ascii), TitledRule(" " + Strip(title) + " ", w, ascii))
  {
    if WellFormed(title) {
      var caption := " " + (title + " ");
      LabelShows(title);
      PurpleIsInvisible();
      GrayIsInvisible();
      ResetIsInvisible();
      TruncateAgreesWithStrip(caption, w - 2);
      TitledShownShows(Truncated(caption, w - 2), Strip(caption), w, ascii, PURPLE, GRAY, RESET);
    }
  }

  /** A rule broken by a title in another colour. */
  function TitledOf(left: string, title: string, right: string, colour: string, titleColour: string,
      reset: string): string
  {
    colour + (left + (reset + (titleColour + (title + (colour + (right + reset))))))
  }

  lemma TitledOfShows(left: string, title: string, visible: string, right: string, colour: string,
      titleColour: string, reset: string)
    requires Shows(title, visible) && ESC !in left && ESC !in right
    requires Shows(colour, "") && Shows(titleColour, "") && Shows(reset, "")
    ensures Shows(TitledOf(left, title, right, colour, titleColour, reset), left + (visible + right))
  {
    ColouredPlain(colour, right, reset);
    var end := colour + (right + reset);
    ShowsConcat(title, visible, end, right);
    Coloured(titleColour, title + end, visible + right);
    Coloured(reset, titleColour + (title + end), visible + right);
    ColouredPrefix(colour, left, reset + (titleColour + (title + end)), visible + right);
  }

  lemma LabelShows(text: string)
    requires WellFormed(text)
    ensures Shows(" " + (text + " "), " " + Strip(text) + " ")
  {
    PlainText(" ");
    ShowsConcat(text, Strip(text), " ", " ");
    Prefixed(" ", text + " ", Strip(text) + " ");
    assert " " + (Strip(text) + " ") == " " + Strip(text) + " ";
  }

  lemma RuleShows(left: char, right: char, w: int, ascii: bool, colour: string, reset: string)
    requires left != ESC && right != ESC && Shows(colour, "") && Shows(reset, "")
    ensures Shows(colour + ([left] + Repeat(Horizontal(ascii), w - 2) + [right] + reset), Rule(left, right, w, ascii))
  {
    ColouredPlain(colour, Rule(left, right, w, ascii), reset);
  }

  /** The three lines of a header: the breadcrumb, if there is one, an arrow, and the title between two rules. */
  method Header(title: string, breadcrumb: string, w: int, ascii: bool) returns (top: string, mid: string, low: string)
    ensures Shows(top, Rule(TopLeft(ascii), TopRight(ascii), w, ascii))
    ensures Shows(low, Rule(LeftMiddle(ascii), RightMiddle(ascii), w, ascii))
    ensures WellFormed(title) && WellFormed(breadcrumb) ==>
      Shows(mid, Boxed(if breadcrumb == "" then " " + Strip(title) + " "
                       else " " + Strip(breadcrumb) + " " + (Arrow(ascii) + (" " + Strip(title) + " ")), w, ascii))
  {
    var inner := w - 2;
    var h := Horizontal(ascii);
    var caption := if breadcrumb == "" then " " + (title + " ")
                 else " " + (breadcrumb + " ") + (Arrow(ascii) + (" " + (title + " ")));
    var shown, labelVis: int := caption, VisibleLen(caption);
    if labelVis > inner {
      shown := Truncate(caption, inner);
      labelVis := inner;
    }
    var padding := inner - labelVis;
    top := PURPLE + ([TopLeft(ascii)] + Repeat(h, inner) + [TopRight(ascii)] + RESET);
    mid := LineOf(PURPLE_BOLD + (shown + RESET), Repeat(' ', padding), PURPLE, [Vertical(ascii)], RESET);
    low := PURPLE + ([LeftMiddle(ascii)] + Repeat(h, inner) + [RightMiddle(ascii)] + RESET);
    PurpleIsInvisible();
    ResetIsInvisible();
    RuleShows(TopLeft(ascii), TopRight(ascii), w, ascii, PURPLE, RESET);
    RuleShows(LeftMiddle(ascii), RightMiddle(ascii), w, ascii, PURPLE, RESET);
    if WellFormed(title) && WellFormed(breadcrumb) {
      HeaderLabelShows(title, breadcrumb, ascii);
      HeaderMiddleShows(caption, w, ascii);
    }
  }

  lemma HeaderLabelShows(title: string, breadcrumb: string, ascii: bool)
    requires WellFormed(title) && WellFormed(breadcrumb)
    ensures Shows(" " + (title + " "), " " + Strip(title) + " ")
    ensures Shows(" " + (breadcrumb + " ") + (Arrow(ascii) + (" " + (title + " "))),
                  " " + Strip(breadcrumb) + " " + (Arrow(ascii) + (" " + Strip(title) + " ")))
  {
    LabelShows(title);
    LabelShows(breadcrumb);
    Prefixed(Arrow(ascii), " " + (title + " "), " " + Strip(title) + " ");
    ShowsConcat(" " + (breadcrumb + " "), " " + Strip(breadcrumb) + " ",
                Arrow(ascii) + (" " + (title + " ")), Arrow(ascii) + (" " + Strip(title) + " "));
  }

  lemma CaptionInColour(caption: string, w: int, ascii: bool, colour: string, titleColour: string, reset: string)
    requires WellFormed(caption) && Shows(colour, "") && Shows(titleColour, "") && Shows(reset, "")
    ensures Shows(LineOf(titleColour + (Truncated(caption, w - 2) + reset), Repeat(' ', w - 2 - VisibleLen(caption)),
                         colour, [Vertical(ascii)], reset),
                  Boxed(Strip(caption), w, ascii))
  {
    var shown := Truncated(caption, w - 2);
    TruncateAgreesWithStrip(caption, w - 2);
    ColouredReset(titleColour, shown, Take(Strip(caption), w - 2), reset);
    BoxedLineShows(titleColour + (shown + reset), Strip(caption), w, ascii, colour, reset);
  }

  lemma HeaderMiddleShows(caption: string, w: int, ascii: bool)
    requires WellFormed(caption)
    ensures Shows(LineOf(PURPLE_BOLD + (Truncated(caption, w - 2) + RESET), Repeat(' ', w - 2 - VisibleLen(caption)),
                         PURPLE, [Vertical(ascii)], RESET),
                  Boxed(Strip(caption), w, ascii))
  {
    PurpleIsInvisible();
    PurpleBoldIsInvisible();
    ResetIsInvisible();
    CaptionInColour(caption, w, ascii, PURPLE, PURPLE_BOLD, RESET);
  }

  lemma ColouredReset(colour: string, text: string, visible: string, reset: string)
    requires Shows(colour, "") && Shows(text, visible) && Shows(reset, "")
    ensures Shows(colour + (text + reset), visible)
  {
    ShowsConcat(text, visible, reset, "");
    assert visible + "" == visible;
    Coloured(colour, text + reset, visible);
  }

  // ---------- table rows ----------

  datatype Cell = Cell(value: string, width: int)

  /** Cells filled up to their widths, two spaces between them; a cell that is too wide is not cut. */
  function RowText(cells: seq<Cell>): string
  {
    if cells == [] then ""
    else
      RowText(cells[..|cells| - 1]) + LastCell(cells[|cells| - 1], |cells| == 1)
  }

  function Stripped(cells: seq<Cell>): (s: seq<Cell>)
    ensures |s| == |cells|
  {
    seq(|cells|, i requires 0 <= i < |cells| => Cell(Strip(cells[i].value), cells[i].width))
  }

  /** The cell at the end of a row, with the gap in front of it. */
  function LastCell(c: Cell, first: bool): string
  {
    (if first then "" else "  ") + (c.value + Repeat(' ', c.width - VisibleLen(c.value)))
  }

  lemma LastCellShows(c: Cell, first: bool)
    requires WellFormed(c.value)
    ensures Shows(LastCell(c, first), LastCell(Cell(Strip(c.value), c.width), first))
  {
    var gap, pad := if first then "" else "  ", Repeat(' ', c.width - VisibleLen(c.value));
    StripHasNoEscape(c.value);
    PlainText(Strip(c.value));
    PlainText(pad);
    ShowsConcat(c.value, Strip(c.value), pad, pad);
    Prefixed(gap, c.value + pad, Strip(c.value) + pad);
  }

  lemma {:induction false} RowTextShows(cells: seq<Cell>)
    requires forall c :: c in cells ==> WellFormed(c.value)
    ensures Shows(RowText(cells), RowText(Stripped(cells)))
    decreases |cells|
  {
    if cells != [] {
      var n := |cells| - 1;
      RowTextShows(cells[..n]);
      LastCellShows(cells[n], n == 0);
      assert Stripped(cells)[..n] == Stripped(cells[..n]);
      ShowsConcat(RowText(cells[..n]), RowText(Stripped(cells[..n])),
                  LastCell(cells[n], n == 0), LastCell(Stripped(cells)[n], n == 0));
    }
  }

  /** A bordered data row. */
  method TableRow(cells: seq<Cell>, w: int, ascii: bool) returns (out: string)
    ensures (forall c :: c in cells ==> WellFormed(c.value)) ==>
      Shows(out, Boxed("  " + RowText(Stripped(cells)), w, ascii))
  {
    var row, i := "", 0;
    while i < |cells|
      invariant 0 <= i <= |cells|
      invariant row == RowText(cells[..i])
    {
      var padding := Max(0, cells[i].width - VisibleLen(cells[i].value));
      assert cells[..i + 1][..i] == cells[..i];
      assert Repeat(' ', padding) == Repeat(' ', cells[i].width - VisibleLen(cells[i].value));
      row := row + ((if i == 0 then "" else "  ") + (cells[i].value + Repeat(' ', padding)));
      i := i + 1;
    }
    assert cells[..i] == cells;
    out := BorderedLine("  " + row, w, ascii);
    if forall c :: c in cells ==> WellFormed(c.value) {
      RowTextShows(cells);
      Prefixed("  ", row, RowText(Stripped(cells)));
    }
  }

  /** Every line that shows what it must is exactly as wide as the terminal, if that has room for the two borders. */
  lemma LinesFillTheTerminal(out: string, text: string, left: char, right: char, w: int, ascii: bool)
    requires
      || Shows(out, Boxed(text, w, ascii))
      || Shows(out, Rule(left, right, w, ascii))
      || Shows(out, TitledRule(text, w, ascii))
    ensures VisibleLen(out) == w <==> w >= 2
  {
  }

  // ---------- what boxes look like ----------

  lemma BoxesLook()
    ensures Boxed("ab", 6, true) == "|ab  |" && Boxed("abcdef", 5, true) == "|abc|" && Boxed("ab", 1, true) == "||"
    ensures Rule('+', '+', 5, true) == "+---+" && Rule(TopLeft(true), TopRight(true), 2, true) == "++"
    ensures Boxed("a", 3, false) == ['\U{2502}', 'a', '\U{2502}']
    ensures Rule(TopLeft(false), TopRight(false), 3, false) == ['\U{256D}', '\U{2500}', '\U{256E}']
    ensures Rule(LeftMiddle(false), RightMiddle(false), 3, false) == ['\U{251C}', '\U{2500}', '\U{2524}']
    ensures Rule(LeftMiddle(true), RightMiddle(true), 3, true) == "+-+"
    ensures Arrow(true) == "->" && Arrow(false) == ['\U{2192}']
  {
  }

  /** A title stands in the middle, the odd character to its right; one that is too long fills the rule. */
  lemma TitlesLook()
    ensures TitledRule(" t ", 8, true) == "+- t --+" && TitledRule(" t ", 9, true) == "+-- t --+"
    ensures TitledRule(" long ", 6, true) == "+ lon+"
  {
  }

  lemma RowsLook(c: Cell, d: Cell)
    requires ESC !in c.value && ESC !in d.value
    ensures RowText([c, d]) == c.value + Repeat(' ', c.width - |c.value|)
                             + ("  " + (d.value + Repeat(' ', d.width - |d.value|)))
  {
    PlainText(c.value);
    PlainText(d.value);
    RowOfOne(c);
    assert [c, d][..1] == [c];
  }

  lemma RowOfOne(c: Cell)
    ensures RowText([c]) == LastCell(c, true) == c.value + Repeat(' ', c.width - VisibleLen(c.value))
  {
    assert [c][..0] == [];
  }
}
