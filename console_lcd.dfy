/**
 * A scrolling text console on a character display: a list of lines, the row shown at the bottom
 * of the display, and a counter that defers redrawing while updates are nested. The display is a
 * CharacterLcd of its own library, which is not part of this model: the calls the console makes
 * on it are recorded as a log of LcdCall values, and its column and row counts are constants.
 */
module ConsoleLcds {

  /** A call on the display. */
  datatype LcdCall =
    | Display(on: bool)
    | ClearScreen
    | Blinking(on: bool)
    | Cursor(on: bool)
    | AutoScroll(on: bool)
    | LeftToRight
    | MoveCursor(col: int, row: int)
    | Write(text: string)

  /** The characters char.IsWhiteSpace accepts. */
  predicate IsWhiteSpace(c: char) {
    c == ' ' || ('\t' <= c <= '\r') || c == '\U{0085}' || c == '\U{00A0}' || c == '\U{1680}' ||
    ('\U{2000}' <= c <= '\U{200A}') || c == '\U{2028}' || c == '\U{2029}' || c == '\U{202F}' ||
    c == '\U{205F}' || c == '\U{3000}'
  }

  /** string.TrimStart: drops the white space at the front. */
  function TrimStart(s: string): string {
    if |s| > 0 && IsWhiteSpace(s[0]) then TrimStart(s[1..]) else s
  }

  /** string.TrimEnd: drops the white space at the back. */
  function TrimEnd(s: string): string {
    if |s| > 0 && IsWhiteSpace(s[|s| - 1]) then TrimEnd(s[..|s| - 1]) else s
  }

  /** string.Trim: both. */
  function Trim(s: string): string {
    TrimEnd(TrimStart(s))
  }

  /** TrimStart keeps a suffix, drops only white space, and stops at the first other character. */
  lemma {:induction false} TrimStartProperties(s: string)
    ensures var r := TrimStart(s);
      |r| <= |s| && r == s[|s| - |r|..] &&
      (forall k :: 0 <= k < |s| - |r| ==> IsWhiteSpace(s[k])) &&
      (|r| > 0 ==> !IsWhiteSpace(r[0]))
    decreases |s|
  {
    if |s| > 0 && IsWhiteSpace(s[0]) {
      TrimStartProperties(s[1..]);
      var r := TrimStart(s);
      assert s[1..][|s| - 1 - |r|..] == s[|s| - |r|..];
      assert forall k :: 1 <= k < |s| - |r| ==> s[k] == s[1..][k - 1];
    }
  }

  /** TrimEnd keeps a prefix, drops only white space, and stops at the last other character. */
  lemma {:induction false} TrimEndProperties(s: string)
    ensures var r := TrimEnd(s);
      |r| <= |s| && r == s[..|r|] &&
      (forall k :: |r| <= k < |s| ==> IsWhiteSpace(s[k])) &&
      (|r| > 0 ==> !IsWhiteSpace(r[|r| - 1]))
    decreases |s|
  {
    if |s| > 0 && IsWhiteSpace(s[|s| - 1]) {
      TrimEndProperties(s[..|s| - 1]);
      var r := TrimEnd(s);
      assert s[..|s| - 1][..|r|] == s[..|r|];
      assert forall k :: |r| <= k < |s| - 1 ==> s[k] == s[..|s| - 1][k];
    }
  }

  /** Trim never lengthens, and leaves no white space at either end. */
  lemma TrimProperties(s: string)
    ensures |Trim(s)| <= |s|
    ensures |Trim(s)| > 0 ==> !IsWhiteSpace(Trim(s)[0]) && !IsWhiteSpace(Trim(s)[|Trim(s)| - 1])
  {
    TrimStartProperties(s);
    var t := TrimStart(s);
    TrimEndProperties(t);
    var r := TrimEnd(t);
    if |r| > 0 {
      assert r[0] == t[0];
    }
  }

  function Spaces(n: nat): (r: string)
    ensures |r| == n
  {
    seq(n, _ => ' ')
  }

  /** string.PadRight: at least n characters, filled with spaces on the right. */
  function PadRight(s: string, n: int): (r: string)
    ensures |r| == if |s| >= n then |s| else n
  {
    if |s| >= n then s else s + Spaces(n - |s|)
  }

  /** The padding only adds spaces on the right: the text is a prefix of the result. */
  lemma PadRightKeeps(s: string, n: int)
    ensures |PadRight(s, n)| >= n && PadRight(s, n)[..|s|] == s
    ensures forall k :: |s| <= k < |PadRight(s, n)| ==> PadRight(s, n)[k] == ' '
  {
  }

  function Min(a: int, b: int): int {
    if a < b then a else b
  }

  // ----- String.Split on "\r\n", "\r" and "\n" -----

  predicate IsBreak(c: char) {
    c == '\r' || c == '\n'
  }

  /** Splitting the rest of the text with cur as the piece collected so far; "\r\n" is one break. */
  function SplitFrom(s: string, cur: string): seq<string>
    decreases |s|
  {
    if |s| == 0 then [cur]
    else if s[0] == '\r' && |s| >= 2 && s[1] == '\n' then [cur] + SplitFrom(s[2..], "")
    else if IsBreak(s[0]) then [cur] + SplitFrom(s[1..], "")
    else SplitFrom(s[1..], cur + [s[0]])
  }

  function SplitLines(s: string): seq<string> {
    SplitFrom(s, "")
  }

  /** The text with every "\r\n" and every other "\r" replaced by "\n". */
  function Normalize(s: string): string
    decreases |s|
  {
    if |s| == 0 then ""
    else if s[0] == '\r' && |s| >= 2 && s[1] == '\n' then "\n" + Normalize(s[2..])
    else if IsBreak(s[0]) then "\n" + Normalize(s[1..])
    else [s[0]] + Normalize(s[1..])
  }

  function JoinLines(items: seq<string>): string {
    if |items| == 0 then "" else if |items| == 1 then items[0] else items[0] + "\n" + JoinLines(items[1..])
  }

  predicate NoBreaks(t: string) {
    forall k :: 0 <= k < |t| ==> !IsBreak(t[k])
  }

  lemma {:induction false} SplitFromNoBreaks(s: string, cur: string)
    requires NoBreaks(cur)
    ensures |SplitFrom(s, cur)| >= 1
    ensures forall k :: 0 <= k < |SplitFrom(s, cur)| ==> NoBreaks(SplitFrom(s, cur)[k])
    decreases |s|
  {
    if |s| == 0 {
    } else if s[0] == '\r' && |s| >= 2 && s[1] == '\n' {
      SplitFromNoBreaks(s[2..], "");
    } else if IsBreak(s[0]) {
      SplitFromNoBreaks(s[1..], "");
    } else {
      var next := cur + [s[0]];
      assert forall k :: 0 <= k < |next| ==> next[k] == if k < |cur| then cur[k] else s[0];
      SplitFromNoBreaks(s[1..], next);
    }
  }

  /** Joining a first piece onto the rest. */
  lemma JoinFront(cur: string, rest: seq<string>)
    requires |rest| >= 1
    ensures JoinLines([cur] + rest) == cur + "\n" + JoinLines(rest)
  {
    assert ([cur] + rest)[1..] == rest;
  }

  /** A break ends the current piece: the rest's pieces follow it after one "\n". */
  lemma JoinAfterBreak(cur: string, t: string)
    requires JoinLines(SplitFrom(t, "")) == Normalize(t)
    ensures JoinLines([cur] + SplitFrom(t, "")) == cur + ("\n" + Normalize(t))
  {
    SplitFromNoBreaks(t, "");
    JoinFront(cur, SplitFrom(t, ""));
  }

  lemma {:induction false} SplitFromJoin(s: string, cur: string)
    ensures JoinLines(SplitFrom(s, cur)) == cur + Normalize(s)
    decreases |s|
  {
    if |s| == 0 {
      assert cur + "" == cur;
    } else if s[0] == '\r' && |s| >= 2 && s[1] == '\n' {
      SplitFromJoin(s[2..], "");
      assert "" + Normalize(s[2..]) == Normalize(s[2..]);
      JoinAfterBreak(cur, s[2..]);
    } else if IsBreak(s[0]) {
      SplitFromJoin(s[1..], "");
      assert "" + Normalize(s[1..]) == Normalize(s[1..]);
      JoinAfterBreak(cur, s[1..]);
    } else {
      SplitFromJoin(s[1..], cur + [s[0]]);
      assert (cur + [s[0]]) + Normalize(s[1..]) == cur + ([s[0]] + Normalize(s[1..]));
    }
  }

  /**
   * The pieces of a split hold no line break, there is always at least one, and joining them with
   * "\n" gives the text with its breaks normalised: every break is one separator.
   */
  lemma SplitLinesProperties(s: string)
    ensures |SplitLines(s)| >= 1
    ensures forall k :: 0 <= k < |SplitLines(s)| ==> NoBreaks(SplitLines(s)[k])
    ensures JoinLines(SplitLines(s)) == Normalize(s)
  {
    SplitFromNoBreaks(s, "");
    SplitFromJoin(s, "");
    assert "" + Normalize(s) == Normalize(s);
  }

  // ----- Cutting a line into display-wide pieces -----

  function Concat(cs: seq<string>): string {
    if |cs| == 0 then "" else cs[0] + Concat(cs[1..])
  }

  /** The pieces WriteOne's loop cuts: Cols characters each, the last one possibly shorter. */
  function Chunks(a: string, cols: int): (r: seq<string>)
    requires cols >= 1
    decreases |a|
    ensures |r| == 0 <==> |a| == 0
  {
    if |a| == 0 then [] else if |a| <= cols then [a] else [a[..cols]] + Chunks(a[cols..], cols)
  }

  /** Every piece is non-empty and at most cols wide, and all but the last exactly cols wide. */
  lemma {:induction false} ChunksFit(a: string, cols: int)
    requires cols >= 1
    ensures forall k :: 0 <= k < |Chunks(a, cols)| ==> 0 < |Chunks(a, cols)[k]| <= cols
    ensures forall k :: 0 <= k < |Chunks(a, cols)| - 1 ==> |Chunks(a, cols)[k]| == cols
    decreases |a|
  {
    if |a| > cols {
      ChunksFit(a[cols..], cols);
      var r := Chunks(a, cols);
      assert r == [a[..cols]] + Chunks(a[cols..], cols);
      assert forall k :: 1 <= k < |r| ==> r[k] == Chunks(a[cols..], cols)[k - 1];
    }
  }

  /** The pieces put back together are the text cut. */
  lemma {:induction false} ChunksConcat(a: string, cols: int)
    requires cols >= 1
    ensures Concat(Chunks(a, cols)) == a
    decreases |a|
  {
    if 0 < |a| <= cols {
      assert Concat([a]) == a + Concat([]);
      assert a + "" == a;
    } else if |a| > cols {
      ChunksConcat(a[cols..], cols);
      assert Chunks(a, cols)[1..] == Chunks(a[cols..], cols);
      assert a[..cols] + a[cols..] == a;
    }
  }

  /** One pass of WriteOne's loop cuts off the first piece and goes on with the rest, if any. */
  lemma ChunkStep(a: string, cols: int)
    requires cols >= 1 && |a| > 0
    ensures Chunks(a, cols) == [a[..Min(|a|, cols)]] + Chunks(if |a| > cols then a[cols..] else "", cols)
  {
    if |a| <= cols {
      assert a[..|a|] == a;
    }
  }

  /** The loop's pieces so far and the pieces of what is left always make up the whole cut. */
  lemma ChunksAdvance(whole: seq<string>, done: seq<string>, a: string, cols: int)
    requires cols >= 1 && |a| > 0 && whole == done + Chunks(a, cols)
    ensures whole == (done + [a[..Min(|a|, cols)]]) + Chunks(if |a| > cols then a[cols..] else "", cols)
  {
    ChunkStep(a, cols);
    var rest := Chunks(if |a| > cols then a[cols..] else "", cols);
    assert (done + [a[..Min(|a|, cols)]]) + rest == done + ([a[..Min(|a|, cols)]] + rest);
  }

  function Trimmed(cs: seq<string>): (r: seq<string>)
    ensures |r| == |cs| && forall k :: 0 <= k < |cs| ==> r[k] == Trim(cs[k])
  {
    seq(|cs|, k requires 0 <= k < |cs| => Trim(cs[k]))
  }

  lemma TrimmedSnoc(cs: seq<string>, c: string)
    ensures Trimmed(cs + [c]) == Trimmed(cs) + [Trim(c)]
  {
  }

  /**
   * WriteOne as intended: the last line followed by s is cut into display-wide pieces, which,
   * trimmed, replace the last line. With nothing to cut the (empty) last line is dropped.
   */
  function WriteOneLines(lines: seq<string>, s: string, cols: int): (r: seq<string>)
    requires |lines| >= 1 && cols >= 1
  {
    lines[..|lines| - 1] + Trimmed(Chunks(lines[|lines| - 1] + s, cols))
  }

  /**
   * WriteOne as written: inside the loop the piece is prefixed with the current last line again
   * before it is stored, so the first piece repeats the text the last line already had.
   */
  function AsWrittenWriteOneLines(lines: seq<string>, s: string, cols: int): seq<string>
    requires |lines| >= 1 && cols >= 1
  {
    var last := lines[|lines| - 1];
    var cs := Chunks(last + s, cols);
    if |cs| == 0 then lines[..|lines| - 1]
    else lines[..|lines| - 1] + [Trim(last + cs[0])] + Trimmed(cs[1..])
  }

  /** The lines WriteOne leaves are never wider than the display, and the others stay. */
  lemma WriteOneFits(lines: seq<string>, s: string, cols: int)
    requires |lines| >= 1 && cols >= 1
    requires forall k :: 0 <= k < |lines| - 1 ==> |lines[k]| <= cols
    ensures var r := WriteOneLines(lines, s, cols);
      r[..|lines| - 1] == lines[..|lines| - 1] && forall k :: 0 <= k < |r| ==> |r[k]| <= cols
  {
    var cs := Chunks(lines[|lines| - 1] + s, cols);
    ChunksFit(lines[|lines| - 1] + s, cols);
    var r := WriteOneLines(lines, s, cols);
    forall k | 0 <= k < |cs|
      ensures |Trim(cs[k])| <= cols
    {
      TrimProperties(cs[k]);
    }
    assert forall k :: |lines| - 1 <= k < |r| ==> r[k] == Trim(cs[k - (|lines| - 1)]);
  }

  /** Text no wider than the display is one piece. */
  lemma ChunksShort(a: string, cols: int)
    requires cols >= 1 && 0 < |a| <= cols
    ensures Chunks(a, cols) == [a]
  {
  }

  /** A line "abcd" on an 8-column display followed by "efgh" becomes "abcdabcdefgh", not "abcdefgh". */
  lemma AsWrittenRepeatsLastLine()
    ensures AsWrittenWriteOneLines(["abcd"], "efgh", 8) == ["abcdabcdefgh"]
    ensures WriteOneLines(["abcd"], "efgh", 8) == ["abcdefgh"]
  {
    var a := "abcdefgh";
    assert ["abcd"][0] + "efgh" == a;
    assert ["abcd"][..0] == [];
    ChunksShort(a, 8);
    assert "abcd" + a == "abcdabcdefgh";
    TrimKeeps("abcdabcdefgh");
    TrimKeeps(a);
  }

  /** Text with no white space at either end is unchanged by Trim. */
  lemma TrimKeeps(s: string)
    requires |s| > 0 && !IsWhiteSpace(s[0]) && !IsWhiteSpace(s[|s| - 1])
    ensures Trim(s) == s
  {
  }

  /** Write's per-piece step: a fresh line before every piece after the first and before an empty one. */
  function WriteItem(lines: seq<string>, item: string, first: bool, cols: int): (r: seq<string>)
    requires |lines| >= 1 && cols >= 1
    ensures |r| >= 1
  {
    var start := if !first || |item| == 0 then lines + [""] else lines;
    var r := WriteOneLines(start, item, cols);
    assert |item| > 0 ==> |Chunks(start[|start| - 1] + item, cols)| > 0;
    r
  }

  /** The lines after writing the first n pieces. */
  function WriteItems(lines: seq<string>, items: seq<string>, n: nat, cols: int): (r: seq<string>)
    requires |lines| >= 1 && cols >= 1 && n <= |items|
    ensures |r| >= 1
  {
    if n == 0 then lines else WriteItem(WriteItems(lines, items, n - 1, cols), items[n - 1], n == 1, cols)
  }

  lemma WriteItemsNext(lines: seq<string>, items: seq<string>, n: nat, cols: int)
    requires |lines| >= 1 && cols >= 1 && n < |items|
    ensures WriteItems(lines, items, n + 1, cols) == WriteItem(WriteItems(lines, items, n, cols), items[n], n == 0, cols)
  {
  }

  /** Write's per-piece step as written: the same fresh lines, then the as-written WriteOne. */
  function AsWrittenWriteItem(lines: seq<string>, item: string, first: bool, cols: int): (r: seq<string>)
    requires |lines| >= 1 && cols >= 1
    ensures |r| >= 1
  {
    var start := if !first || |item| == 0 then lines + [""] else lines;
    assert |item| > 0 ==> |Chunks(start[|start| - 1] + item, cols)| > 0;
    AsWrittenWriteOneLines(start, item, cols)
  }

  /** The lines after writing the first n pieces as written. */
  function AsWrittenWriteItems(lines: seq<string>, items: seq<string>, n: nat, cols: int): (r: seq<string>)
    requires |lines| >= 1 && cols >= 1 && n <= |items|
    ensures |r| >= 1
  {
    if n == 0 then lines else AsWrittenWriteItem(AsWrittenWriteItems(lines, items, n - 1, cols), items[n - 1], n == 1, cols)
  }

  lemma AsWrittenWriteItemsNext(lines: seq<string>, items: seq<string>, n: nat, cols: int)
    requires |lines| >= 1 && cols >= 1 && n < |items|
    ensures AsWrittenWriteItems(lines, items, n + 1, cols) == AsWrittenWriteItem(AsWrittenWriteItems(lines, items, n, cols), items[n], n == 0, cols)
  {
  }

  /**
   * Write("efgh") after a last line "abcd" on an 8-column display: as written the line becomes
   * "abcdabcdefgh", as intended "abcdefgh".
   */
  lemma AsWrittenWriteRepeatsLastLine()
    ensures SplitLines("efgh") == ["efgh"]
    ensures AsWrittenWriteItems(["abcd"], SplitLines("efgh"), 1, 8) == ["abcdabcdefgh"]
    ensures WriteItems(["abcd"], SplitLines("efgh"), 1, 8) == ["abcdefgh"]
  {
    assert "efgh"[1..] == "fgh" && "" + ['e'] == "e";
    assert "fgh"[1..] == "gh" && "e" + ['f'] == "ef";
    assert "gh"[1..] == "h" && "ef" + ['g'] == "efg";
    assert "h"[1..] == "" && "efg" + ['h'] == "efgh";
    AsWrittenRepeatsLastLine();
  }

  /** The counter after Write as written: its extra decrement closes one enclosing BeginUpdate. */
  function AsWrittenUpdateAfterWrite(update: int): int {
    if update - 1 < 1 then 0 else update - 1
  }

  /** The counter after Write as intended: back where it was, or 0. */
  function UpdateAfterWrite(update: int): int {
    if update < 1 then 0 else update
  }

  /** Inside one BeginUpdate, as written Write already redraws and zeroes the counter; as intended it waits. */
  lemma AsWrittenWriteEndsUpdate()
    ensures AsWrittenUpdateAfterWrite(1) == 0 && AsWrittenUpdateAfterWrite(1) < 1
    ensures UpdateAfterWrite(1) == 1
  {
  }

  /** Outside any update both forms redraw and leave the counter at 0. */
  lemma WriteOutsideUpdate(update: int)
    requires update <= 0
    ensures AsWrittenUpdateAfterWrite(update) == 0 && UpdateAfterWrite(update) == 0
  {
  }

  /** Inside an update Write keeps the counter, and therefore defers the redraw. */
  lemma WriteKeepsUpdate(update: int)
    requires update >= 1
    ensures UpdateAfterWrite(update) == update && AsWrittenUpdateAfterWrite(update) == update - 1
  {
  }

  // ----- Refresh -----

  /** Line k, or "" above the first line. */
  function LineAt(lines: seq<string>, k: int): string {
    if 0 <= k < |lines| then lines[k] else ""
  }

  /** The line shown on the display's bottom row: row, or the one above when row is empty. */
  function BottomLine(lines: seq<string>, row: int): int
    requires 0 <= row < |lines|
  {
    if |lines[row]| == 0 then row - 1 else row
  }

  /** The calls of the first n passes of Refresh's loop, pass i drawing display row rows-1-i. */
  function RefreshRows(lines: seq<string>, bottom: int, cols: int, rows: int, n: nat): (r: seq<LcdCall>)
    ensures |r| == 2 * n
  {
    if n == 0 then [] else
      RefreshRows(lines, bottom, cols, rows, n - 1) + [MoveCursor(0, rows - n), LcdCall.Write(PadRight(LineAt(lines, bottom - (n - 1)), cols))]
  }

  /** Pass i of Refresh's loop extends the log by the definition's last pass. */
  lemma RefreshRowsStep(start: seq<LcdCall>, calls: seq<LcdCall>, lines: seq<string>, bottom: int, cols: int, rows: int, i: nat)
    requires calls == start + RefreshRows(lines, bottom, cols, rows, i)
    ensures calls + [MoveCursor(0, rows - i - 1), LcdCall.Write(PadRight(LineAt(lines, bottom - i), cols))]
      == start + RefreshRows(lines, bottom, cols, rows, i + 1)
  {
    var pass := [MoveCursor(0, rows - i - 1), LcdCall.Write(PadRight(LineAt(lines, bottom - i), cols))];
    assert RefreshRows(lines, bottom, cols, rows, i + 1) == RefreshRows(lines, bottom, cols, rows, i) + pass;
    Associate(start, RefreshRows(lines, bottom, cols, rows, i), pass);
  }

  lemma Associate(a: seq<LcdCall>, b: seq<LcdCall>, c: seq<LcdCall>)
    ensures (a + b) + c == a + (b + c)
  {
  }

  function RefreshCalls(lines: seq<string>, row: int, cols: int, rows: nat): seq<LcdCall>
    requires 0 <= row < |lines|
  {
    [Display(false)] + RefreshRows(lines, BottomLine(lines, row), cols, rows, rows) + [Display(true)]
  }

  /** The log Refresh leaves once it turns the display on again. */
  lemma RefreshWrap(before: seq<LcdCall>, calls: seq<LcdCall>, lines: seq<string>, row: int, cols: int, rows: nat)
    requires 0 <= row < |lines|
    requires calls == before + [Display(false)] + RefreshRows(lines, BottomLine(lines, row), cols, rows, rows)
    ensures calls + [Display(true)] == before + RefreshCalls(lines, row, cols, rows)
  {
    var middle := RefreshRows(lines, BottomLine(lines, row), cols, rows, rows);
    Associate(before, [Display(false)], middle);
    Associate(before, [Display(false)] + middle, [Display(true)]);
  }

  /**
   * Refresh turns the display off, then from the bottom row up writes the shown line and the ones
   * above it, each padded to the display's width and blank above the first line, and turns the
   * display on again.
   */
  lemma {:induction false} RefreshRowsShape(lines: seq<string>, bottom: int, cols: int, rows: int, n: nat, i: nat)
    requires i < n
    ensures RefreshRows(lines, bottom, cols, rows, n)[2 * i] == MoveCursor(0, rows - 1 - i)
    ensures RefreshRows(lines, bottom, cols, rows, n)[2 * i + 1] == LcdCall.Write(PadRight(LineAt(lines, bottom - i), cols))
    ensures |RefreshRows(lines, bottom, cols, rows, n)[2 * i + 1].text| >= cols
  {
    var p := RefreshRows(lines, bottom, cols, rows, n - 1);
    var last := [MoveCursor(0, rows - n), LcdCall.Write(PadRight(LineAt(lines, bottom - (n - 1)), cols))];
    assert RefreshRows(lines, bottom, cols, rows, n) == p + last;
    if i < n - 1 {
      RefreshRowsShape(lines, bottom, cols, rows, n - 1, i);
      assert (p + last)[2 * i] == p[2 * i] && (p + last)[2 * i + 1] == p[2 * i + 1];
    } else {
      assert (p + last)[2 * i] == last[0] && (p + last)[2 * i + 1] == last[1];
    }
  }

  /**
   * The lines while WriteOne runs, once the pieces in done are stored: the last line, or the
   * trimmed pieces followed by the fresh empty line the loop adds after each.
   */
  function Progress(prefix: seq<string>, last: string, done: seq<string>): (r: seq<string>)
    ensures |r| >= 1
  {
    if done == [] then prefix + [last] else prefix + Trimmed(done) + [""]
  }

  /** The same for WriteOne as written, whose first stored piece repeats the last line. */
  function AsWrittenProgress(prefix: seq<string>, last: string, done: seq<string>): (r: seq<string>)
    ensures |r| >= 1
  {
    if done == [] then prefix + [last] else prefix + [Trim(last + done[0])] + Trimmed(done[1..]) + [""]
  }

  /** One pass stores a piece in the last line and adds an empty one. */
  lemma ProgressStep(prefix: seq<string>, last: string, done: seq<string>, piece: string)
    ensures var l := Progress(prefix, last, done);
      l[|l| - 1 := Trim(piece)] + [""] == Progress(prefix, last, done + [piece])
  {
    var l := Progress(prefix, last, done);
    if done == [] {
      assert l[|l| - 1 := Trim(piece)] == prefix + Trimmed([piece]);
    } else {
      assert l[|l| - 1 := Trim(piece)] == prefix + Trimmed(done) + [Trim(piece)];
      TrimmedSnoc(done, piece);
    }
  }

  /** One pass as written stores the last line followed by the piece. */
  lemma AsWrittenProgressStep(prefix: seq<string>, last: string, done: seq<string>, piece: string)
    ensures var l := AsWrittenProgress(prefix, last, done);
      l[|l| - 1 := Trim(l[|l| - 1] + piece)] + [""] == AsWrittenProgress(prefix, last, done + [piece])
  {
    var l := AsWrittenProgress(prefix, last, done);
    if done == [] {
      assert l[|l| - 1 := Trim(l[|l| - 1] + piece)] == prefix + [Trim(last + piece)];
      assert (done + [piece])[1..] == [];
    } else {
      assert l[|l| - 1] + piece == piece;
      assert l[|l| - 1 := Trim(piece)] == prefix + [Trim(last + done[0])] + Trimmed(done[1..]) + [Trim(piece)];
      TrimmedSnoc(done[1..], piece);
      assert (done + [piece])[1..] == done[1..] + [piece];
    }
  }

  /** After the loop the last line is the empty one, and dropping it leaves the stored pieces. */
  lemma ProgressDrop(prefix: seq<string>, last: string, done: seq<string>)
    requires done != [] || last == ""
    ensures var l := Progress(prefix, last, done);
      |l[|l| - 1]| == 0 && l[..|l| - 1] == prefix + Trimmed(done)
  {
  }

  lemma AsWrittenProgressDrop(prefix: seq<string>, last: string, done: seq<string>)
    requires done != [] || last == ""
    ensures var l := AsWrittenProgress(prefix, last, done);
      |l[|l| - 1]| == 0 &&
      l[..|l| - 1] == if done == [] then prefix else prefix + [Trim(last + done[0])] + Trimmed(done[1..])
  {
  }

  class ConsoleLcd {
    const cols: int
    const rows: nat
    var lines: seq<string>
    var row: int
    var update: int
    var calls: seq<LcdCall>

    predicate Valid()
      reads this
    {
      8 <= cols <= 20 && 1 <= rows <= 4 && |lines| >= 1 && update >= 0
    }

    /** Resets the display's flags, then starts with one empty line. */
    constructor(cols: int, rows: nat)
      requires 8 <= cols <= 20 && 1 <= rows <= 4
      ensures Valid() && this.cols == cols && this.rows == rows
      ensures lines == [""] && row == 0 && update == 0
      ensures calls == [Display(false), ClearScreen, Blinking(false), Cursor(false), AutoScroll(false), LeftToRight, Display(true)]
    {
      this.cols := cols;
      this.rows := rows;
      calls := [Display(false), ClearScreen, Blinking(false), Cursor(false), AutoScroll(false), LeftToRight, Display(true)];
      lines := [""];
      update := 0;
      row := 0;
    }

    function RowCount(): nat
      reads this
    {
      |lines|
    }

    /** Refresh's pass i: writes line r, or blanks above the first line, on display row rows-1-i. */
    method DrawRow(ghost start: seq<LcdCall>, ghost bottom: int, r: int, i: nat)
      requires r == bottom - i && r < |lines|
      requires calls == start + RefreshRows(lines, bottom, cols, rows, i)
      modifies this`calls
      ensures calls == start + RefreshRows(lines, bottom, cols, rows, i + 1)
    {
      var s := if r < 0 then "" else lines[r];
      assert s == LineAt(lines, bottom - i);
      RefreshRowsStep(start, calls, lines, bottom, cols, rows, i);
      calls := calls + [MoveCursor(0, rows - i - 1), LcdCall.Write(PadRight(s, cols))];
    }

    method Refresh()
      requires Valid() && 0 <= row < |lines|
      modifies this`calls
      ensures calls == old(calls) + RefreshCalls(lines, row, cols, rows)
    {
      ghost var before := calls;
      calls := calls + [Display(false)];
      var r := row;
      if |lines[r]| == 0 {
        r := r - 1;
      }
      ghost var bottom := r;
      assert bottom == BottomLine(lines, row);
      ghost var start := calls;
      var i := 0;
      while i < rows
        invariant 0 <= i <= rows && r == bottom - i
        invariant calls == start + RefreshRows(lines, bottom, cols, rows, i)
      {
        DrawRow(start, bottom, r, i);
        r := r - 1;
        i := i + 1;
      }
      RefreshWrap(before, calls, lines, row, cols, rows);
      calls := calls + [Display(true)];
    }

    /** ScrollTo: clamps the row to the lines there are, and redraws only when it changes. */
    method ScrollTo(target: int)
      requires Valid()
      modifies this`row, this`calls
      ensures var r := if target < 0 then 0 else if target >= |lines| then |lines| - 1 else target;
        row == r && calls == if r == old(row) then old(calls) else old(calls) + RefreshCalls(lines, r, cols, rows)
    {
      var r := target;
      if r < 0 {
        r := 0;
      }
      if r >= |lines| {
        r := |lines| - 1;
      }
      if r == row {
        return;
      }
      row := r;
      Refresh();
    }

    method BeginUpdate()
      modifies this`update
      ensures update == old(update) + 1
    {
      update := update + 1;
    }

    /** EndUpdate: when the outermost update ends, shows the last line and redraws. */
    method EndUpdate()
      requires Valid()
      modifies this`update, this`row, this`calls
      ensures if old(update) - 1 < 1 then
          update == 0 && row == |lines| - 1 && calls == old(calls) + RefreshCalls(lines, |lines| - 1, cols, rows)
        else
          update == old(update) - 1 && row == old(row) && calls == old(calls)
    {
      update := update - 1;
      if update < 1 {
        update := 0;
        row := |lines| - 1;
        Refresh();
      }
    }

    /** Clear: back to a single empty line. */
    method Clear()
      requires Valid()
      modifies this
      ensures Valid() && lines == [""]
      ensures if old(update) < 1 then
          update == 0 && row == 0 && calls == old(calls) + RefreshCalls([""], 0, cols, rows)
        else
          update == old(update) && row == old(row) && calls == old(calls)
    {
      BeginUpdate();
      lines := [""];
      EndUpdate();
    }

    /** NewLine: one more empty line, one row further down. */
    method NewLine()
      requires Valid()
      modifies this
      ensures Valid() && lines == old(lines) + [""]
      ensures if old(update) < 1 then
          update == 0 && row == |lines| - 1 && calls == old(calls) + RefreshCalls(lines, |lines| - 1, cols, rows)
        else
          update == old(update) && row == old(row) + 1 && calls == old(calls)
    {
      BeginUpdate();
      lines := lines + [""];
      row := row + 1;
      EndUpdate();
    }

    /** WriteOne as written (see AsWrittenWriteOneLines). */
    method WriteOneAsWritten(s: string)
      requires Valid() && (s != "" || |lines| >= 2)
      modifies this`lines
      ensures lines == AsWrittenWriteOneLines(old(lines), s, cols)
      ensures Valid()
    {
      ghost var prefix := lines[..|lines| - 1];
      ghost var last := lines[|lines| - 1];
      assert lines == prefix + [last];
      var a := lines[|lines| - 1] + s;
      var b := "";
      ghost var done: seq<string> := [];
      while |a| > 0
        invariant Chunks(last + s, cols) == done + Chunks(a, cols)
        invariant lines == AsWrittenProgress(prefix, last, done)
        decreases |a|
      {
        ChunksAdvance(Chunks(last + s, cols), done, a, cols);
        if |a| > cols {
          b := a[cols..];
        } else {
          b := "";
        }
        a := a[..Min(|a|, cols)];
        AsWrittenProgressStep(prefix, last, done, a);
        done := done + [a];
        a := lines[|lines| - 1] + a;
        lines := lines[|lines| - 1 := Trim(a)];
        lines := lines + [""];
        a := b;
      }
      AsWrittenProgressDrop(prefix, last, done);
      if |lines[|lines| - 1]| == 0 {
        lines := lines[..|lines| - 1];
      } else {
        assert false;
      }
    }

    /** WriteOne as intended: the piece alone is stored, so the last line's text appears once. */
    method WriteOne(s: string)
      requires Valid() && (s != "" || |lines| >= 2)
      modifies this`lines
      ensures lines == WriteOneLines(old(lines), s, cols)
      ensures Valid()
    {
      ghost var prefix := lines[..|lines| - 1];
      ghost var last := lines[|lines| - 1];
      assert lines == prefix + [last];
      var a := lines[|lines| - 1] + s;
      var b := "";
      ghost var done: seq<string> := [];
      while |a| > 0
        invariant Chunks(last + s, cols) == done + Chunks(a, cols)
        invariant lines == Progress(prefix, last, done)
        decreases |a|
      {
        ChunksAdvance(Chunks(last + s, cols), done, a, cols);
        if |a| > cols {
          b := a[cols..];
        } else {
          b := "";
        }
        a := a[..Min(|a|, cols)];
        ProgressStep(prefix, last, done, a);
        done := done + [a];
        lines := lines[|lines| - 1 := Trim(a)];
        lines := lines + [""];
        a := b;
      }
      ProgressDrop(prefix, last, done);
      if |lines[|lines| - 1]| == 0 {
        lines := lines[..|lines| - 1];
      } else {
        assert false;
      }
    }

    /**
     * The body of Write's loop for piece i: a fresh line before every piece but the first and
     * before an empty one, then WriteOne.
     */
    method WritePiece(ghost orig: seq<string>, items: seq<string>, i: nat)
      requires Valid() && |orig| >= 1 && i < |items| && lines == WriteItems(orig, items, i, cols)
      modifies this`lines
      ensures Valid() && lines == WriteItems(orig, items, i + 1, cols)
    {
      WriteItemsNext(orig, items, i, cols);
      if i > 0 || |items[i]| == 0 {
        lines := lines + [""];
      }
      WriteOne(items[i]);
    }

    /** Adds the pieces of a split, each as Write does. */
    method WritePieces(items: seq<string>)
      requires Valid()
      modifies this`lines
      ensures Valid() && lines == WriteItems(old(lines), items, |items|, cols)
    {
      ghost var orig := lines;
      var i := 0;
      while i < |items|
        invariant 0 <= i <= |items| && Valid()
        invariant lines == WriteItems(orig, items, i, cols)
      {
        WritePiece(orig, items, i);
        i := i + 1;
      }
    }

    /**
     * Write as intended: each piece of the text between line breaks goes through WriteOne, a fresh
     * line before each piece but the first; the redraw waits for the outermost update.
     */
    method Write(s: string)
      requires Valid()
      modifies this
      ensures Valid() && lines == WriteItems(old(lines), SplitLines(s), |SplitLines(s)|, cols)
      ensures update == UpdateAfterWrite(old(update))
      ensures update == 0 ==> row == |lines| - 1 && calls == old(calls) + RefreshCalls(lines, |lines| - 1, cols, rows)
      ensures update > 0 ==> row == old(row) && calls == old(calls)
    {
      BeginUpdate();
      WritePieces(SplitLines(s));
      EndUpdate();
    }

    /** The body of Write's loop for piece i as written: the fresh lines, then WriteOneAsWritten. */
    method WritePieceAsWritten(ghost orig: seq<string>, items: seq<string>, i: nat)
      requires Valid() && |orig| >= 1 && i < |items| && lines == AsWrittenWriteItems(orig, items, i, cols)
      modifies this`lines
      ensures Valid() && lines == AsWrittenWriteItems(orig, items, i + 1, cols)
    {
      AsWrittenWriteItemsNext(orig, items, i, cols);
      if i > 0 || |items[i]| == 0 {
        lines := lines + [""];
      }
      WriteOneAsWritten(items[i]);
    }

    /** Adds the pieces of a split as the source's Write does, with the as-written WriteOne. */
    method WritePiecesAsWritten(items: seq<string>)
      requires Valid()
      modifies this`lines
      ensures Valid() && lines == AsWrittenWriteItems(old(lines), items, |items|, cols)
    {
      ghost var orig := lines;
      var i := 0;
      while i < |items|
        invariant 0 <= i <= |items| && Valid()
        invariant lines == AsWrittenWriteItems(orig, items, i, cols)
      {
        WritePieceAsWritten(orig, items, i);
        i := i + 1;
      }
    }

    /**
     * Write as written: every piece goes through the as-written WriteOne, and an extra
     * decrement before EndUpdate closes one enclosing BeginUpdate.
     */
    method WriteAsWritten(s: string)
      requires Valid()
      modifies this
      ensures Valid() && lines == AsWrittenWriteItems(old(lines), SplitLines(s), |SplitLines(s)|, cols)
      ensures update == AsWrittenUpdateAfterWrite(old(update))
      ensures old(update) - 1 < 1 ==> row == |lines| - 1 && calls == old(calls) + RefreshCalls(lines, |lines| - 1, cols, rows)
      ensures old(update) - 1 >= 1 ==> row == old(row) && calls == old(calls)
    {
      BeginUpdate();
      WritePiecesAsWritten(SplitLines(s));
      update := update - 1;
      EndUpdate();
    }

    /** WriteLine: Write, then NewLine, in one update. */
    method WriteLine(s: string)
      requires Valid()
      modifies this
      ensures Valid()
      ensures lines == WriteItems(old(lines), SplitLines(s), |SplitLines(s)|, cols) + [""]
      ensures update == UpdateAfterWrite(old(update))
      ensures update == 0 ==> row == |lines| - 1 && calls == old(calls) + RefreshCalls(lines, |lines| - 1, cols, rows)
      ensures update > 0 ==> row == old(row) + 1 && calls == old(calls)
    {
      BeginUpdate();
      Write(s);
      NewLine();
      EndUpdate();
    }
  }
}
