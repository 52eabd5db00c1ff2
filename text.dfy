/** The text form of the board: a separator line of dashes, then for every
    row the cells written as `|v` followed by `|` and a newline, and another
    separator line. */
module Text {
  import opened Geometry

  predicate IsDigit(ch: char) {
    '0' <= ch <= '9'
  }

  function DigitChar(d: nat): (ch: char)
    requires d < 10
    ensures IsDigit(ch) && DigitValue(ch) == d
  {
    (48 + d) as char
  }

  function DigitValue(ch: char): int {
    ch as int - 48
  }

  /** Decimal digits of `n`, most significant first, without leading zeros. */
  function NatToString(n: nat): (s: string)
    ensures |s| >= 1 && forall k :: 0 <= k < |s| ==> IsDigit(s[k])
    ensures n < 10 <==> |s| == 1
    ensures s[0] == '0' ==> n == 0
    decreases n
  {
    if n < 10 then [DigitChar(n)] else NatToString(n / 10) + [DigitChar(n % 10)]
  }

  /** Reads a string of decimal digits back as a number. */
  function ParseNat(s: string): int {
    if |s| == 0 then 0 else 10 * ParseNat(s[..|s| - 1]) + DigitValue(s[|s| - 1])
  }

  lemma {:induction false} ParseNatToString(n: nat)
    ensures ParseNat(NatToString(n)) == n
    decreases n
  {
    if n >= 10 {
      var s := NatToString(n);
      assert s[..|s| - 1] == NatToString(n / 10);
      ParseNatToString(n / 10);
    }
  }

  /** The decimal form an integer takes when formatted into a string: a
      leading `-` for a negative value, and no leading zeros. */
  function IntToString(v: int): (s: string)
    ensures |s| >= 1 && (s[0] == '-' <==> v < 0)
    ensures forall k :: 0 < k < |s| ==> IsDigit(s[k])
    ensures v >= 0 ==> IsDigit(s[0])
    ensures var d := if v < 0 then 1 else 0; d < |s| && (s[d] == '0' ==> v == 0 && |s| == 1)
  {
    if v < 0 then "-" + NatToString(-v) else NatToString(v)
  }

  function ParseInt(s: string): int {
    if |s| > 0 && s[0] == '-' then -ParseNat(s[1..]) else ParseNat(s)
  }

  /** Formatting an integer loses nothing. */
  lemma IntToStringRoundTrip(v: int)
    ensures ParseInt(IntToString(v)) == v
  {
    if v < 0 {
      assert IntToString(v)[1..] == NatToString(-v);
      ParseNatToString(-v);
    } else {
      ParseNatToString(v);
    }
  }

  /** Length of every line of the rendering of a board of single-digit
      cells, counting its newline. */
  const LINE_WIDTH: nat := 2 * BOARD_SIZE + 2

  /** `2 * BOARD_SIZE + 1` dashes and a newline. */
  function Separator(): (s: string)
    ensures |s| == LINE_WIDTH && s[LINE_WIDTH - 1] == '\n'
    ensures forall k :: 0 <= k < LINE_WIDTH - 1 ==> s[k] == '-'
  {
    seq(2 * BOARD_SIZE + 1, _ => '-') + "\n"
  }

  function CellText(v: int): string {
    "|" + IntToString(v)
  }

  /** The cells of a row as accumulated left to right. */
  function RowCells(row: seq<int>): string {
    if row == [] then "" else RowCells(row[..|row| - 1]) + CellText(row[|row| - 1])
  }

  function RowText(row: seq<int>): string {
    RowCells(row) + "|\n"
  }

  /** The whole board as text, row after row. */
  function Rendered(rows: seq<seq<int>>): string {
    if rows == [] then Separator()
    else Rendered(rows[..|rows| - 1]) + RowText(rows[|rows| - 1]) + Separator()
  }

  /** Appending the text of cell `c` to text ending in the first `c` cells
      gives text ending in the first `c + 1` cells. */
  lemma RowCellsSnoc(done: string, row: seq<int>, c: nat)
    requires c < |row|
    ensures done + RowCells(row[..c]) + "|" + IntToString(row[c]) == done + RowCells(row[..c + 1])
  {
    assert row[..c + 1][..c] == row[..c];
    assert RowCells(row[..c + 1]) == RowCells(row[..c]) + CellText(row[c]);
  }

  /** Closing row `r` and adding a separator turns the text of the first `r`
      rows into the text of the first `r + 1`. */
  lemma RenderedSnoc(rows: seq<seq<int>>, r: nat)
    requires r < |rows|
    ensures Rendered(rows[..r]) + RowCells(rows[r]) + "|\n" + Separator() == Rendered(rows[..r + 1])
  {
    assert rows[..r + 1][..r] == rows[..r];
    assert Rendered(rows[..r + 1]) == Rendered(rows[..r]) + RowText(rows[r]) + Separator();
  }

  /** Whatever the cell values, the text opens and closes with a separator line. */
  lemma {:induction false} RenderedFramed(rows: seq<seq<int>>)
    ensures |Rendered(rows)| >= LINE_WIDTH
    ensures Rendered(rows)[..LINE_WIDTH] == Separator()
    ensures Rendered(rows)[|Rendered(rows)| - LINE_WIDTH..] == Separator()
  {
    if rows != [] {
      var prefix := Rendered(rows[..|rows| - 1]);
      RenderedFramed(rows[..|rows| - 1]);
      var s := prefix + RowText(rows[|rows| - 1]) + Separator();
      assert s[..LINE_WIDTH] == prefix[..LINE_WIDTH];
      assert s[|s| - LINE_WIDTH..] == Separator();
    }
  }

  predicate DigitRow(row: seq<int>) {
    forall c :: 0 <= c < |row| ==> 0 <= row[c] <= 9
  }

  /** Rows of BOARD_SIZE cells, each holding a single decimal digit. */
  predicate DigitGrid(rows: seq<seq<int>>) {
    forall r :: 0 <= r < |rows| ==> |rows[r]| == BOARD_SIZE && DigitRow(rows[r])
  }

  lemma {:induction false} RowCellsLayout(row: seq<int>)
    requires DigitRow(row)
    ensures |RowCells(row)| == 2 * |row|
    ensures forall c :: 0 <= c < |row| ==>
      RowCells(row)[2 * c] == '|' && RowCells(row)[2 * c + 1] == DigitChar(row[c])
  {
    if row != [] {
      var init := row[..|row| - 1];
      assert DigitRow(init) by {
        forall c | 0 <= c < |init| ensures 0 <= init[c] <= 9 {
          assert init[c] == row[c];
        }
      }
      RowCellsLayout(init);
      var s := RowCells(row);
      assert CellText(row[|row| - 1]) == ['|', DigitChar(row[|row| - 1])];
      forall c | 0 <= c < |row|
        ensures s[2 * c] == '|' && s[2 * c + 1] == DigitChar(row[c])
      {
        if c < |init| {
          assert s[2 * c] == RowCells(init)[2 * c];
          assert s[2 * c + 1] == RowCells(init)[2 * c + 1];
          assert init[c] == row[c];
        }
      }
    }
  }

  /** A row of single-digit cells is one line of LINE_WIDTH characters:
      `|` and the digit for each cell, then `|` and a newline. */
  lemma RowTextLayout(row: seq<int>)
    requires |row| == BOARD_SIZE && DigitRow(row)
    ensures |RowText(row)| == LINE_WIDTH
    ensures forall c :: 0 <= c < BOARD_SIZE ==>
      RowText(row)[2 * c] == '|' && RowText(row)[2 * c + 1] == DigitChar(row[c])
    ensures RowText(row)[2 * BOARD_SIZE] == '|' && RowText(row)[LINE_WIDTH - 1] == '\n'
  {
    RowCellsLayout(row);
    var s := RowText(row);
    forall c | 0 <= c < BOARD_SIZE
      ensures s[2 * c] == '|' && s[2 * c + 1] == DigitChar(row[c])
    {
      assert s[2 * c] == RowCells(row)[2 * c];
      assert s[2 * c + 1] == RowCells(row)[2 * c + 1];
    }
  }

  /** Line `k` (from 0) of a text made of LINE_WIDTH-character lines. */
  function Line(s: string, k: nat): string
    requires k * LINE_WIDTH + LINE_WIDTH <= |s|
  {
    s[k * LINE_WIDTH..k * LINE_WIDTH + LINE_WIDTH]
  }

  /** `s` consists of exactly the LINE_WIDTH-character lines `lines`, in order. */
  predicate IsLines(s: string, lines: seq<string>) {
    && |s| == |lines| * LINE_WIDTH
    && forall k :: 0 <= k < |lines| ==> Line(s, k) == lines[k]
  }

  /** Appending two whole lines appends them to the list of lines. */
  lemma IsLinesSnoc(s: string, lines: seq<string>, a: string, b: string)
    requires IsLines(s, lines) && |a| == LINE_WIDTH && |b| == LINE_WIDTH
    ensures IsLines(s + a + b, lines + [a, b])
  {
    var m := |lines|;
    var t := s + a + b;
    var lo := m * LINE_WIDTH;
    assert (m + 1) * LINE_WIDTH == lo + LINE_WIDTH;
    assert (m + 2) * LINE_WIDTH == lo + 2 * LINE_WIDTH;
    forall k | 0 <= k < m + 2
      ensures Line(t, k) == (lines + [a, b])[k]
    {
      if k < m {
        assert k * LINE_WIDTH + LINE_WIDTH <= lo by {
          assert k + 1 <= m;
        }
        assert t[k * LINE_WIDTH..k * LINE_WIDTH + LINE_WIDTH] == s[k * LINE_WIDTH..k * LINE_WIDTH + LINE_WIDTH];
      } else if k == m {
        assert t[lo..lo + LINE_WIDTH] == a;
      } else {
        assert t[lo + LINE_WIDTH..lo + 2 * LINE_WIDTH] == b;
      }
    }
  }

  /** The lines the text of `rows` is meant to consist of: a separator, then
      each row's line followed by a separator. */
  function LayoutLines(rows: seq<seq<int>>): seq<string> {
    if rows == [] then [Separator()]
    else LayoutLines(rows[..|rows| - 1]) + [RowText(rows[|rows| - 1]), Separator()]
  }

  /** Line `2 * r` of the layout is a separator and line `2 * r + 1` is row `r`. */
  lemma {:induction false} LayoutLinesShape(rows: seq<seq<int>>)
    ensures |LayoutLines(rows)| == 2 * |rows| + 1
    ensures forall k :: 0 <= k <= 2 * |rows| ==>
      LayoutLines(rows)[k] == if k % 2 == 0 then Separator() else RowText(rows[k / 2])
  {
    if rows != [] {
      var init := rows[..|rows| - 1];
      var m := |init|;
      LayoutLinesShape(init);
      var lines := LayoutLines(rows);
      assert lines == LayoutLines(init) + [RowText(rows[m]), Separator()];
      forall k | 0 <= k <= 2 * m + 2
        ensures lines[k] == if k % 2 == 0 then Separator() else RowText(rows[k / 2])
      {
        HalfOf(k);
        if k < 2 * m + 1 {
          assert lines[k] == LayoutLines(init)[k];
          if k % 2 == 1 {
            assert init[k / 2] == rows[k / 2];
          }
        } else if k == 2 * m + 1 {
          assert k % 2 == 1 && k / 2 == m;
          assert lines[k] == RowText(rows[m]);
        } else {
          assert k % 2 == 0;
          assert lines[k] == Separator();
        }
      }
    }
  }

  /** The text of a single-digit grid is made of the layout's lines. */
  lemma {:induction false} RenderedIsLayout(rows: seq<seq<int>>)
    requires DigitGrid(rows)
    ensures IsLines(Rendered(rows), LayoutLines(rows))
  {
    if rows != [] {
      var init := rows[..|rows| - 1];
      assert DigitGrid(init) by {
        forall r | 0 <= r < |init| ensures |init[r]| == BOARD_SIZE && DigitRow(init[r]) {
          assert init[r] == rows[r];
        }
      }
      RenderedIsLayout(init);
      RowTextLayout(rows[|rows| - 1]);
      IsLinesSnoc(Rendered(init), LayoutLines(init), RowText(rows[|rows| - 1]), Separator());
    } else {
      assert Line(Separator(), 0) == Separator();
    }
  }

  /** For a grid of single-digit cells the text is `2 * |rows| + 1` lines:
      the even ones are separators, line `2 * r + 1` is row `r`. On the
      full board that is BOARD_SIZE + 1 separators and BOARD_SIZE row lines. */
  lemma RenderedLayout(rows: seq<seq<int>>)
    requires DigitGrid(rows)
    ensures |Rendered(rows)| == (2 * |rows| + 1) * LINE_WIDTH
    ensures forall k :: 0 <= k <= 2 * |rows| ==>
      Line(Rendered(rows), k) == if k % 2 == 0 then Separator() else RowText(rows[k / 2])
  {
    RenderedIsLayout(rows);
    LayoutLinesShape(rows);
  }

  /** `k` is twice its half plus its parity. */
  lemma HalfOf(k: nat)
    ensures k == 2 * (k / 2) + k % 2 && (k % 2 == 0 || k % 2 == 1)
  {
  }

  /** The value shown for cell `[r, c]` in a text laid out as above, or -1
      when the text is too short to hold it. */
  function ReadCell(s: string, r: nat, c: nat): int {
    var at := (2 * r + 1) * LINE_WIDTH + 2 * c + 1;
    if at < |s| then DigitValue(s[at]) else -1
  }

  /** Row `r` of a single-digit grid is line `2 * r + 1` of its text. */
  lemma RenderedRowLine(rows: seq<seq<int>>, r: nat)
    requires DigitGrid(rows) && r < |rows|
    ensures (2 * r + 1) * LINE_WIDTH + LINE_WIDTH <= |Rendered(rows)|
    ensures Line(Rendered(rows), 2 * r + 1) == RowText(rows[r])
  {
    RenderedLayout(rows);
    var k := 2 * r + 1;
    assert k % 2 == 1 && k / 2 == r;
    assert k * LINE_WIDTH + LINE_WIDTH <= (2 * |rows| + 1) * LINE_WIDTH by {
      assert LINE_WIDTH == 18;
    }
  }

  /** Every single-digit cell can be read back from the text. */
  lemma RenderedCellRoundTrip(rows: seq<seq<int>>, r: nat, c: nat)
    requires DigitGrid(rows) && r < |rows| && c < BOARD_SIZE
    ensures ReadCell(Rendered(rows), r, c) == rows[r][c]
  {
    RenderedRowLine(rows, r);
    ReadCellFromRowLine(Rendered(rows), r, c, rows[r]);
  }

  lemma ReadCellFromRowLine(s: string, r: nat, c: nat, row: seq<int>)
    requires |row| == BOARD_SIZE && DigitRow(row) && c < BOARD_SIZE
    requires (2 * r + 1) * LINE_WIDTH + LINE_WIDTH <= |s|
    requires Line(s, 2 * r + 1) == RowText(row)
    ensures ReadCell(s, r, c) == row[c]
  {
    var base := (2 * r + 1) * LINE_WIDTH;
    assert Line(s, 2 * r + 1) == s[base..base + LINE_WIDTH];
    assert s[base + 2 * c + 1] == RowText(row)[2 * c + 1];
    RowTextLayout(row);
  }
}
