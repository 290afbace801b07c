/** The log file `save` and `auto_save` write (the two are the same code):
    a tab-separated header, then one line per log row in row order. The
    clock is a parameter: `stamp` for the file name, `times[i]` for the
    moment row i is written. */
module Persistence {
  import opened Text
  import opened Acquisition

  /** The header columns: logged time, weight, port, log. */
  const Header: string := "Logged Time\t무게\t포트\t로그"

  /** The content column of a row, `",".join(data.split(",")[1:])`: the
      raw line without its first comma field, or "" when the line has no
      comma. */
  function LogContent(data: string): string
  {
    var parts := Split(data, ',');
    if |parts| > 1 then Join(parts[1..], ',') else ""
  }

  /** Reference definition: the text after the first comma. */
  function AfterFirstComma(data: string): (r: string)
    ensures |r| < |data| || r == ""
  {
    if ',' in data then data[FirstIndex(data, ',') + 1..] else ""
  }

  /** The content column is exactly the text after the first comma. */
  lemma {:induction false} LogContentIsAfterFirstComma(data: string)
    ensures LogContent(data) == AfterFirstComma(data)
  {
    if ',' in data {
      var k := FirstIndex(data, ',');
      var a := data[..k];
      var b := data[k + 1..];
      assert data == a + [','] + b;
      SplitAtFirst(a, b, ',');
      assert Split(data, ',')[1..] == Split(b, ',');
      JoinSplit(b, ',');
    } else {
      SplitNoSep(data, ',');
    }
  }

  /** The content column holds no character the raw line does not. */
  lemma LogContentChars(data: string, c: char)
    requires c !in data
    ensures c !in LogContent(data)
  {
    var r := LogContent(data);
    LogContentIsAfterFirstComma(data);
    if ',' in data {
      var k := FirstIndex(data, ',');
      assert r == data[k + 1..];
      forall i | 0 <= i < |r| ensures r[i] != c {
        assert r[i] == data[k + 1 + i];
      }
    }
  }

  /** One line of the file for `row`, written at `time`, without its newline. */
  function RowLine(row: LogRow, time: string): string
  {
    time + "\t" + row.weight + "\t" + row.port + "\t" + LogContent(row.data)
  }

  /** The lines of the rows, each ending in a newline, in row order. */
  function Lines(rows: seq<LogRow>, times: seq<string>): string
    requires |times| == |rows|
    decreases |rows|
  {
    if |rows| == 0 then ""
    else RowLine(rows[0], times[0]) + "\n" + Lines(rows[1..], times[1..])
  }

  /** The whole file. */
  function FileText(rows: seq<LogRow>, times: seq<string>): string
    requires |times| == |rows|
  {
    Header + "\n" + Lines(rows, times)
  }

  /** `f"{timestamp}.txt"`. */
  function FileName(stamp: string): (name: string)
    ensures |name| == |stamp| + 4 && name[..|stamp|] == stamp && name[|stamp|..] == ".txt"
  {
    stamp + ".txt"
  }

  /** Writing one more row extends the text by that row's line. */
  lemma {:induction false} LinesSnoc(rows: seq<LogRow>, times: seq<string>, row: LogRow, time: string)
    requires |times| == |rows|
    ensures Lines(rows + [row], times + [time]) == Lines(rows, times) + RowLine(row, time) + "\n"
    decreases |rows|
  {
    if |rows| == 0 {
      assert (rows + [row])[1..] == [];
    } else {
      assert (rows + [row])[1..] == rows[1..] + [row];
      assert (times + [time])[1..] == times[1..] + [time];
      LinesSnoc(rows[1..], times[1..], row, time);
    }
  }

  /** Writing one more row extends the file by that row's line. */
  lemma FileTextSnoc(rows: seq<LogRow>, times: seq<string>, row: LogRow, time: string)
    requires |times| == |rows|
    ensures FileText(rows + [row], times + [time]) == FileText(rows, times) + RowLine(row, time) + "\n"
  {
    LinesSnoc(rows, times, row, time);
  }

  /** No field of a row holds a newline, so that the file can be read back
      line by line. */
  predicate NoNewline(row: LogRow, time: string) {
    '\n' !in time && '\n' !in row.weight && '\n' !in row.port && '\n' !in row.data
  }

  /** No field of a row holds a tab, so that a line can be read back column
      by column. */
  predicate NoTab(row: LogRow, time: string) {
    '\t' !in time && '\t' !in row.weight && '\t' !in row.port && '\t' !in row.data
  }

  /** Each line splits on tabs into the four header columns. */
  lemma {:induction false} RowColumns(row: LogRow, time: string)
    requires NoTab(row, time)
    ensures Split(RowLine(row, time), '\t') == [time, row.weight, row.port, LogContent(row.data)]
  {
    var content := LogContent(row.data);
    LogContentChars(row.data, '\t');
    SplitNoSep(content, '\t');
    var s3 := row.port + "\t" + content;
    SplitAtFirst(row.port, content, '\t');
    var s2 := row.weight + "\t" + s3;
    SplitAtFirst(row.weight, s3, '\t');
    SplitAtFirst(time, s2, '\t');
    assert RowLine(row, time) == time + "\t" + s2;
  }

  lemma RowLineHasNoNewline(row: LogRow, time: string)
    requires NoNewline(row, time)
    ensures '\n' !in RowLine(row, time)
  {
    LogContentChars(row.data, '\n');
  }

  /** The rows' lines, without newlines. */
  function RowLines(rows: seq<LogRow>, times: seq<string>): (ls: seq<string>)
    requires |times| == |rows|
    ensures |ls| == |rows|
  {
    seq(|rows|, i requires 0 <= i < |rows| => RowLine(rows[i], times[i]))
  }

  /** The row part of the file splits on newlines into one line per row, in
      row order, and the empty text after the final newline. */
  lemma {:induction false} LinesSplit(rows: seq<LogRow>, times: seq<string>)
    requires |times| == |rows|
    requires forall i :: 0 <= i < |rows| ==> NoNewline(rows[i], times[i])
    ensures Split(Lines(rows, times), '\n') == RowLines(rows, times) + [""]
    decreases |rows|
  {
    if |rows| == 0 {
      SplitNoSep("", '\n');
    } else {
      var rows', times' := rows[1..], times[1..];
      var line := RowLine(rows[0], times[0]);
      var rest := Lines(rows', times');
      RowLineHasNoNewline(rows[0], times[0]);
      assert Lines(rows, times) == line + ['\n'] + rest;
      SplitAtFirst(line, rest, '\n');
      LinesSplit(rows', times');
      var tail := RowLines(rows', times');
      assert RowLines(rows, times) == [line] + tail by {
        forall i | 0 <= i < |rows| ensures RowLines(rows, times)[i] == ([line] + tail)[i] {
          if i > 0 { assert rows'[i - 1] == rows[i] && times'[i - 1] == times[i]; }
        }
      }
    }
  }

  /** The file is the header line, then one line per log row in row order,
      then nothing after the final newline. */
  lemma FileLines(rows: seq<LogRow>, times: seq<string>)
    requires |times| == |rows|
    requires forall i :: 0 <= i < |rows| ==> NoNewline(rows[i], times[i])
    ensures Split(FileText(rows, times), '\n') == [Header] + RowLines(rows, times) + [""]
  {
    var rest := Lines(rows, times);
    SplitAtFirst(Header, rest, '\n');
    LinesSplit(rows, times);
  }
}
