/**
 * The row scan of `parse_data`: a fold over a ticker's news-table rows that carries the
 * previous headline and the last date seen, skips immediate repeats, splits the date/time
 * cell and keeps only rows whose link is a Yahoo Finance news article.
 */
module NewsParser {
  import opened Wrappers
  import opened Text

  /** The accepted article domain, tested by substring containment. */
  const ArticleDomain := "https://finance.yahoo.com/news/"

  predicate IsArticleUrl(url: string) {
    Contains(url, ArticleDomain)
  }

  /**
   * One `tr` of the news table: the anchor's text and `href`, the source span's text
   * (already stripped) and the whitespace-separated tokens of the date/time cell.
   */
  datatype Row = Row(headline: string, href: string, source: string, cellTokens: seq<string>)

  /** One retained row, fields in the order of the script's list `[date, time, source, headline, url]`. */
  datatype ParsedRow = ParsedRow(date: string, time: string, source: string, headline: string, url: string)

  /** The exceptions the scan can raise, with the index of the row that raised it. */
  datatype ParseError =
    | EmptyDateCell(row: nat)   // the date/time cell has no token: indexing token 0 fails
    | DateUnbound(row: nat)     // a row is appended before any date was ever read

  /** The loop-carried locals: the previous headline (initially empty) and the date, unbound until set. */
  datatype ScanState = ScanState(prevHeadline: string, date: Option<string>)

  datatype Progress = Progress(state: ScanState, out: seq<ParsedRow>)

  const Initial := Progress(ScanState("", None), [])

  /** The time token of a cell: its only token, or its second one. */
  function TimeOf(tokens: seq<string>): string
    requires |tokens| >= 1
  {
    if |tokens| == 1 then tokens[0] else tokens[1]
  }

  /** One iteration of the loop on row `k`. */
  function Step(p: Progress, row: Row, k: nat): (r: Result<Progress, ParseError>)
    ensures r.Ok? ==> p.out <= r.value.out && |r.value.out| <= |p.out| + 1
    ensures r.Err? ==> r.error.row == k
  {
    if row.headline == p.state.prevHeadline then Ok(p)
    else
      var tokens := row.cellTokens;
      if |tokens| == 0 then Err(EmptyDateCell(k))
      else
        var date := if |tokens| == 1 then p.state.date else Some(tokens[0]);
        var state := ScanState(row.headline, date);
        if !IsArticleUrl(row.href) then Ok(Progress(state, p.out))
        else if date.None? then Err(DateUnbound(k))
        else Ok(Progress(state, p.out + [ParsedRow(date.value, TimeOf(tokens), row.source, row.headline, row.href)]))
  }

  /** The loop after its first `k` iterations. */
  function ScanUpTo(rows: seq<Row>, k: nat): Result<Progress, ParseError>
    requires k <= |rows|
  {
    if k == 0 then Ok(Initial)
    else
      match ScanUpTo(rows, k - 1)
      case Err(e) => Err(e)
      case Ok(p) => Step(p, rows[k - 1], k - 1)
  }

  /** What `parse_data` returns or raises. */
  function Parse(rows: seq<Row>): Result<seq<ParsedRow>, ParseError> {
    match ScanUpTo(rows, |rows|)
    case Ok(p) => Ok(p.out)
    case Err(e) => Err(e)
  }

  // ---------------------------------------------------------------------------------------
  // A reference description of the scan by row index, with no state threaded through.

  /** The headline row `k` is compared against: that of the previous input row, or '' for the first. */
  function HeadlineBefore(rows: seq<Row>, k: nat): string
    requires k <= |rows|
  {
    if k == 0 then "" else rows[k - 1].headline
  }

  /** Row `k` is processed (not skipped as a repeat). */
  predicate IsProcessed(rows: seq<Row>, k: nat)
    requires k < |rows|
  {
    rows[k].headline != HeadlineBefore(rows, k)
  }

  /** Row `k` is processed and its cell carries a date token. */
  predicate SetsDate(rows: seq<Row>, k: nat)
    requires k < |rows|
  {
    IsProcessed(rows, k) && |rows[k].cellTokens| >= 2
  }

  /** The carried date once rows `0..k` have been seen. */
  function DateAfter(rows: seq<Row>, k: nat): Option<string>
    requires k <= |rows|
  {
    if k == 0 then None
    else if SetsDate(rows, k - 1) then Some(rows[k - 1].cellTokens[0])
    else DateAfter(rows, k - 1)
  }

  /** Row `k` is processed and its link is an article of the accepted domain. */
  predicate IsEmitted(rows: seq<Row>, k: nat)
    requires k < |rows|
  {
    IsProcessed(rows, k) && IsArticleUrl(rows[k].href)
  }

  /** Row `j` raises nothing: a processed row has a token, and an emitted row has a date. */
  predicate RowOk(rows: seq<Row>, j: nat)
    requires j < |rows|
  {
    IsProcessed(rows, j) ==>
      |rows[j].cellTokens| >= 1 && (IsArticleUrl(rows[j].href) ==> DateAfter(rows, j + 1).Some?)
  }

  predicate WellFormed(rows: seq<Row>, k: nat)
    requires k <= |rows|
  {
    forall j :: 0 <= j < k ==> RowOk(rows, j)
  }

  /** The indices of the emitted rows among the first `k`: exactly the emitted ones, in increasing order. */
  function EmittedIndices(rows: seq<Row>, k: nat): (idx: seq<nat>)
    requires k <= |rows|
    ensures |idx| <= k
    ensures forall m :: 0 <= m < |idx| ==> idx[m] < k && IsEmitted(rows, idx[m])
    ensures forall m, n :: 0 <= m < n < |idx| ==> idx[m] < idx[n]
    ensures forall j :: 0 <= j < k && IsEmitted(rows, j) ==> j in idx
  {
    if k == 0 then []
    else EmittedIndices(rows, k - 1) + (if IsEmitted(rows, k - 1) then [k - 1] else [])
  }

  /** The record emitted for row `j`. */
  function Expected(rows: seq<Row>, j: nat): ParsedRow
    requires j < |rows| && IsEmitted(rows, j) && RowOk(rows, j)
  {
    ParsedRow(DateAfter(rows, j + 1).value, TimeOf(rows[j].cellTokens),
              rows[j].source, rows[j].headline, rows[j].href)
  }

  /** The records emitted by the first `k` rows. */
  function Emitted(rows: seq<Row>, k: nat): (out: seq<ParsedRow>)
    requires k <= |rows| && WellFormed(rows, k)
  {
    var idx := EmittedIndices(rows, k);
    seq(|idx|, m requires 0 <= m < |idx| => Expected(rows, idx[m]))
  }

  // ---------------------------------------------------------------------------------------
  // The fold agrees with the reference description.

  /** The carried headline is always the previous INPUT row's, and the carried date is `DateAfter`. */
  lemma {:induction false} ScanCarries(rows: seq<Row>, k: nat)
    requires k <= |rows| && ScanUpTo(rows, k).Ok?
    ensures ScanUpTo(rows, k).value.state.prevHeadline == HeadlineBefore(rows, k)
    ensures ScanUpTo(rows, k).value.state.date == DateAfter(rows, k)
  {
    if k > 0 {
      ScanCarries(rows, k - 1);
    }
  }

  /** The scan raises nothing exactly when every row it has seen is well formed. */
  lemma {:induction false} ScanOkIff(rows: seq<Row>, k: nat)
    requires k <= |rows|
    ensures ScanUpTo(rows, k).Ok? <==> WellFormed(rows, k)
  {
    if k > 0 {
      ScanOkIff(rows, k - 1);
      assert WellFormed(rows, k) <==> WellFormed(rows, k - 1) && RowOk(rows, k - 1);
      if ScanUpTo(rows, k - 1).Ok? {
        ScanCarries(rows, k - 1);
      }
    }
  }

  /** Once raised, an exception is what the whole scan raises. */
  lemma {:induction false} ScanErrPersists(rows: seq<Row>, k: nat, m: nat)
    requires k <= m <= |rows| && ScanUpTo(rows, k).Err?
    ensures ScanUpTo(rows, m) == ScanUpTo(rows, k)
    decreases m - k
  {
    if k < m {
      ScanErrPersists(rows, k, m - 1);
    }
  }

  /** An exception names the first row that is not well formed, and says which way it fails. */
  lemma {:induction false} ScanFirstError(rows: seq<Row>, k: nat)
    requires k <= |rows| && ScanUpTo(rows, k).Err?
    ensures var e := ScanUpTo(rows, k).error;
      e.row < k && WellFormed(rows, e.row) && !RowOk(rows, e.row) &&
      (e.EmptyDateCell? <==> rows[e.row].cellTokens == [])
  {
    if ScanUpTo(rows, k - 1).Err? {
      ScanFirstError(rows, k - 1);
    } else {
      ScanOkIff(rows, k - 1);
      ScanCarries(rows, k - 1);
    }
  }

  /** The records the scan emits are exactly the reference ones. */
  lemma {:induction false} ScanOutput(rows: seq<Row>, k: nat)
    requires k <= |rows| && ScanUpTo(rows, k).Ok?
    ensures WellFormed(rows, k)
    ensures ScanUpTo(rows, k).value.out == Emitted(rows, k)
  {
    ScanOkIff(rows, k);
    if k > 0 {
      ScanOutput(rows, k - 1);
      ScanCarries(rows, k - 1);
      var before := Emitted(rows, k - 1);
      var now := Emitted(rows, k);
      if IsEmitted(rows, k - 1) {
        assert |now| == |before| + 1;
        assert now == before + [Expected(rows, k - 1)];
      } else {
        assert now == before;
      }
    }
  }

  /** No date is carried exactly when no row seen so far set one. */
  lemma {:induction false} DateAfterNone(rows: seq<Row>, k: nat)
    requires k <= |rows|
    ensures DateAfter(rows, k).None? <==> forall j :: 0 <= j < k ==> !SetsDate(rows, j)
  {
    if k > 0 {
      DateAfterNone(rows, k - 1);
    }
  }

  /** The carried date is that of the most recent processed row, at or before, whose cell had a date. */
  lemma {:induction false} DateAfterMostRecent(rows: seq<Row>, k: nat)
    requires k <= |rows| && DateAfter(rows, k).Some?
    ensures exists j :: (0 <= j < k && SetsDate(rows, j) && DateAfter(rows, k).value == rows[j].cellTokens[0] &&
                         forall i :: j < i < k ==> !SetsDate(rows, i))
  {
    if !SetsDate(rows, k - 1) {
      DateAfterMostRecent(rows, k - 1);
      var j :| 0 <= j < k - 1 && SetsDate(rows, j) && DateAfter(rows, k - 1).value == rows[j].cellTokens[0] &&
        forall i :: j < i < k - 1 ==> !SetsDate(rows, i);
      assert forall i :: j < i < k ==> !SetsDate(rows, i);
    }
  }

  /** A full parse: the emitted records, their urls and their count. */
  lemma ParseCharacterised(rows: seq<Row>)
    ensures Parse(rows).Ok? <==> WellFormed(rows, |rows|)
    ensures Parse(rows).Ok? ==> Parse(rows).value == Emitted(rows, |rows|)
    ensures Parse(rows).Ok? ==> |Parse(rows).value| <= |rows|
    ensures Parse(rows).Ok? ==> forall m :: 0 <= m < |Parse(rows).value| ==> IsArticleUrl(Parse(rows).value[m].url)
  {
    ScanOkIff(rows, |rows|);
    if Parse(rows).Ok? {
      ScanOutput(rows, |rows|);
    }
  }

  // ---------------------------------------------------------------------------------------
  // Small tables.

  /** Repeated headlines A, A, B, A give three records; the second row's one-token cell keeps the date. */
  lemma RepeatedHeadlineExample()
    ensures var url := ArticleDomain + "a";
      Parse([Row("A", url, "S", ["Jan-01", "10:00AM"]), Row("A", url, "S", ["10:30AM"]),
             Row("B", url, "S", ["10:30AM"]), Row("A", url, "S", ["11:00AM"])])
      == Ok([ParsedRow("Jan-01", "10:00AM", "S", "A", url), ParsedRow("Jan-01", "10:30AM", "S", "B", url),
             ParsedRow("Jan-01", "11:00AM", "S", "A", url)])
  {
    var url := ArticleDomain + "a";
    ContainsShifted("", ArticleDomain, "a");
    assert "" + ArticleDomain + "a" == url;
    var rows := [Row("A", url, "S", ["Jan-01", "10:00AM"]), Row("A", url, "S", ["10:30AM"]),
                 Row("B", url, "S", ["10:30AM"]), Row("A", url, "S", ["11:00AM"])];
    var r1 := ParsedRow("Jan-01", "10:00AM", "S", "A", url);
    var r2 := ParsedRow("Jan-01", "10:30AM", "S", "B", url);
    var r3 := ParsedRow("Jan-01", "11:00AM", "S", "A", url);
    assert Step(Initial, rows[0], 0).Ok? && Step(Initial, rows[0], 0).value.out == [r1];
    assert ScanUpTo(rows, 1) == Ok(Progress(ScanState("A", Some("Jan-01")), [r1]));
    assert ScanUpTo(rows, 2) == Ok(Progress(ScanState("A", Some("Jan-01")), [r1]));
    var p2 := Progress(ScanState("A", Some("Jan-01")), [r1]);
    assert Step(p2, rows[2], 2).Ok? && Step(p2, rows[2], 2).value.out == [r1, r2];
    assert ScanUpTo(rows, 3) == Ok(Progress(ScanState("B", Some("Jan-01")), [r1, r2]));
    var p3 := Progress(ScanState("B", Some("Jan-01")), [r1, r2]);
    assert Step(p3, rows[3], 3).Ok? && Step(p3, rows[3], 3).value.out == [r1, r2, r3];
    assert ScanUpTo(rows, 4) == Ok(Progress(ScanState("A", Some("Jan-01")), [r1, r2, r3]));
  }

  /**
   * Two consecutive records can share a headline: a row dropped for its domain still becomes the
   * previous headline, so the following repeat of the first headline is not skipped.
   */
  lemma DroppedRowLetsRepeatThrough()
    ensures var url := ArticleDomain + "a";
      Parse([Row("A", url, "S", ["Jan-01", "10:00AM"]), Row("B", "x", "S", ["10:30AM"]),
             Row("A", url, "S", ["11:00AM"])])
      == Ok([ParsedRow("Jan-01", "10:00AM", "S", "A", url), ParsedRow("Jan-01", "11:00AM", "S", "A", url)])
  {
    var url := ArticleDomain + "a";
    ContainsShifted("", ArticleDomain, "a");
    assert "" + ArticleDomain + "a" == url;
    ShorterNeverContains("x", ArticleDomain);
    var rows := [Row("A", url, "S", ["Jan-01", "10:00AM"]), Row("B", "x", "S", ["10:30AM"]),
                 Row("A", url, "S", ["11:00AM"])];
    var r1 := ParsedRow("Jan-01", "10:00AM", "S", "A", url);
    var r3 := ParsedRow("Jan-01", "11:00AM", "S", "A", url);
    assert Step(Initial, rows[0], 0).Ok? && Step(Initial, rows[0], 0).value.out == [r1];
    assert ScanUpTo(rows, 1) == Ok(Progress(ScanState("A", Some("Jan-01")), [r1]));
    assert ScanUpTo(rows, 2) == Ok(Progress(ScanState("B", Some("Jan-01")), [r1]));
    var p2 := Progress(ScanState("B", Some("Jan-01")), [r1]);
    assert Step(p2, rows[2], 2).Ok? && Step(p2, rows[2], 2).value.out == [r1, r3];
    assert ScanUpTo(rows, 3) == Ok(Progress(ScanState("A", Some("Jan-01")), [r1, r3]));
  }

  /** A first row with only a time raises when it is to be emitted: no date was ever read. */
  lemma FirstRowWithoutDateExample()
    ensures Parse([Row("A", ArticleDomain, "S", ["10:00AM"])]) == Err(DateUnbound(0))
  {
    ContainsShifted("", ArticleDomain, "");
    assert "" + ArticleDomain + "" == ArticleDomain;
    var rows := [Row("A", ArticleDomain, "S", ["10:00AM"])];
    assert ScanUpTo(rows, 1) == Err(DateUnbound(0));
  }

  // ---------------------------------------------------------------------------------------
  // The loop itself.

  /** `parse_data` on the rows of one table. */
  method ParseData(rows: seq<Row>) returns (res: Result<seq<ParsedRow>, ParseError>)
    ensures res == Parse(rows)
    ensures res.Ok? <==> WellFormed(rows, |rows|)
    ensures res.Ok? ==> res.value == Emitted(rows, |rows|)
  {
    var parsed: seq<ParsedRow> := [];
    var headlinePrev := "";
    var date: Option<string> := None;
    var i := 0;
    while i < |rows|
      invariant 0 <= i <= |rows|
      invariant ScanUpTo(rows, i) == Ok(Progress(ScanState(headlinePrev, date), parsed))
    {
      var row := rows[i];
      if row.headline != headlinePrev {
        headlinePrev := row.headline;
        var tokens := row.cellTokens;
        var time;
        if |tokens| == 1 {
          time := tokens[0];
        } else {
          if |tokens| == 0 {
            res := Err(EmptyDateCell(i));
            ScanErrPersists(rows, i + 1, |rows|);
            ParseCharacterised(rows);
            return;
          }
          date := Some(tokens[0]);
          time := tokens[1];
        }
        if IsArticleUrl(row.href) {
          if date.None? {
            res := Err(DateUnbound(i));
            ScanErrPersists(rows, i + 1, |rows|);
            ParseCharacterised(rows);
            return;
          }
          parsed := parsed + [ParsedRow(date.value, time, row.source, row.headline, row.href)];
        }
      }
      i := i + 1;
    }
    res := Ok(parsed);
    ParseCharacterised(rows);
  }
}
