/**
 * The export step: `create_output_df`, a ticker-major, index-wise zip of each ticker's parsed
 * rows, summaries and sentiment scores into rows of nine columns, and
 * `recalculate_sentiment_score`, which turns the score negative for a NEGATIVE label.
 */
module Aggregate {
  import opened Wrappers
  import opened NewsParser

  /** One record of the sentiment classifier: its `label` (here `polarity`, `label` being a Dafny keyword) and its `score`. */
  datatype Score = Score(polarity: string, score: real)

  /**
   * One row of the output table; its fields are the columns Ticker, Date, Time, Sentiment,
   * Sentiment Score, News Headline, Summary, Source and URL, in that order.
   */
  datatype OutputRow = OutputRow(ticker: string, date: string, time: string, sentiment: string,
                                 sentimentScore: real, headline: string, summary: string,
                                 source: string, url: string)

  /** The exceptions the nested loop can raise: a missing dictionary key, or a list index past the end. */
  datatype AggregateError = MissingKey(ticker: string) | IndexOutOfRange(ticker: string, index: nat)

  /** The fixed column mapping from a parsed row, its score and its summary. */
  function MakeRow(ticker: string, p: ParsedRow, s: Score, summary: string): OutputRow {
    OutputRow(ticker, p.date, p.time, s.polarity, s.score, p.headline, summary, p.source, p.url)
  }

  /** Row `i` of `ticker`, with the lookups in the order the list display evaluates them. */
  function RowAt(ticker: string, i: nat, summary: string,
                 parsedNews: map<string, seq<ParsedRow>>, scores: map<string, seq<Score>>)
    : Result<OutputRow, AggregateError>
  {
    if ticker !in parsedNews then Err(MissingKey(ticker))
    else if i >= |parsedNews[ticker]| then Err(IndexOutOfRange(ticker, i))
    else if ticker !in scores then Err(MissingKey(ticker))
    else if i >= |scores[ticker]| then Err(IndexOutOfRange(ticker, i))
    else Ok(MakeRow(ticker, parsedNews[ticker][i], scores[ticker][i], summary))
  }

  /** The inner loop for `ticker` after `i` iterations. */
  function BlockUpTo(ticker: string, summaries: seq<string>,
                     parsedNews: map<string, seq<ParsedRow>>, scores: map<string, seq<Score>>, i: nat)
    : Result<seq<OutputRow>, AggregateError>
    requires i <= |summaries|
  {
    if i == 0 then Ok([])
    else
      match BlockUpTo(ticker, summaries, parsedNews, scores, i - 1)
      case Err(e) => Err(e)
      case Ok(block) =>
        match RowAt(ticker, i - 1, summaries[i - 1], parsedNews, scores)
        case Err(e) => Err(e)
        case Ok(row) => Ok(block + [row])
  }

  /** The outer loop after `k` tickers. */
  function AggregateUpTo(tickers: seq<string>, summaries: map<string, seq<string>>,
                         scores: map<string, seq<Score>>, parsedNews: map<string, seq<ParsedRow>>, k: nat)
    : Result<seq<OutputRow>, AggregateError>
    requires k <= |tickers|
  {
    if k == 0 then Ok([])
    else
      match AggregateUpTo(tickers, summaries, scores, parsedNews, k - 1)
      case Err(e) => Err(e)
      case Ok(out) =>
        var t := tickers[k - 1];
        if t !in summaries then Err(MissingKey(t))
        else
          match BlockUpTo(t, summaries[t], parsedNews, scores, |summaries[t]|)
          case Err(e) => Err(e)
          case Ok(block) => Ok(out + block)
  }

  // ---------------------------------------------------------------------------------------
  // Reference description: which inputs zip, and where each row lands.

  /** `ticker` has a summary list, and (when it has summaries) parsed rows and scores at least as long. */
  predicate Feeds(ticker: string, summaries: map<string, seq<string>>,
                  scores: map<string, seq<Score>>, parsedNews: map<string, seq<ParsedRow>>)
  {
    ticker in summaries &&
    (|summaries[ticker]| > 0 ==>
      ticker in parsedNews && ticker in scores &&
      |parsedNews[ticker]| >= |summaries[ticker]| && |scores[ticker]| >= |summaries[ticker]|)
  }

  predicate Consistent(tickers: seq<string>, summaries: map<string, seq<string>>,
                       scores: map<string, seq<Score>>, parsedNews: map<string, seq<ParsedRow>>, k: nat)
    requires k <= |tickers|
  {
    forall j :: 0 <= j < k ==> Feeds(tickers[j], summaries, scores, parsedNews)
  }

  /** The rows of one ticker: one per summary, zipped with the parsed row and score at the same index. */
  function ExpectedBlock(ticker: string, summaries: map<string, seq<string>>,
                         scores: map<string, seq<Score>>, parsedNews: map<string, seq<ParsedRow>>)
    : (block: seq<OutputRow>)
    requires Feeds(ticker, summaries, scores, parsedNews)
    ensures |block| == |summaries[ticker]|
  {
    var n := |summaries[ticker]|;
    seq(n, i requires 0 <= i < n =>
      MakeRow(ticker, parsedNews[ticker][i], scores[ticker][i], summaries[ticker][i]))
  }

  function ExpectedUpTo(tickers: seq<string>, summaries: map<string, seq<string>>,
                        scores: map<string, seq<Score>>, parsedNews: map<string, seq<ParsedRow>>, k: nat)
    : seq<OutputRow>
    requires k <= |tickers| && Consistent(tickers, summaries, scores, parsedNews, k)
  {
    if k == 0 then []
    else ExpectedUpTo(tickers, summaries, scores, parsedNews, k - 1) +
         ExpectedBlock(tickers[k - 1], summaries, scores, parsedNews)
  }

  /** The number of rows the first `k` tickers contribute. */
  function Offset(tickers: seq<string>, summaries: map<string, seq<string>>, k: nat): nat
    requires k <= |tickers| && forall j :: 0 <= j < k ==> tickers[j] in summaries
  {
    if k == 0 then 0 else Offset(tickers, summaries, k - 1) + |summaries[tickers[k - 1]]|
  }

  /** The inner loop succeeds exactly when the parsed rows and scores reach index `i - 1`, and then zips. */
  lemma {:induction false} BlockCharacterised(ticker: string, summaries: seq<string>,
                                              parsedNews: map<string, seq<ParsedRow>>,
                                              scores: map<string, seq<Score>>, i: nat)
    requires i <= |summaries|
    ensures BlockUpTo(ticker, summaries, parsedNews, scores, i).Ok? <==>
      (i == 0 || (ticker in parsedNews && ticker in scores && |parsedNews[ticker]| >= i && |scores[ticker]| >= i))
    ensures BlockUpTo(ticker, summaries, parsedNews, scores, i).Ok? ==>
      var block := BlockUpTo(ticker, summaries, parsedNews, scores, i).value;
      |block| == i &&
      forall m :: 0 <= m < i ==> block[m] == MakeRow(ticker, parsedNews[ticker][m], scores[ticker][m], summaries[m])
  {
    if i > 0 {
      BlockCharacterised(ticker, summaries, parsedNews, scores, i - 1);
    }
  }

  /** The nested loop succeeds exactly on consistent inputs, and then yields the reference rows. */
  lemma {:induction false} AggregateCharacterised(tickers: seq<string>, summaries: map<string, seq<string>>,
                                                  scores: map<string, seq<Score>>,
                                                  parsedNews: map<string, seq<ParsedRow>>, k: nat)
    requires k <= |tickers|
    ensures AggregateUpTo(tickers, summaries, scores, parsedNews, k).Ok? <==>
      Consistent(tickers, summaries, scores, parsedNews, k)
    ensures AggregateUpTo(tickers, summaries, scores, parsedNews, k).Ok? ==>
      AggregateUpTo(tickers, summaries, scores, parsedNews, k).value == ExpectedUpTo(tickers, summaries, scores, parsedNews, k)
  {
    if k > 0 {
      AggregateCharacterised(tickers, summaries, scores, parsedNews, k - 1);
      var t := tickers[k - 1];
      assert Consistent(tickers, summaries, scores, parsedNews, k) <==>
        Consistent(tickers, summaries, scores, parsedNews, k - 1) && Feeds(t, summaries, scores, parsedNews);
      if t in summaries {
        BlockCharacterised(t, summaries[t], parsedNews, scores, |summaries[t]|);
        if Feeds(t, summaries, scores, parsedNews) {
          var block := BlockUpTo(t, summaries[t], parsedNews, scores, |summaries[t]|).value;
          assert block == ExpectedBlock(t, summaries, scores, parsedNews);
        }
      }
    }
  }

  /** The output has one row per summary of every ticker. */
  lemma {:induction false} ExpectedLength(tickers: seq<string>, summaries: map<string, seq<string>>,
                                          scores: map<string, seq<Score>>,
                                          parsedNews: map<string, seq<ParsedRow>>, k: nat)
    requires k <= |tickers| && Consistent(tickers, summaries, scores, parsedNews, k)
    ensures |ExpectedUpTo(tickers, summaries, scores, parsedNews, k)| == Offset(tickers, summaries, k)
  {
    if k > 0 {
      ExpectedLength(tickers, summaries, scores, parsedNews, k - 1);
    }
  }

  /** Ticker-major layout: the rows of the `j`-th ticker are its zipped block, starting at `Offset(j)`. */
  lemma {:induction false} ExpectedLayout(tickers: seq<string>, summaries: map<string, seq<string>>,
                                          scores: map<string, seq<Score>>,
                                          parsedNews: map<string, seq<ParsedRow>>, j: nat, k: nat)
    requires j < k <= |tickers| && Consistent(tickers, summaries, scores, parsedNews, k)
    ensures |ExpectedUpTo(tickers, summaries, scores, parsedNews, k)| == Offset(tickers, summaries, k)
    ensures Offset(tickers, summaries, j) + |summaries[tickers[j]]| <= Offset(tickers, summaries, k)
    ensures ExpectedUpTo(tickers, summaries, scores, parsedNews, k)
              [Offset(tickers, summaries, j)..Offset(tickers, summaries, j) + |summaries[tickers[j]]|]
            == ExpectedBlock(tickers[j], summaries, scores, parsedNews)
  {
    ExpectedLength(tickers, summaries, scores, parsedNews, k);
    ExpectedLength(tickers, summaries, scores, parsedNews, k - 1);
    var before := ExpectedUpTo(tickers, summaries, scores, parsedNews, k - 1);
    var block := ExpectedBlock(tickers[k - 1], summaries, scores, parsedNews);
    var lo := Offset(tickers, summaries, j);
    var hi := lo + |summaries[tickers[j]]|;
    if j < k - 1 {
      ExpectedLayout(tickers, summaries, scores, parsedNews, j, k - 1);
      SliceOfConcat(before, block, lo, hi);
    } else {
      SliceOfConcat(before, block, lo, hi);
    }
  }

  lemma SliceOfConcat<T>(a: seq<T>, b: seq<T>, lo: nat, hi: nat)
    requires lo <= hi <= |a| + |b|
    requires hi <= |a| || lo == |a|
    ensures hi <= |a| ==> (a + b)[lo..hi] == a[lo..hi]
    ensures lo == |a| && hi == |a| + |b| ==> (a + b)[lo..hi] == b
  {
  }

  /** Row `i` of the `j`-th ticker is its parsed row, score and summary at index `i`, in the fixed column order. */
  lemma RowPlacement(tickers: seq<string>, summaries: map<string, seq<string>>,
                     scores: map<string, seq<Score>>, parsedNews: map<string, seq<ParsedRow>>,
                     j: nat, i: nat, k: nat)
    requires j < k <= |tickers| && Consistent(tickers, summaries, scores, parsedNews, k)
    requires i < |summaries[tickers[j]]|
    ensures Offset(tickers, summaries, j) + i < |ExpectedUpTo(tickers, summaries, scores, parsedNews, k)|
    ensures var t := tickers[j];
      ExpectedUpTo(tickers, summaries, scores, parsedNews, k)[Offset(tickers, summaries, j) + i] ==
        OutputRow(t, parsedNews[t][i].date, parsedNews[t][i].time, scores[t][i].polarity, scores[t][i].score,
                  parsedNews[t][i].headline, summaries[t][i], parsedNews[t][i].source, parsedNews[t][i].url)
  {
    ExpectedLayout(tickers, summaries, scores, parsedNews, j, k);
    var lo := Offset(tickers, summaries, j);
    var hi := lo + |summaries[tickers[j]]|;
    var all := ExpectedUpTo(tickers, summaries, scores, parsedNews, k);
    assert all[lo + i] == all[lo..hi][i];
  }

  /** Once raised, an exception is what the whole nested loop raises. */
  lemma {:induction false} AggregateErrPersists(tickers: seq<string>, summaries: map<string, seq<string>>,
                                                scores: map<string, seq<Score>>,
                                                parsedNews: map<string, seq<ParsedRow>>, k: nat, m: nat)
    requires k <= m <= |tickers| && AggregateUpTo(tickers, summaries, scores, parsedNews, k).Err?
    ensures AggregateUpTo(tickers, summaries, scores, parsedNews, m) == AggregateUpTo(tickers, summaries, scores, parsedNews, k)
    decreases m - k
  {
    if k < m {
      AggregateErrPersists(tickers, summaries, scores, parsedNews, k, m - 1);
    }
  }

  lemma {:induction false} BlockErrPersists(ticker: string, summaries: seq<string>,
                                            parsedNews: map<string, seq<ParsedRow>>,
                                            scores: map<string, seq<Score>>, i: nat, m: nat)
    requires i <= m <= |summaries| && BlockUpTo(ticker, summaries, parsedNews, scores, i).Err?
    ensures BlockUpTo(ticker, summaries, parsedNews, scores, m) == BlockUpTo(ticker, summaries, parsedNews, scores, i)
    decreases m - i
  {
    if i < m {
      BlockErrPersists(ticker, summaries, parsedNews, scores, i, m - 1);
    }
  }

  /** `create_output_df`: the nested loop over the monitored tickers and their summaries. */
  method CreateOutputDf(tickers: seq<string>, summaries: map<string, seq<string>>,
                        scores: map<string, seq<Score>>, parsedNews: map<string, seq<ParsedRow>>)
    returns (res: Result<seq<OutputRow>, AggregateError>)
    ensures res == AggregateUpTo(tickers, summaries, scores, parsedNews, |tickers|)
    ensures res.Ok? <==> Consistent(tickers, summaries, scores, parsedNews, |tickers|)
    ensures res.Ok? ==> res.value == ExpectedUpTo(tickers, summaries, scores, parsedNews, |tickers|)
  {
    AggregateCharacterised(tickers, summaries, scores, parsedNews, |tickers|);
    var output: seq<OutputRow> := [];
    var k := 0;
    while k < |tickers|
      invariant 0 <= k <= |tickers|
      invariant AggregateUpTo(tickers, summaries, scores, parsedNews, k) == Ok(output)
    {
      var t := tickers[k];
      if t !in summaries {
        res := Err(MissingKey(t));
        AggregateErrPersists(tickers, summaries, scores, parsedNews, k + 1, |tickers|);
        return;
      }
      var sums := summaries[t];
      ghost var before := output;
      var i := 0;
      while i < |sums|
        invariant 0 <= i <= |sums|
        invariant BlockUpTo(t, sums, parsedNews, scores, i).Ok?
        invariant output == before + BlockUpTo(t, sums, parsedNews, scores, i).value
      {
        var err: Option<AggregateError> := None;
        if t !in parsedNews {
          err := Some(MissingKey(t));
        } else if i >= |parsedNews[t]| {
          err := Some(IndexOutOfRange(t, i));
        } else if t !in scores {
          err := Some(MissingKey(t));
        } else if i >= |scores[t]| {
          err := Some(IndexOutOfRange(t, i));
        }
        if err.Some? {
          res := Err(err.value);
          BlockErrPersists(t, sums, parsedNews, scores, i + 1, |sums|);
          AggregateErrPersists(tickers, summaries, scores, parsedNews, k + 1, |tickers|);
          return;
        }
        var p := parsedNews[t][i];
        var s := scores[t][i];
        output := output + [OutputRow(t, p.date, p.time, s.polarity, s.score, p.headline, sums[i], p.source, p.url)];
        i := i + 1;
      }
      k := k + 1;
    }
    res := Ok(output);
  }

  // ---------------------------------------------------------------------------------------
  // The sign adjustment.

  /** `recalculate_sentiment_score`: negate the score when the label is exactly NEGATIVE; nothing else changes. */
  function RecalculateSentimentScore(row: OutputRow): (r: OutputRow)
    ensures r.sentimentScore == if row.sentiment == "NEGATIVE" then -row.sentimentScore else row.sentimentScore
    ensures r.(sentimentScore := row.sentimentScore) == row
  {
    if row.sentiment == "NEGATIVE" then row.(sentimentScore := row.sentimentScore * -1.0) else row
  }

  /** Adjusting twice gives the row back. */
  lemma RecalculateInvolution(row: OutputRow)
    ensures RecalculateSentimentScore(RecalculateSentimentScore(row)) == row
  {
  }

  /** For a positive magnitude, the adjusted score is negative exactly for the NEGATIVE label. */
  lemma SignFollowsLabel(row: OutputRow)
    requires row.sentimentScore > 0.0
    ensures RecalculateSentimentScore(row).sentimentScore < 0.0 <==> row.sentiment == "NEGATIVE"
    ensures RecalculateSentimentScore(row).sentimentScore == row.sentimentScore ||
            RecalculateSentimentScore(row).sentimentScore == -row.sentimentScore
  {
  }

  /** `output.apply(recalculate_sentiment_score, axis=1)`: the adjustment row by row, count and order kept. */
  function ApplyRecalculate(rows: seq<OutputRow>): (r: seq<OutputRow>)
    ensures |r| == |rows|
    ensures forall i :: 0 <= i < |rows| ==> r[i] == RecalculateSentimentScore(rows[i])
  {
    if |rows| == 0 then [] else [RecalculateSentimentScore(rows[0])] + ApplyRecalculate(rows[1..])
  }
}
