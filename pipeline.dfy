/**
 * The script's top level: the per-ticker dictionaries built one stage after the other
 * (parsed rows, articles, summaries, scores), then the output table and its sign adjustment.
 * The listing download, the summarisation model and the sentiment classifier are parameters.
 */
module Pipeline {
  import opened Wrappers
  import opened NewsParser
  import opened Article
  import opened Aggregate

  /** The only exception the run can raise from its modelled part: parsing one ticker's table fails. */
  datatype PipelineError = ParseFailed(ticker: string, error: ParseError)

  /** `summarize`: one summary per article, in order; `summarizer` stands for the model's encode, generate and decode. */
  method Summarize(articles: seq<string>, summarizer: string -> string) returns (summaries: seq<string>)
    ensures |summaries| == |articles|
    ensures forall i :: 0 <= i < |articles| ==> summaries[i] == summarizer(articles[i])
  {
    summaries := [];
    for i := 0 to |articles|
      invariant |summaries| == i
      invariant forall j :: 0 <= j < i ==> summaries[j] == summarizer(articles[j])
    {
      summaries := summaries + [summarizer(articles[i])];
    }
  }

  /** `sentiment(summaries)`: one score per summary, in order. */
  function ScoreAll(summaries: seq<string>, classify: string -> Score): (scores: seq<Score>)
    ensures |scores| == |summaries|
    ensures forall i :: 0 <= i < |summaries| ==> scores[i] == classify(summaries[i])
  {
    if |summaries| == 0 then [] else [classify(summaries[0])] + ScoreAll(summaries[1..], classify)
  }

  // ---------------------------------------------------------------------------------------
  // What the run produces, row by row.

  /** The final row for parsed row `p` of `ticker`: its own article's summary, that summary's score, sign-adjusted. */
  function FinalRow(ticker: string, p: ParsedRow, fetch: string -> Option<seq<string>>,
                    summarizer: string -> string, classify: string -> Score): OutputRow
  {
    var summary := summarizer(ExtractArticle(p.url, fetch));
    RecalculateSentimentScore(MakeRow(ticker, p, classify(summary), summary))
  }

  function TickerOutput(ticker: string, parsed: seq<ParsedRow>, fetch: string -> Option<seq<string>>,
                        summarizer: string -> string, classify: string -> Score): (rows: seq<OutputRow>)
    ensures |rows| == |parsed|
  {
    seq(|parsed|, i requires 0 <= i < |parsed| => FinalRow(ticker, parsed[i], fetch, summarizer, classify))
  }

  predicate TablesParse(tickers: seq<string>, tables: string -> seq<Row>, k: nat)
    requires k <= |tickers|
  {
    forall j :: 0 <= j < k ==> Parse(tables(tickers[j])).Ok?
  }

  /** The final rows of the first `k` tickers: each ticker's emitted rows, in order, ticker after ticker. */
  function FinalUpTo(tickers: seq<string>, tables: string -> seq<Row>, fetch: string -> Option<seq<string>>,
                     summarizer: string -> string, classify: string -> Score, k: nat): seq<OutputRow>
    requires k <= |tickers| && TablesParse(tickers, tables, k)
  {
    if k == 0 then []
    else
      var t := tickers[k - 1];
      FinalUpTo(tickers, tables, fetch, summarizer, classify, k - 1) +
      TickerOutput(t, Parse(tables(t)).value, fetch, summarizer, classify)
  }

  // ---------------------------------------------------------------------------------------
  // The dictionaries each stage builds.

  predicate ParsedFor(t: string, tables: string -> seq<Row>, parsedNews: map<string, seq<ParsedRow>>) {
    t in parsedNews && Parse(tables(t)) == Ok(parsedNews[t])
  }

  predicate ArticlesFor(t: string, parsedNews: map<string, seq<ParsedRow>>, articles: map<string, seq<string>>,
                        fetch: string -> Option<seq<string>>)
  {
    t in parsedNews && t in articles && |articles[t]| == |parsedNews[t]| &&
    forall i :: 0 <= i < |parsedNews[t]| ==> articles[t][i] == ExtractArticle(parsedNews[t][i].url, fetch)
  }

  predicate SummariesFor(t: string, articles: map<string, seq<string>>, summaries: map<string, seq<string>>,
                         summarizer: string -> string)
  {
    t in articles && t in summaries && |summaries[t]| == |articles[t]| &&
    forall i :: 0 <= i < |articles[t]| ==> summaries[t][i] == summarizer(articles[t][i])
  }

  predicate ScoresFor(t: string, summaries: map<string, seq<string>>, scores: map<string, seq<Score>>,
                      classify: string -> Score)
  {
    t in summaries && t in scores && |scores[t]| == |summaries[t]| &&
    forall i :: 0 <= i < |summaries[t]| ==> scores[t][i] == classify(summaries[t][i])
  }

  /** Ticker `t`'s table parses, its inputs zip, and its zipped block, adjusted, is its final rows. */
  predicate BlockAgrees(t: string, tables: string -> seq<Row>, fetch: string -> Option<seq<string>>,
                        summarizer: string -> string, classify: string -> Score,
                        parsedNews: map<string, seq<ParsedRow>>,
                        summaries: map<string, seq<string>>, scores: map<string, seq<Score>>)
  {
    Parse(tables(t)).Ok? && Feeds(t, summaries, scores, parsedNews) &&
    ApplyRecalculate(ExpectedBlock(t, summaries, scores, parsedNews)) ==
      TickerOutput(t, Parse(tables(t)).value, fetch, summarizer, classify)
  }

  lemma ApplyRecalculateConcat(a: seq<OutputRow>, b: seq<OutputRow>)
    ensures ApplyRecalculate(a + b) == ApplyRecalculate(a) + ApplyRecalculate(b)
  {
    var l, r := ApplyRecalculate(a + b), ApplyRecalculate(a) + ApplyRecalculate(b);
    assert |l| == |r|;
    forall i | 0 <= i < |l| ensures l[i] == r[i] {
      if i < |a| { assert (a + b)[i] == a[i]; } else { assert (a + b)[i] == b[i - |a|]; }
    }
  }

  /** One ticker's zipped block, adjusted, is that ticker's final rows. */
  lemma BlockOutput(t: string, fetch: string -> Option<seq<string>>,
                    summarizer: string -> string, classify: string -> Score,
                    parsedNews: map<string, seq<ParsedRow>>, articles: map<string, seq<string>>,
                    summaries: map<string, seq<string>>, scores: map<string, seq<Score>>)
    requires ArticlesFor(t, parsedNews, articles, fetch)
    requires SummariesFor(t, articles, summaries, summarizer) && ScoresFor(t, summaries, scores, classify)
    ensures Feeds(t, summaries, scores, parsedNews)
    ensures ApplyRecalculate(ExpectedBlock(t, summaries, scores, parsedNews)) ==
            TickerOutput(t, parsedNews[t], fetch, summarizer, classify)
  {
    var adjusted := ApplyRecalculate(ExpectedBlock(t, summaries, scores, parsedNews));
    var mine := TickerOutput(t, parsedNews[t], fetch, summarizer, classify);
    forall i | 0 <= i < |mine| ensures adjusted[i] == mine[i] {
      assert summaries[t][i] == summarizer(ExtractArticle(parsedNews[t][i].url, fetch));
    }
  }

  /** When every ticker's block agrees, the zip is consistent and the adjusted table is `FinalUpTo`. */
  lemma {:induction false} BlocksOutput(tickers: seq<string>, tables: string -> seq<Row>,
                                        fetch: string -> Option<seq<string>>,
                                        summarizer: string -> string, classify: string -> Score,
                                        parsedNews: map<string, seq<ParsedRow>>,
                                        summaries: map<string, seq<string>>, scores: map<string, seq<Score>>, k: nat)
    requires k <= |tickers|
    requires forall j :: 0 <= j < k ==>
      BlockAgrees(tickers[j], tables, fetch, summarizer, classify, parsedNews, summaries, scores)
    ensures TablesParse(tickers, tables, k)
    ensures Consistent(tickers, summaries, scores, parsedNews, k)
    ensures ApplyRecalculate(ExpectedUpTo(tickers, summaries, scores, parsedNews, k)) ==
            FinalUpTo(tickers, tables, fetch, summarizer, classify, k)
  {
    if k > 0 {
      BlocksOutput(tickers, tables, fetch, summarizer, classify, parsedNews, summaries, scores, k - 1);
      var t := tickers[k - 1];
      assert BlockAgrees(t, tables, fetch, summarizer, classify, parsedNews, summaries, scores);
      var prev := ExpectedUpTo(tickers, summaries, scores, parsedNews, k - 1);
      var block := ExpectedBlock(t, summaries, scores, parsedNews);
      var mine := TickerOutput(t, Parse(tables(t)).value, fetch, summarizer, classify);
      assert ExpectedUpTo(tickers, summaries, scores, parsedNews, k) == prev + block;
      ApplyRecalculateConcat(prev, block);
      assert ApplyRecalculate(block) == mine;
      assert FinalUpTo(tickers, tables, fetch, summarizer, classify, k) ==
             FinalUpTo(tickers, tables, fetch, summarizer, classify, k - 1) + mine;
    }
  }

  /** `parsed_news`: each ticker's table parsed, the first failing ticker's exception otherwise. */
  method ParseAllTickers(tickers: seq<string>, tables: string -> seq<Row>)
    returns (res: Result<map<string, seq<ParsedRow>>, PipelineError>)
    ensures res.Ok? <==> TablesParse(tickers, tables, |tickers|)
    ensures res.Ok? ==> forall j :: 0 <= j < |tickers| ==> ParsedFor(tickers[j], tables, res.value)
    ensures res.Err? ==> res.error.ticker in tickers && Parse(tables(res.error.ticker)) == Err(res.error.error)
    ensures res.Err? ==> exists j :: 0 <= j < |tickers| && tickers[j] == res.error.ticker && TablesParse(tickers, tables, j)
  {
    var parsedNews: map<string, seq<ParsedRow>> := map[];
    for k := 0 to |tickers|
      invariant forall j :: 0 <= j < k ==> ParsedFor(tickers[j], tables, parsedNews)
      invariant TablesParse(tickers, tables, k)
    {
      var t := tickers[k];
      var parsed := ParseData(tables(t));
      if parsed.Err? {
        return Err(ParseFailed(t, parsed.error));
      }
      parsedNews := parsedNews[t := parsed.value];
    }
    return Ok(parsedNews);
  }

  /** `articles`: `scrape_and_process` on each ticker's parsed rows. */
  method ScrapeAllTickers(tickers: seq<string>, parsedNews: map<string, seq<ParsedRow>>,
                          fetch: string -> Option<seq<string>>)
    returns (articles: map<string, seq<string>>)
    requires forall j :: 0 <= j < |tickers| ==> tickers[j] in parsedNews
    ensures forall j :: 0 <= j < |tickers| ==> ArticlesFor(tickers[j], parsedNews, articles, fetch)
  {
    articles := map[];
    for k := 0 to |tickers|
      invariant forall j :: 0 <= j < k ==> ArticlesFor(tickers[j], parsedNews, articles, fetch)
    {
      var t := tickers[k];
      var a := ScrapeAndProcess(parsedNews[t], fetch);
      articles := articles[t := a];
    }
  }

  /** `summaries`: `summarize` on each ticker's articles. */
  method SummarizeAllTickers(tickers: seq<string>, articles: map<string, seq<string>>,
                             summarizer: string -> string)
    returns (summaries: map<string, seq<string>>)
    requires forall j :: 0 <= j < |tickers| ==> tickers[j] in articles
    ensures forall j :: 0 <= j < |tickers| ==> SummariesFor(tickers[j], articles, summaries, summarizer)
  {
    summaries := map[];
    for k := 0 to |tickers|
      invariant forall j :: 0 <= j < k ==> SummariesFor(tickers[j], articles, summaries, summarizer)
    {
      var t := tickers[k];
      var s := Summarize(articles[t], summarizer);
      summaries := summaries[t := s];
    }
  }

  /** `scores`: the classifier on each ticker's summaries. */
  method ScoreAllTickers(tickers: seq<string>, summaries: map<string, seq<string>>, classify: string -> Score)
    returns (scores: map<string, seq<Score>>)
    requires forall j :: 0 <= j < |tickers| ==> tickers[j] in summaries
    ensures forall j :: 0 <= j < |tickers| ==> ScoresFor(tickers[j], summaries, scores, classify)
  {
    scores := map[];
    for k := 0 to |tickers|
      invariant forall j :: 0 <= j < k ==> ScoresFor(tickers[j], summaries, scores, classify)
    {
      var t := tickers[k];
      scores := scores[t := ScoreAll(summaries[t], classify)];
    }
  }

  /** The whole run on the monitored tickers, from the tables to the sign-adjusted output table. */
  method Run(tickers: seq<string>, tables: string -> seq<Row>, fetch: string -> Option<seq<string>>,
             summarizer: string -> string, classify: string -> Score)
    returns (res: Result<seq<OutputRow>, PipelineError>)
    ensures res.Ok? <==> TablesParse(tickers, tables, |tickers|)
    ensures res.Ok? ==> res.value == FinalUpTo(tickers, tables, fetch, summarizer, classify, |tickers|)
    ensures res.Err? ==> res.error.ticker in tickers && Parse(tables(res.error.ticker)) == Err(res.error.error)
    ensures res.Err? ==> exists j :: 0 <= j < |tickers| && tickers[j] == res.error.ticker && TablesParse(tickers, tables, j)
  {
    var parsed := ParseAllTickers(tickers, tables);
    if parsed.Err? {
      return Err(parsed.error);
    }
    var parsedNews := parsed.value;
    var articles := ScrapeAllTickers(tickers, parsedNews, fetch);
    var summaries := SummarizeAllTickers(tickers, articles, summarizer);
    var scores := ScoreAllTickers(tickers, summaries, classify);
    forall j | 0 <= j < |tickers|
      ensures BlockAgrees(tickers[j], tables, fetch, summarizer, classify, parsedNews, summaries, scores)
    {
      var t := tickers[j];
      assert ParsedFor(t, tables, parsedNews) && ArticlesFor(t, parsedNews, articles, fetch);
      assert SummariesFor(t, articles, summaries, summarizer) && ScoresFor(t, summaries, scores, classify);
      BlockOutput(t, fetch, summarizer, classify, parsedNews, articles, summaries, scores);
    }
    BlocksOutput(tickers, tables, fetch, summarizer, classify, parsedNews, summaries, scores, |tickers|);
    var output := CreateOutputDf(tickers, summaries, scores, parsedNews);
    var finalOutput := ApplyRecalculate(output.value);
    return Ok(finalOutput);
  }
}
