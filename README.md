# Finviz news sentiment pipeline, modelled in Dafny

This project models the data-processing core of
`scrape_summarize_sentiment_finviz.py`. For each monitored ticker the script
reads the Finviz news table, keeps the Yahoo Finance article rows, downloads and
cleans each article, summarises it, classifies the summary's sentiment, and
writes one output row per article. A negative classification gets its score
negated.

The model is split into modules that follow the script's stages:

- `Wrappers` (`wrappers.dfy`): `Option` and `Result`.
- `Text` (`text.dfy`): Python's substring test `sub in s` (`Contains`),
  `s.split(' ')` (`Split`) and `' '.join(fields)` (`Join`), written out exactly.
- `NewsParser` (`news_parser.dfy`): `parse_data`. A table row is a `Row`
  holding the anchor text, the anchor's `href`, the stripped source label and
  the whitespace tokens of the first cell. The loop is the method `ParseData`.
  Its specification is the left fold `ScanUpTo` over the `Step` function,
  plus a reference definition by index (`IsProcessed`, `SetsDate`, `DateAfter`,
  `IsEmitted`, `EmittedIndices`, `Emitted`).
  The two exceptions the loop can raise are modelled as errors:
  - `EmptyDateCell(k)`: the `IndexError` of a processed row whose cell has no
    token. It is raised whatever the row's url.
  - `DateUnbound(k)`: the `UnboundLocalError` of the first row to be appended
    while no earlier processed row has carried a date.
- `Article` (`article.dfy`): `scrape_and_process`. Fetching and HTML parsing
  are a parameter `fetch: string -> Option<seq<string>>` that yields the texts
  of a page's `<p>` elements, or `None` for any failure the bare `except`
  swallows. The text pipeline is modelled exactly: join, split on single
  spaces, keep 350 fields, re-join, then replace U+00A0 and delete
  backslashes.
- `Aggregate` (`aggregate.dfy`): `create_output_df`, with the index-driven
  nested loop and the `KeyError`/`IndexError` order of its lookups, together
  with `recalculate_sentiment_score` and the row-wise `apply`.
- `Pipeline` (`pipeline.dfy`): the module-level dictionary comprehensions that
  chain the stages, `summarize`, and the sentiment call. The summariser and
  classifier are parameters. `Run` is proved to return exactly the reference
  table `FinalUpTo` built ticker by ticker.

## Behaviour worth knowing

Each point below corrects an expectation a reader might bring to the script.
The model follows the code in each case.

- One might expect no two retained rows to share a headline. The code
  compares each row with the previous *input* row, not the previous *retained*
  one. When a non-Yahoo row sits between two Yahoo rows with the same headline,
  both Yahoo rows are kept: `NewsParser.DroppedRowLetsRepeatThrough`.
- One might expect an article to hold at most 350 space-separated words. The
  code replaces U+00A0 with a space *after* truncating, so the cleaned article
  can split into more than 350 fields: `Article.NbspAddsFields`. The bound that
  does hold is on the text before replacement: `Article.ProcessCleanText` and
  `Article.TruncateFields`.
- One might expect a failing ticker to be skipped. In the code, a parse
  exception for one ticker ends the whole run: `Pipeline.Run` returns the
  first failing ticker's error in list order.
- One might expect any length mismatch between summaries, scores and parsed
  rows to be fatal. The code iterates over the summaries only, so longer score
  or parsed lists are silently ignored and only shorter ones raise.
  `Aggregate.Consistent` states this as `>=`.

## Model

| member | source | states |
|---|---|---|
| Text.ContainsIff | scrape_summarize_sentiment_finviz.py:64 | `Contains(s, sub)` holds exactly when `sub` occurs in `s` at some offset, as Python's `in` does |
| Text.ContainsShifted | scrape_summarize_sentiment_finviz.py:64 | the domain test is containment, not a prefix test: any text before or after the domain still passes |
| Text.ShorterNeverContains | scrape_summarize_sentiment_finviz.py:64 | a string shorter than the domain never contains it |
| Text.Split | scrape_summarize_sentiment_finviz.py:86 | `split(' ')` yields at least one field and no field contains a space |
| Text.JoinSplit | scrape_summarize_sentiment_finviz.py:86-87 | re-joining the fields of `split(' ')` with single spaces gives back the original text |
| Text.SplitJoin | scrape_summarize_sentiment_finviz.py:86-87 | splitting a join of space-free fields gives back those fields |
| Text.JoinPrefix | scrape_summarize_sentiment_finviz.py:86-87 | joining a prefix of the fields yields a prefix of the joined text |
| NewsParser.Step | scrape_summarize_sentiment_finviz.py:43-65 | one row appends at most one parsed row, never changes earlier output, and an error names the current row |
| NewsParser.EmittedIndices | scrape_summarize_sentiment_finviz.py:43-65 | the emitted rows are exactly the processed rows on the article domain, in increasing input order, at most one per input row |
| NewsParser.ScanCarries | scrape_summarize_sentiment_finviz.py:40-63 | after k rows the loop holds the headline of input row k-1 and the date of the most recent processed row that had two tokens |
| NewsParser.DateAfterNone | scrape_summarize_sentiment_finviz.py:56-63 | no date is carried exactly when no earlier processed row had a two-token cell |
| NewsParser.DateAfterMostRecent | scrape_summarize_sentiment_finviz.py:56-63 | a carried date is the first token of the latest processed row that had two tokens, and no later processed row set a date |
| NewsParser.ScanOkIff | scrape_summarize_sentiment_finviz.py:43-65 | the loop gets through k rows without an exception exactly when rows 0..k-1 are well formed |
| NewsParser.ScanFirstError | scrape_summarize_sentiment_finviz.py:56-65 | an error names the first row that is not well formed, with its kind as Python raises it |
| NewsParser.ScanOutput | scrape_summarize_sentiment_finviz.py:43-65 | the accumulated output is the reference list `Emitted`: the emitted rows in order, each with its carried date, its time, source, headline and url |
| NewsParser.ParseCharacterised | scrape_summarize_sentiment_finviz.py:37-67 | parsing succeeds exactly on well-formed tables, yields `Emitted`, has no more rows than the input, and every url is on the article domain |
| NewsParser.RepeatedHeadlineExample | scrape_summarize_sentiment_finviz.py:40-48 | headlines A, A, B, A on article urls give three rows: only the repeat of the immediately preceding headline is skipped |
| NewsParser.DroppedRowLetsRepeatThrough | scrape_summarize_sentiment_finviz.py:40-65 | a non-article row between two article rows with the same headline lets both be kept |
| NewsParser.FirstRowWithoutDateExample | scrape_summarize_sentiment_finviz.py:58-65 | a first emitted row with only a time token fails with an unbound date |
| NewsParser.ParseData | scrape_summarize_sentiment_finviz.py:37-67 | the loop returns `Parse(rows)`: success exactly on well-formed tables, and then the reference list `Emitted` |
| Article.TruncateIsPrefix | scrape_summarize_sentiment_finviz.py:86-87 | cutting to n fields and re-joining yields a prefix of the text |
| Article.TruncateFields | scrape_summarize_sentiment_finviz.py:86-87 | the cut text splits into exactly the first min(n, count) fields of the original |
| Article.TruncateWithinBudget | scrape_summarize_sentiment_finviz.py:86-87 | a text with at most n fields is left unchanged |
| Article.ReplaceNbsp | scrape_summarize_sentiment_finviz.py:88 | each U+00A0 becomes a space, every other character stays in place, and the length is unchanged |
| Article.DeleteBackslashes | scrape_summarize_sentiment_finviz.py:89 | the result contains exactly the characters of the input other than the backslash and is no longer |
| Article.DeleteBackslashesConcat | scrape_summarize_sentiment_finviz.py:89 | deleting backslashes distributes over concatenation, so the kept characters stay in their order |
| Article.DeleteBackslashesCount | scrape_summarize_sentiment_finviz.py:89 | every character other than the backslash is kept exactly as many times as it occurs, and every backslash is removed |
| Article.Normalise | scrape_summarize_sentiment_finviz.py:88-89 | the result has neither U+00A0 nor a backslash |
| Article.NormaliseClean | scrape_summarize_sentiment_finviz.py:88-89 | normalising a text with neither character changes nothing |
| Article.NormaliseIdempotent | scrape_summarize_sentiment_finviz.py:88-89 | normalising twice is the same as normalising once |
| Article.NbspAddsFields | scrape_summarize_sentiment_finviz.py:86-89 | a U+00A0 inside one field becomes a field boundary after cleaning, so the cleaned article can exceed the budget |
| Article.ProcessText | scrape_summarize_sentiment_finviz.py:85-89 | the processed article has neither U+00A0 nor a backslash |
| Article.ProcessCleanText | scrape_summarize_sentiment_finviz.py:85-89 | for clean paragraphs the article is a prefix of the joined text holding exactly its first min(350, count) fields |
| Article.ProcessShortText | scrape_summarize_sentiment_finviz.py:85-89 | clean paragraphs within the budget come out exactly as joined |
| Article.ExtractArticle | scrape_summarize_sentiment_finviz.py:77-94 | off-domain urls and failed fetches give the empty article; otherwise the processed page text |
| Article.ScrapeAndProcess | scrape_summarize_sentiment_finviz.py:74-98 | one article per parsed row, in row order, each the extraction of that row's url |
| Aggregate.ExpectedBlock | scrape_summarize_sentiment_finviz.py:128-140 | a ticker contributes one row per summary |
| Aggregate.BlockCharacterised | scrape_summarize_sentiment_finviz.py:128-140 | the inner loop succeeds exactly when parsed rows and scores reach every summary index, and then yields the reference block |
| Aggregate.AggregateCharacterised | scrape_summarize_sentiment_finviz.py:127-140 | the nested loop succeeds exactly when every ticker's three lists are present and long enough, and then yields the concatenated reference blocks |
| Aggregate.ExpectedLength | scrape_summarize_sentiment_finviz.py:127-140 | the output has as many rows as there are summaries over all tickers |
| Aggregate.ExpectedLayout | scrape_summarize_sentiment_finviz.py:127-140 | ticker j's rows form one contiguous slice at its offset, in ticker order |
| Aggregate.RowPlacement | scrape_summarize_sentiment_finviz.py:129-139 | the row at ticker j's offset plus i holds ticker, date, time, label, score, headline, summary, source and url of index i in that column order |
| Aggregate.CreateOutputDf | scrape_summarize_sentiment_finviz.py:125-145 | the loop succeeds exactly on consistent inputs and returns the reference table; otherwise the first failing lookup |
| Aggregate.RecalculateSentimentScore | scrape_summarize_sentiment_finviz.py:151-154 | the score is negated exactly when the label is NEGATIVE; every other column is unchanged |
| Aggregate.RecalculateInvolution | scrape_summarize_sentiment_finviz.py:151-154 | applying the adjustment twice restores the row |
| Aggregate.SignFollowsLabel | scrape_summarize_sentiment_finviz.py:151-154 | for a positive confidence the adjusted score is negative exactly when the label is NEGATIVE, and its magnitude is kept |
| Aggregate.ApplyRecalculate | scrape_summarize_sentiment_finviz.py:156 | the row-wise apply keeps the row count and adjusts each row in place |
| Pipeline.Summarize | scrape_summarize_sentiment_finviz.py:105-112 | one summary per article, in order |
| Pipeline.ScoreAll | scrape_summarize_sentiment_finviz.py:119-120 | one score per summary, in order |
| Pipeline.TickerOutput | scrape_summarize_sentiment_finviz.py:127-156 | a ticker's final rows are one per parsed row |
| Pipeline.ApplyRecalculateConcat | scrape_summarize_sentiment_finviz.py:156 | the row-wise adjustment distributes over the concatenation of ticker blocks |
| Pipeline.BlockOutput | scrape_summarize_sentiment_finviz.py:127-156 | for one ticker, the stage outputs feed the aggregation and its adjusted block is that ticker's final rows |
| Pipeline.BlocksOutput | scrape_summarize_sentiment_finviz.py:127-156 | over the first k tickers the stage outputs are consistent and the adjusted aggregation is the reference table |
| Pipeline.ParseAllTickers | scrape_summarize_sentiment_finviz.py:69 | succeeds exactly when every ticker's table parses, then maps each ticker to its parse; otherwise reports the first ticker in list order whose table fails, with its parse error |
| Pipeline.ScrapeAllTickers | scrape_summarize_sentiment_finviz.py:100 | maps each ticker to the articles of its parsed rows |
| Pipeline.SummarizeAllTickers | scrape_summarize_sentiment_finviz.py:114 | maps each ticker to the summaries of its articles |
| Pipeline.ScoreAllTickers | scrape_summarize_sentiment_finviz.py:120 | maps each ticker to the scores of its summaries |
| Pipeline.Run | scrape_summarize_sentiment_finviz.py:69-156 | the run succeeds exactly when every table parses, then returns the reference table; otherwise the first ticker in list order whose table fails, with its parse error |

## Left out

- Fetching the Finviz page and finding `news-table` (lines 22-33) is network and HTML work. Each ticker's rows are a parameter `tables`.
- The HTML accessors `x.a`, `x.a.get('href')`, `x.span.get_text().strip()` and `x.td.text.split()` are not modelled. A `Row` carries their results; the whitespace split of the date cell arrives as its token list.
- A row without an anchor or span raises `AttributeError` in the script. That case is not modelled, because a `Row` always has both.
- Downloading and parsing an article (lines 81-85) is the parameter `fetch`, a function of the url. Every exception the bare `except` catches becomes `None`. The model therefore treats a page as deterministic per url.
- The `print` calls (lines 79, 104, 118, 124) have no effect on the data and are left out.
- The Pegasus tokenizer and model (lines 108-110) are the parameter `summarizer`, so the generation settings are not modelled.
- The sentiment pipeline (line 120) is the parameter `classify`, applied per summary. Batching is not modelled.
- The pandas `DataFrame`, its column names and `to_excel` (lines 142-143, 158) are not modelled. The table is a sequence of `OutputRow` records whose fields follow the column order.
- Scores are `real`, so `* -1` is exact negation and float rounding is not modelled.
- A score dictionary missing `label` or `score` cannot occur, because a `Score` is a record with both fields.
- `time` is local to each processed row. Any value left over from an earlier row is always overwritten before use, so it is not carried between rows.
- Duplicate tickers in the monitored list behave as in the script: the dictionaries hold one entry per ticker, and the aggregation visits the list as given.
