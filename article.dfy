/**
 * The article step of `scrape_and_process`: for each parsed row, the text of its article,
 * cut to the first 350 space-separated fields and cleaned of non-breaking spaces and
 * backslashes, or the empty string when the link is off-domain or the fetch fails.
 */
module Article {
  import opened Wrappers
  import opened Text
  import opened NewsParser

  /** The number of `' '`-separated fields an article keeps. */
  const WordBudget: nat := 350

  /** U+00A0, the no-break space. */
  const Nbsp: char := '\U{00A0}'

  function Min(a: nat, b: nat): nat {
    if a <= b then a else b
  }

  /** `' '.join(s.split(' ')[:n])`. */
  function Truncate(s: string, n: nat): string {
    var fields := Split(s);
    Join(fields[..Min(n, |fields|)])
  }

  /** The truncated text is a prefix of the text. */
  lemma TruncateIsPrefix(s: string, n: nat)
    ensures Truncate(s, n) <= s
  {
    var fields := Split(s);
    JoinPrefix(fields, Min(n, |fields|));
    JoinSplit(s);
  }

  /** With a budget of at least one, the truncated text has exactly the first `n` fields of the text. */
  lemma TruncateFields(s: string, n: nat)
    requires n >= 1
    ensures Split(Truncate(s, n)) == Split(s)[..Min(n, |Split(s)|)]
    ensures |Split(Truncate(s, n))| == Min(n, |Split(s)|)
  {
    var fields := Split(s);
    var kept := fields[..Min(n, |fields|)];
    assert forall k :: 0 <= k < |kept| ==> kept[k] == fields[k];
    SplitJoin(kept);
  }

  /** A text within the budget is left as it is. */
  lemma TruncateWithinBudget(s: string, n: nat)
    requires |Split(s)| <= n
    ensures Truncate(s, n) == s
  {
    var fields := Split(s);
    assert fields[..Min(n, |fields|)] == fields;
    JoinSplit(s);
  }

  /** `s.replace('\xa0', ' ')`. */
  function ReplaceNbsp(s: string): (r: string)
    ensures |r| == |s| && Nbsp !in r
    ensures forall i :: 0 <= i < |s| && s[i] != Nbsp ==> r[i] == s[i]
    ensures forall i :: 0 <= i < |s| && s[i] == Nbsp ==> r[i] == ' '
  {
    if |s| == 0 then ""
    else [if s[0] == Nbsp then ' ' else s[0]] + ReplaceNbsp(s[1..])
  }

  /** `s.replace('\\', '')`. */
  function DeleteBackslashes(s: string): (r: string)
    ensures |r| <= |s|
    ensures forall c :: c in r <==> c in s && c != '\\'
  {
    if |s| == 0 then ""
    else if s[0] == '\\' then DeleteBackslashes(s[1..])
    else [s[0]] + DeleteBackslashes(s[1..])
  }

  /** Deleting backslashes distributes over concatenation, so no other character moves. */
  lemma {:induction false} DeleteBackslashesConcat(a: string, b: string)
    ensures DeleteBackslashes(a + b) == DeleteBackslashes(a) + DeleteBackslashes(b)
    decreases |a|
  {
    if |a| == 0 {
      assert a + b == b;
    } else {
      assert (a + b)[1..] == a[1..] + b;
      DeleteBackslashesConcat(a[1..], b);
    }
  }

  /** Every character other than the backslash is kept as often as it occurs. */
  lemma {:induction false} DeleteBackslashesCount(s: string)
    ensures multiset(DeleteBackslashes(s)) == multiset(s)['\\' := 0]
  {
    if |s| > 0 {
      DeleteBackslashesCount(s[1..]);
      assert s == [s[0]] + s[1..];
    }
  }

  /** A string with neither a no-break space nor a backslash. */
  predicate IsClean(s: string) {
    Nbsp !in s && '\\' !in s
  }

  /** The two replacements of the article step. */
  function Normalise(s: string): (r: string)
    ensures IsClean(r)
  {
    DeleteBackslashes(ReplaceNbsp(s))
  }

  /** Normalising a clean string changes nothing. */
  lemma {:induction false} NormaliseClean(s: string)
    requires IsClean(s)
    ensures Normalise(s) == s
  {
    if |s| > 0 {
      NormaliseClean(s[1..]);
      assert ReplaceNbsp(s) == [s[0]] + ReplaceNbsp(s[1..]);
    }
  }

  /** Normalising twice is normalising once. */
  lemma NormaliseIdempotent(s: string)
    ensures Normalise(Normalise(s)) == Normalise(s)
  {
    NormaliseClean(Normalise(s));
  }

  /**
   * The replacement runs after the truncation, so a no-break space inside a kept field
   * becomes a field separator: the article can have more fields than it was cut to.
   */
  lemma NbspAddsFields()
    ensures Split("a" + [Nbsp] + "b") == ["a" + [Nbsp] + "b"]
    ensures Split(Normalise("a" + [Nbsp] + "b")) == ["a", "b"]
  {
    var s := "a" + [Nbsp] + "b";
    assert ' ' !in s;
    SplitField(s, "");
    assert ReplaceNbsp(s) == "a b";
    assert ReplaceNbsp("a b") == "a b";
    NormaliseClean("a b");
    SplitField("a", "b");
    SplitField("b", "");
  }

  /** The article text made from the page's paragraph texts. */
  function ProcessText(paragraphs: seq<string>): (article: string)
    ensures IsClean(article)
  {
    Normalise(Truncate(Join(paragraphs), WordBudget))
  }

  /** On a clean page the article is the first 350 fields of the joined paragraphs, as they are. */
  lemma ProcessCleanText(paragraphs: seq<string>)
    requires IsClean(Join(paragraphs))
    ensures ProcessText(paragraphs) == Truncate(Join(paragraphs), WordBudget)
    ensures ProcessText(paragraphs) <= Join(paragraphs)
    ensures Split(ProcessText(paragraphs)) == Split(Join(paragraphs))[..Min(WordBudget, |Split(Join(paragraphs))|)]
  {
    var text := Join(paragraphs);
    var cut := Truncate(text, WordBudget);
    TruncateIsPrefix(text, WordBudget);
    assert forall c :: c in cut ==> c in text by {
      forall c | c in cut ensures c in text {
        var i :| 0 <= i < |cut| && cut[i] == c;
        assert text[i] == c;
      }
    }
    NormaliseClean(cut);
    TruncateFields(text, WordBudget);
  }

  /** A short clean page is kept whole. */
  lemma ProcessShortText(paragraphs: seq<string>)
    requires IsClean(Join(paragraphs)) && |Split(Join(paragraphs))| <= WordBudget
    ensures ProcessText(paragraphs) == Join(paragraphs)
  {
    ProcessCleanText(paragraphs);
    TruncateWithinBudget(Join(paragraphs), WordBudget);
  }

  /**
   * The article for one url. `fetch` stands for the request and the paragraph lookup:
   * `None` for any exception, `Some(texts)` for the texts of the page's `p` elements.
   * It is consulted only for an on-domain url.
   */
  function ExtractArticle(url: string, fetch: string -> Option<seq<string>>): (article: string)
    ensures IsClean(article)
    ensures !IsArticleUrl(url) ==> article == ""
    ensures IsArticleUrl(url) && fetch(url).None? ==> article == ""
    ensures IsArticleUrl(url) && fetch(url).Some? ==> article == ProcessText(fetch(url).value)
  {
    if !IsArticleUrl(url) then ""
    else
      match fetch(url)
      case None => ""
      case Some(paragraphs) => ProcessText(paragraphs)
  }

  /** `scrape_and_process`: one article per parsed row, in row order. */
  method ScrapeAndProcess(news: seq<ParsedRow>, fetch: string -> Option<seq<string>>)
    returns (articles: seq<string>)
    ensures |articles| == |news|
    ensures forall i :: 0 <= i < |news| ==> articles[i] == ExtractArticle(news[i].url, fetch)
  {
    articles := [];
    var i := 0;
    while i < |news|
      invariant 0 <= i <= |news|
      invariant |articles| == i
      invariant forall j :: 0 <= j < i ==> articles[j] == ExtractArticle(news[j].url, fetch)
    {
      var url := news[i].url;
      var article;
      if IsArticleUrl(url) {
        var page := fetch(url);
        if page.Some? {
          var words := Truncate(Join(page.value), WordBudget);
          article := ReplaceNbsp(words);
          article := DeleteBackslashes(article);
        } else {
          article := "";
        }
      } else {
        article := "";
      }
      articles := articles + [article];
      i := i + 1;
    }
  }
}
