/**
 * `build_scoreboard` (bot.py:177-217): tallies, over the top-level comments
 * of one thread, the distinct lower-cased authors mentioning each ticker and
 * the best-scoring comment for it, then ranks the tickers by author count.
 * Fetching the comments (`replace_more`) is not modelled: the comments are
 * an input sequence.
 */
module Scoreboard {
  import opened Wrappers
  import opened Text
  import opened Tickers
  import opened Ranking

  /** Prefix of every permalink the bot reports (bot.py:200). */
  const LinkBase: string := "https://www.reddit.com"

  /**
   * A top-level comment. `hasBody` is false for placeholder objects without
   * a body; `author` is None for a deleted account; a missing or null score
   * is 0, as `getattr(c, "score", 0) or 0` makes it.
   */
  datatype Comment = Comment(hasBody: bool, author: Option<string>, body: string, score: int, permalink: string)

  /** The `(score, permalink)` pair kept as a ticker's best comment. */
  datatype Evidence = Evidence(score: int, link: string)

  /** One row of the result. */
  datatype Item = Item(ticker: string, uniqueAuthors: nat, bestComment: Option<string>)

  function Link(c: Comment): string {
    LinkBase + c.permalink
  }

  /** The author as it is counted: `str(c.author).lower()`. */
  function AuthorKey(c: Comment): string
    requires c.author.Some?
  {
    Lower(c.author.value)
  }

  /** The comment is looked at: it has a body and a known author. */
  predicate Counted(c: Comment) {
    c.hasBody && c.author.Some?
  }

  /**
   * What the tally takes from one comment: nothing when it has no body or
   * no author, else the lower-cased author, the distinct tickers of its body
   * and its `(score, link)` evidence.
   */
  datatype Reading = Skipped | Reading(authorKey: string, tickers: set<string>, evidence: Evidence)

  function Read(c: Comment, stopwords: set<string>): Reading {
    if Counted(c)
    then Reading(AuthorKey(c), TickerSet(c.body, stopwords), Evidence(c.score, Link(c)))
    else Skipped
  }

  function ReadAll(cs: seq<Comment>, stopwords: set<string>): (rs: seq<Reading>)
    ensures |rs| == |cs|
    ensures forall i :: 0 <= i < |cs| ==> rs[i] == Read(cs[i], stopwords)
  {
    seq(|cs|, i requires 0 <= i < |cs| => Read(cs[i], stopwords))
  }

  /** The comment read as r counts towards ticker t. */
  predicate Mentions(r: Reading, t: string) {
    r.Reading? && t in r.tickers
  }

  /** A ticker's author set after one more comment. */
  function NextAuthors(prev: set<string>, r: Reading, t: string): set<string> {
    if Mentions(r, t) then prev + {r.authorKey} else prev
  }

  /** A ticker's best comment after one more comment: replaced only on a strictly higher score. */
  function NextBest(prev: Option<Evidence>, r: Reading, t: string): Option<Evidence> {
    if Mentions(r, t) && (prev.None? || r.evidence.score > prev.value.score)
    then Some(r.evidence)
    else prev
  }

  /** `ticker_authors[t]` after the comments read as rs (empty when t is not a key). */
  function Authors(rs: seq<Reading>, t: string): set<string> {
    if rs == [] then {}
    else NextAuthors(Authors(rs[..|rs| - 1], t), rs[|rs| - 1], t)
  }

  /** `ticker_best_comment.get(t)` after the comments read as rs. */
  function Best(rs: seq<Reading>, t: string): Option<Evidence> {
    if rs == [] then None
    else NextBest(Best(rs[..|rs| - 1], t), rs[|rs| - 1], t)
  }

  /** The keys of `ticker_authors` after the comments read as rs. */
  function Mentioned(rs: seq<Reading>): set<string> {
    if rs == [] then {}
    else
      var r := rs[|rs| - 1];
      Mentioned(rs[..|rs| - 1]) + (if r.Reading? then r.tickers else {})
  }

  /**
   * A ticker's author set is exactly the set of lower-cased authors of the
   * comments with a body and an author that mention it: repeat mentions in
   * one comment and repeat comments by one author count once.
   */
  lemma {:induction false} AuthorsExact(rs: seq<Reading>, t: string, a: string)
    ensures a in Authors(rs, t) <==> exists i :: 0 <= i < |rs| && Mentions(rs[i], t) && a == rs[i].authorKey
  {
    if rs != [] {
      var init := rs[..|rs| - 1];
      AuthorsExact(init, t, a);
      if a in Authors(init, t) {
        var i :| 0 <= i < |init| && Mentions(init[i], t) && a == init[i].authorKey;
        assert rs[i] == init[i];
      }
      if exists i :: 0 <= i < |rs| && Mentions(rs[i], t) && a == rs[i].authorKey {
        var i :| 0 <= i < |rs| && Mentions(rs[i], t) && a == rs[i].authorKey;
        if i < |init| {
          assert init[i] == rs[i];
        }
      }
    }
  }

  /**
   * A ticker is a key of the tally exactly when some counted comment
   * mentions it, and then it has at least one author and a best comment.
   */
  lemma {:induction false} MentionedExact(rs: seq<Reading>, t: string)
    ensures t in Mentioned(rs) <==> exists i :: 0 <= i < |rs| && Mentions(rs[i], t)
    ensures t in Mentioned(rs) <==> Authors(rs, t) != {}
    ensures t in Mentioned(rs) <==> Best(rs, t).Some?
  {
    if rs != [] {
      var init := rs[..|rs| - 1];
      MentionedExact(init, t);
      if exists i :: 0 <= i < |init| && Mentions(init[i], t) {
        var i :| 0 <= i < |init| && Mentions(init[i], t);
        assert rs[i] == init[i];
      }
      if exists i :: 0 <= i < |rs| && Mentions(rs[i], t) {
        var i :| 0 <= i < |rs| && Mentions(rs[i], t);
        if i < |init| {
          assert init[i] == rs[i];
        }
      }
    }
  }

  /** rs[i] is the earliest comment of highest score among those mentioning t. */
  predicate EarliestBest(rs: seq<Reading>, t: string, i: nat)
    requires i < |rs|
  {
    && Mentions(rs[i], t)
    && (forall j :: 0 <= j < i && Mentions(rs[j], t) ==> rs[j].evidence.score < rs[i].evidence.score)
    && (forall j :: i < j < |rs| && Mentions(rs[j], t) ==> rs[j].evidence.score <= rs[i].evidence.score)
  }

  /**
   * The best comment is the earliest one of highest score: it mentions the
   * ticker, every earlier mentioning comment scores strictly less and every
   * later one no more.
   */
  lemma {:induction false} BestExact(rs: seq<Reading>, t: string)
    requires Best(rs, t).Some?
    ensures exists i :: 0 <= i < |rs| && EarliestBest(rs, t, i) && Best(rs, t).value == rs[i].evidence
  {
    var init := rs[..|rs| - 1];
    var prev := Best(init, t);
    if prev.None? {
      MentionedExact(init, t);
      forall j | 0 <= j < |init| ensures !Mentions(rs[j], t) {
        assert init[j] == rs[j];
      }
      LastIsBest(rs, t);
    } else {
      BestExact(init, t);
      var i :| 0 <= i < |init| && EarliestBest(init, t, i) && prev.value == init[i].evidence;
      if Best(rs, t) == prev {
        KeptBest(rs, t, i);
      } else {
        ReplacedBest(rs, t, i);
      }
    }
  }

  /** The first mention of t is the best so far. */
  lemma LastIsBest(rs: seq<Reading>, t: string)
    requires rs != [] && Mentions(rs[|rs| - 1], t)
    requires forall j :: 0 <= j < |rs| - 1 ==> !Mentions(rs[j], t)
    ensures EarliestBest(rs, t, |rs| - 1)
  {
  }

  /** A last comment that does not beat the best so far leaves it the earliest best. */
  lemma KeptBest(rs: seq<Reading>, t: string, i: nat)
    requires i < |rs| - 1 && EarliestBest(rs[..|rs| - 1], t, i)
    requires Mentions(rs[|rs| - 1], t) ==> rs[|rs| - 1].evidence.score <= rs[i].evidence.score
    ensures EarliestBest(rs, t, i)
  {
    var init := rs[..|rs| - 1];
    assert forall j :: 0 <= j < |init| ==> init[j] == rs[j];
  }

  /** A last comment that beats the best so far becomes the earliest best. */
  lemma ReplacedBest(rs: seq<Reading>, t: string, i: nat)
    requires i < |rs| - 1 && EarliestBest(rs[..|rs| - 1], t, i)
    requires Mentions(rs[|rs| - 1], t) && rs[|rs| - 1].evidence.score > rs[i].evidence.score
    ensures EarliestBest(rs, t, |rs| - 1)
  {
    var init := rs[..|rs| - 1];
    assert forall j :: 0 <= j < |init| ==> init[j] == rs[j];
  }

  /**
   * A comment without a body or an author, or whose body yields no ticker,
   * changes nothing.
   */
  lemma SilentCommentChangesNothing(cs: seq<Comment>, c: Comment, stopwords: set<string>, t: string)
    requires !c.hasBody || c.author.None? || Extract(c.body, stopwords) == []
    ensures Authors(ReadAll(cs + [c], stopwords), t) == Authors(ReadAll(cs, stopwords), t)
    ensures Best(ReadAll(cs + [c], stopwords), t) == Best(ReadAll(cs, stopwords), t)
    ensures Mentioned(ReadAll(cs + [c], stopwords)) == Mentioned(ReadAll(cs, stopwords))
  {
    assert ReadAll(cs + [c], stopwords)[..|cs|] == ReadAll(cs, stopwords);
  }

  /** A further comment by an author already counted for t leaves t's count unchanged. */
  lemma RepeatAuthorCountsOnce(rs: seq<Reading>, r: Reading, t: string, i: nat)
    requires i < |rs| && Mentions(rs[i], t)
    requires r.Reading? && r.authorKey == rs[i].authorKey
    ensures Authors(rs + [r], t) == Authors(rs, t)
  {
    assert (rs + [r])[..|rs|] == rs;
    AuthorsExact(rs, t, r.authorKey);
  }

  // ---------------------------------------------------------------------
  // The tally loop and the ranked result

  /**
   * The dicts `ticker_authors` and `ticker_best_comment` hold the tally of
   * the comments read as rs, and `order` lists the keys of the first once each.
   */
  ghost predicate Tally(rs: seq<Reading>, authors: map<string, set<string>>, best: map<string, Evidence>, order: seq<string>) {
    && (forall t {:trigger t in authors} :: t in authors <==> t in Mentioned(rs))
    && (forall t {:trigger authors[t]} :: t in authors ==> authors[t] == Authors(rs, t))
    && (forall t {:trigger t in best} :: t in best <==> t in authors)
    && (forall t {:trigger best[t]} :: t in best ==> Best(rs, t) == Some(best[t]))
    && (forall t :: t in order <==> t in authors)
    && Distinct(order)
  }

  /**
   * Midway through one comment: the tickers in `done` already reflect the
   * reading r, the others still the comments before it.
   */
  ghost predicate PartTally(rs: seq<Reading>, r: Reading, done: set<string>,
                      authors: map<string, set<string>>, best: map<string, Evidence>, order: seq<string>) {
    && AuthorsPart(rs, r, done, authors)
    && BestPart(rs, r, done, authors, best)
    && (forall t :: t in order <==> t in authors)
    && Distinct(order)
  }

  ghost predicate AuthorsPart(rs: seq<Reading>, r: Reading, done: set<string>, authors: map<string, set<string>>) {
    && (forall t {:trigger t in authors} :: t in authors <==> t in Mentioned(rs) || t in done)
    && (forall t {:trigger authors[t]} :: t in authors ==>
          authors[t] == if t in done then NextAuthors(Authors(rs, t), r, t) else Authors(rs, t))
  }

  ghost predicate BestPart(rs: seq<Reading>, r: Reading, done: set<string>,
                           authors: map<string, set<string>>, best: map<string, Evidence>) {
    && (forall t {:trigger t in best} :: t in best <==> t in authors)
    && (forall t {:trigger best[t]} :: t in best ==>
          Some(best[t]) == if t in done then NextBest(Best(rs, t), r, t) else Best(rs, t))
  }

  /** A skipped comment, or one whose body yields no ticker, leaves the tally as it is. */
  lemma TallySkip(rs: seq<Reading>, r: Reading, authors: map<string, set<string>>, best: map<string, Evidence>, order: seq<string>)
    requires Tally(rs, authors, best, order)
    requires r.Skipped? || r.tickers == {}
    ensures Tally(rs + [r], authors, best, order)
  {
    assert (rs + [r])[..|rs|] == rs;
  }

  /** Before the ticker loop of a comment nothing reflects it yet. */
  lemma TallyStart(rs: seq<Reading>, r: Reading, authors: map<string, set<string>>, best: map<string, Evidence>, order: seq<string>)
    requires Tally(rs, authors, best, order)
    ensures PartTally(rs, r, {}, authors, best, order)
  {
  }

  /** After the ticker loop of a comment every ticker reflects it. */
  lemma TallyFinish(rs: seq<Reading>, r: Reading, authors: map<string, set<string>>, best: map<string, Evidence>, order: seq<string>)
    requires r.Reading?
    requires PartTally(rs, r, r.tickers, authors, best, order)
    ensures Tally(rs + [r], authors, best, order)
  {
    assert (rs + [r])[..|rs|] == rs;
  }

  /**
   * One pass of the ticker loop: `setdefault(t, set()).add(author)`, and the
   * best comment replaced when absent or strictly beaten.
   */
  lemma TallyTicker(rs: seq<Reading>, r: Reading, done: set<string>, t: string,
                    authors: map<string, set<string>>, best: map<string, Evidence>, order: seq<string>)
    requires PartTally(rs, r, done, authors, best, order)
    requires r.Reading? && t in r.tickers && t !in done
    ensures PartTally(rs, r, done + {t},
      authors[t := (if t in authors then authors[t] else {}) + {r.authorKey}],
      if t !in best || r.evidence.score > best[t].score then best[t := r.evidence] else best,
      if t in authors then order else order + [t])
  {
    var authors' := authors[t := (if t in authors then authors[t] else {}) + {r.authorKey}];
    AuthorsTicker(rs, r, done, t, authors);
    BestTicker(rs, r, done, t, authors, best);
    assert forall x :: x in authors' <==> x in authors || x == t;
  }

  lemma AuthorsTicker(rs: seq<Reading>, r: Reading, done: set<string>, t: string, authors: map<string, set<string>>)
    requires AuthorsPart(rs, r, done, authors)
    requires r.Reading? && t in r.tickers && t !in done
    ensures AuthorsPart(rs, r, done + {t}, authors[t := (if t in authors then authors[t] else {}) + {r.authorKey}])
  {
    MentionedExact(rs, t);
  }

  lemma BestTicker(rs: seq<Reading>, r: Reading, done: set<string>, t: string,
                   authors: map<string, set<string>>, best: map<string, Evidence>)
    requires BestPart(rs, r, done, authors, best) && AuthorsPart(rs, r, done, authors)
    requires r.Reading? && t in r.tickers && t !in done
    ensures BestPart(rs, r, done + {t}, authors[t := (if t in authors then authors[t] else {}) + {r.authorKey}],
      if t !in best || r.evidence.score > best[t].score then best[t := r.evidence] else best)
  {
    MentionedExact(rs, t);
  }

  /**
   * One pass of the ticker loop of `build_scoreboard` (bot.py:196-203) for
   * comment c read as r: the author joins t's set, and c becomes t's best
   * comment when it has none or c's score is strictly higher.
   */
  method CountTicker(ghost rs: seq<Reading>, ghost r: Reading, ghost done: set<string>, t: string, c: Comment, author: string,
                     authors0: map<string, set<string>>, best0: map<string, Evidence>, order0: seq<string>)
    returns (authors: map<string, set<string>>, best: map<string, Evidence>, order: seq<string>)
    requires r.Reading? && r.authorKey == author && r.evidence == Evidence(c.score, Link(c))
    requires t in r.tickers && t !in done
    requires PartTally(rs, r, done, authors0, best0, order0)
    ensures PartTally(rs, r, done + {t}, authors, best, order)
  {
    TallyTicker(rs, r, done, t, authors0, best0, order0);
    order := if t !in authors0 then order0 + [t] else order0;
    authors := authors0[t := (if t in authors0 then authors0[t] else {}) + {author}];
    var score := c.score;
    var link := LinkBase + c.permalink;
    if t !in best0 || score > best0[t].score {
      best := best0[t := Evidence(score, link)];
    } else {
      best := best0;
    }
  }

  /** The ticker loop of one comment (bot.py:196-203), over its distinct tickers in any order. */
  method CountTickers(ghost rs: seq<Reading>, ghost r: Reading, tickers: set<string>, c: Comment, author: string,
                      authors0: map<string, set<string>>, best0: map<string, Evidence>, order0: seq<string>)
    returns (authors: map<string, set<string>>, best: map<string, Evidence>, order: seq<string>)
    requires r == Reading(author, tickers, Evidence(c.score, Link(c)))
    requires Tally(rs, authors0, best0, order0)
    ensures Tally(rs + [r], authors, best, order)
  {
    TallyStart(rs, r, authors0, best0, order0);
    authors, best, order := authors0, best0, order0;
    var rest := tickers;
    ghost var done: set<string> := {};
    while rest != {}
      invariant done + rest == tickers && done !! rest
      invariant PartTally(rs, r, done, authors, best, order)
      decreases |rest|
    {
      var t :| t in rest;
      authors, best, order := CountTicker(rs, r, done, t, c, author, authors, best, order);
      done, rest := done + {t}, rest - {t};
    }
    assert done == tickers;
    TallyFinish(rs, r, authors, best, order);
  }

  /**
   * One pass of the comment loop (bot.py:187-203): a comment without a body,
   * without an author or naming no ticker changes nothing; otherwise its
   * distinct tickers are counted for its lower-cased author.
   */
  method CountComment(ghost rs: seq<Reading>, c: Comment, stopwords: set<string>,
                      authors0: map<string, set<string>>, best0: map<string, Evidence>, order0: seq<string>)
    returns (authors: map<string, set<string>>, best: map<string, Evidence>, order: seq<string>)
    requires Tally(rs, authors0, best0, order0)
    ensures Tally(rs + [Read(c, stopwords)], authors, best, order)
  {
    authors, best, order := authors0, best0, order0;
    ghost var r := Read(c, stopwords);
    if !c.hasBody {
      TallySkip(rs, r, authors, best, order);
      return;
    }
    if c.author.None? {
      TallySkip(rs, r, authors, best, order);
      return;
    }
    var author := Lower(c.author.value);
    var found := ExtractTickers(c.body, stopwords);
    var tickers := set x | x in found;
    assert r == Reading(author, tickers, Evidence(c.score, Link(c)));
    if tickers == {} {
      TallySkip(rs, r, authors, best, order);
      return;
    }
    authors, best, order := CountTickers(rs, r, tickers, c, author, authors, best, order);
  }

  /** The ranking key of an item: its author count, then its ticker. */
  function KeyOf(it: Item): Entry {
    Entry(it.ticker, it.uniqueAuthors as real)
  }

  /** The item reports t's full tally: its author count and its best comment's link. */
  predicate Reports(rs: seq<Reading>, it: Item) {
    && it.ticker in Mentioned(rs)
    && it.uniqueAuthors == |Authors(rs, it.ticker)|
    && Best(rs, it.ticker).Some?
    && it.bestComment == Some(Best(rs, it.ticker).value.link)
  }

  /** No item reports ticker t. */
  predicate Omitted(items: seq<Item>, t: string) {
    forall i :: 0 <= i < |items| ==> items[i].ticker != t
  }

  /**
   * The comment loop of `build_scoreboard`: afterwards the two dicts hold,
   * for every ticker some counted comment mentions, its set of distinct
   * lower-cased authors and its earliest best-scoring comment, and `order`
   * lists those tickers once each.
   */
  method TallyComments(comments: seq<Comment>, stopwords: set<string>)
    returns (tickerAuthors: map<string, set<string>>, tickerBest: map<string, Evidence>, order: seq<string>)
    ensures Tally(ReadAll(comments, stopwords), tickerAuthors, tickerBest, order)
  {
    ghost var rs := ReadAll(comments, stopwords);
    tickerAuthors, tickerBest, order := map[], map[], [];
    for k := 0 to |comments|
      invariant Tally(rs[..k], tickerAuthors, tickerBest, order)
    {
      tickerAuthors, tickerBest, order := CountComment(rs[..k], comments[k], stopwords, tickerAuthors, tickerBest, order);
      assert rs[..k] + [Read(comments[k], stopwords)] == rs[..k + 1];
    }
    assert rs[..|comments|] == rs;
  }

  /** The table holds `(t, len(ticker_authors[t]))` for the tickers of `order`, in that order. */
  predicate Tabulates(table: seq<Entry>, order: seq<string>, tickerAuthors: map<string, set<string>>) {
    && |table| == |order|
    && forall j :: 0 <= j < |order| ==>
         order[j] in tickerAuthors && table[j] == Entry(order[j], |tickerAuthors[order[j]]| as real)
  }

  /** An entry of the table becomes an item that reports its ticker's tally. */
  lemma TableEntryReports(rs: seq<Reading>, tickerAuthors: map<string, set<string>>, tickerBest: map<string, Evidence>,
                          order: seq<string>, table: seq<Entry>, e: Entry)
    requires Tally(rs, tickerAuthors, tickerBest, order)
    requires Tabulates(table, order, tickerAuthors)
    requires e in table
    ensures e.ticker in tickerAuthors && e.ticker in tickerBest
    ensures var it := Item(e.ticker, |tickerAuthors[e.ticker]|, Some(tickerBest[e.ticker].link));
      KeyOf(it) == e && Reports(rs, it)
  {
    var m :| 0 <= m < |table| && table[m] == e;
    assert order[m] == e.ticker;
  }

  /** A tallied ticker without an item ranks below every item. */
  lemma OmittedRanksBelow(rs: seq<Reading>, tickerAuthors: map<string, set<string>>, tickerBest: map<string, Evidence>,
                          order: seq<string>, table: seq<Entry>, ranked: seq<Entry>, items: seq<Item>, t: string)
    requires Tally(rs, tickerAuthors, tickerBest, order)
    requires Tabulates(table, order, tickerAuthors)
    requires forall x, y :: x in ranked && y in table && y !in ranked ==> KeyLess(y, x)
    requires |items| == |ranked| && forall i :: 0 <= i < |items| ==> KeyOf(items[i]) == ranked[i]
    requires t in Mentioned(rs) && Omitted(items, t)
    ensures forall i :: 0 <= i < |items| ==> KeyLess(Entry(t, |Authors(rs, t)| as real), KeyOf(items[i]))
  {
    assert t in tickerAuthors;
    var m :| 0 <= m < |order| && order[m] == t;
    var e := table[m];
    assert e == Entry(t, |Authors(rs, t)| as real);
    forall i | 0 <= i < |items| ensures KeyLess(e, KeyOf(items[i])) {
      assert ranked[i] in ranked;
    }
  }

  /** The pairs `(t, len(authors))` of `ticker_authors.items()`, in the order of the key sequence. */
  method Tabulate(tickerAuthors: map<string, set<string>>, order: seq<string>) returns (table: seq<Entry>)
    requires forall t :: t in order ==> t in tickerAuthors
    ensures Tabulates(table, order, tickerAuthors)
  {
    table := [];
    for i := 0 to |order|
      invariant Tabulates(table, order[..i], tickerAuthors)
    {
      table := table + [Entry(order[i], |tickerAuthors[order[i]]| as real)];
    }
    assert order[..|order|] == order;
  }

  /** The output loop (bot.py:207-216): one item per ranked pair, with its best comment's link. */
  method ReportRanked(ghost rs: seq<Reading>, tickerAuthors: map<string, set<string>>, tickerBest: map<string, Evidence>,
                      ghost order: seq<string>, ghost table: seq<Entry>, ranked: seq<Entry>) returns (items: seq<Item>)
    requires Tally(rs, tickerAuthors, tickerBest, order)
    requires Tabulates(table, order, tickerAuthors)
    requires forall e :: e in ranked ==> e in table
    ensures |items| == |ranked|
    ensures forall j :: 0 <= j < |items| ==> KeyOf(items[j]) == ranked[j] && Reports(rs, items[j])
  {
    items := [];
    for i := 0 to |ranked|
      invariant |items| == i
      invariant forall j :: 0 <= j < i ==> KeyOf(items[j]) == ranked[j] && Reports(rs, items[j])
    {
      TableEntryReports(rs, tickerAuthors, tickerBest, order, table, ranked[i]);
      var t := ranked[i].ticker;
      var bestLink := if t in tickerBest then Some(tickerBest[t].link) else None;
      items := items + [Item(t, |tickerAuthors[t]|, bestLink)];
    }
  }

  /**
   * The ranking and output part of `build_scoreboard`, for any sequence of
   * readings rs the dicts hold the tally of: one item per tallied ticker, as
   * many as the slice `[:max_tickers]` keeps, each with its distinct-author
   * count and the link of its best comment (never absent), strictly
   * descending by (count, ticker), and every ticker left out ranks below
   * every one kept.
   */
  method RankTally(ghost rs: seq<Reading>, tickerAuthors: map<string, set<string>>, tickerBest: map<string, Evidence>,
                   order: seq<string>, maxTickers: int) returns (items: seq<Item>)
    requires Tally(rs, tickerAuthors, tickerBest, order)
    ensures |items| == SliceLen(|Mentioned(rs)|, maxTickers)
    ensures forall i :: 0 <= i < |items| ==> Reports(rs, items[i])
    ensures forall i, j :: 0 <= i < j < |items| ==> KeyLess(KeyOf(items[j]), KeyOf(items[i]))
    ensures forall t :: t in Mentioned(rs) && Omitted(items, t) ==>
      forall i :: 0 <= i < |items| ==> KeyLess(Entry(t, |Authors(rs, t)| as real), KeyOf(items[i]))
  {
    DistinctCard(order, Mentioned(rs));
    var table := Tabulate(tickerAuthors, order);
    assert DistinctTickers(table);
    var ranked := Rank(table, maxTickers);
    forall e | e in ranked ensures e in table {
      assert e in multiset(ranked);
    }
    items := ReportRanked(rs, tickerAuthors, tickerBest, order, table, ranked);
    forall t | t in Mentioned(rs) && Omitted(items, t)
      ensures forall i :: 0 <= i < |items| ==> KeyLess(Entry(t, |Authors(rs, t)| as real), KeyOf(items[i]))
    {
      OmittedRanksBelow(rs, tickerAuthors, tickerBest, order, table, ranked, items, t);
    }
  }

  /**
   * `build_scoreboard` over the thread's top-level comments: the tally of
   * the comment loop, ranked and cut as `RankTally` states.
   */
  method BuildScoreboard(comments: seq<Comment>, stopwords: set<string>, maxTickers: int) returns (items: seq<Item>)
    ensures |items| == SliceLen(|Mentioned(ReadAll(comments, stopwords))|, maxTickers)
    ensures forall i :: 0 <= i < |items| ==> Reports(ReadAll(comments, stopwords), items[i])
    ensures forall i, j :: 0 <= i < j < |items| ==> KeyLess(KeyOf(items[j]), KeyOf(items[i]))
    ensures forall t :: t in Mentioned(ReadAll(comments, stopwords)) && Omitted(items, t) ==>
      forall i :: 0 <= i < |items| ==>
        KeyLess(Entry(t, |Authors(ReadAll(comments, stopwords), t)| as real), KeyOf(items[i]))
  {
    var tickerAuthors, tickerBest, order := TallyComments(comments, stopwords);
    items := RankTally(ReadAll(comments, stopwords), tickerAuthors, tickerBest, order, maxTickers);
  }
}
