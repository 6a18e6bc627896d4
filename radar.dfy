/**
 * `build_cross_sub_radar` (bot.py:30-102): collects tickers from the recent
 * posts of several configured subreddits, weighting each post by its
 * source's weight and a bounded engagement factor, keeps the best post per
 * ticker, and ranks the tickers by total weight. The Reddit listings are an
 * input function `fetch`, whether a subreddit supports `top` is an input
 * `topOk`, the current time is `now`, and `log1p` is abstracted: a post
 * carries `log1p(max(0, score))` and `log1p(max(0, num_comments))`.
 */
module Radar {
  import opened Wrappers
  import opened Text
  import opened Tickers
  import opened Ranking
  import opened Window

  const DefaultWeight: real := 0.35
  const DefaultLimitPosts: int := 40
  const DefaultLookbackHours: int := 24
  const DefaultMaxTickers: int := 8
  const EngagementCap: real := 12.0
  const LinkBase: string := "https://www.reddit.com"

  type NonNeg = x: real | x >= 0.0

  /**
   * One entry of `cross_subs`. A numeric setting is None when the key is
   * missing or null; a missing name is "" and a missing mode is "hot".
   */
  datatype SourceCfg = SourceCfg(name: string, weight: Option<real>, mode: string,
                                 limitPosts: Option<int>, lookbackHours: Option<int>)

  /** The keys of the bot's configuration that the radar reads. */
  datatype RadarConfig = RadarConfig(enabled: bool, sources: seq<SourceCfg>, maxTickers: Option<int>)

  /** The listing a source is read from. */
  datatype Listing = New | Top | Hot

  /**
   * A submission as the radar reads it: its timestamp (None when reading it
   * fails), title and body (`""` when missing), the two `log1p` terms of the
   * engagement formula, and its permalink.
   */
  datatype Post = Post(created: Option<int>, title: string, body: string,
                       scoreLog: NonNeg, commentsLog: NonNeg, permalink: string)

  /** One row of the result; the score is not rounded. */
  datatype RadarItem = RadarItem(ticker: string, score: real, bestPost: Option<string>, bestSrc: Option<string>)

  /** `x or default` on a number: missing, null and zero fall back. */
  function OrReal(v: Option<real>, default: real): real {
    if v.None? || v.value == 0.0 then default else v.value
  }

  function OrInt(v: Option<int>, default: int): int {
    if v.None? || v.value == 0 then default else v.value
  }

  function Weight(s: SourceCfg): real { OrReal(s.weight, DefaultWeight) }
  function LimitPosts(s: SourceCfg): int { OrInt(s.limitPosts, DefaultLimitPosts) }
  function LookbackHours(s: SourceCfg): int { OrInt(s.lookbackHours, DefaultLookbackHours) }
  function MaxOut(cfg: RadarConfig): int { OrInt(cfg.maxTickers, DefaultMaxTickers) }

  /** A missing or zero setting takes its default; any other value is used as given. */
  lemma FalsyFallsBack(s: SourceCfg, cfg: RadarConfig)
    ensures (s.weight == None || s.weight == Some(0.0)) ==> Weight(s) == 0.35
    ensures s.weight.Some? && s.weight.value != 0.0 ==> Weight(s) == s.weight.value
    ensures (s.lookbackHours == None || s.lookbackHours == Some(0)) ==> LookbackHours(s) == 24
    ensures s.lookbackHours.Some? && s.lookbackHours.value != 0 ==> LookbackHours(s) == s.lookbackHours.value
    ensures (s.limitPosts == None || s.limitPosts == Some(0)) ==> LimitPosts(s) == 40
    ensures s.limitPosts.Some? && s.limitPosts.value != 0 ==> LimitPosts(s) == s.limitPosts.value
    ensures (cfg.maxTickers == None || cfg.maxTickers == Some(0)) ==> MaxOut(cfg) == 8
    ensures cfg.maxTickers.Some? && cfg.maxTickers.value != 0 ==> MaxOut(cfg) == cfg.maxTickers.value
  {
  }

  /** The listing for a mode: `new`, `top` when the subreddit supports it, else `hot`. */
  function SelectListing(mode: string, topOk: bool): Listing {
    var m := Strip(Lower(mode));
    if m == "new" then New
    else if m == "top" then (if topOk then Top else Hot)
    else Hot
  }

  /** Each listing is chosen exactly in its own case, whatever the case and padding of the mode. */
  lemma ListingChoice(mode: string, topOk: bool)
    ensures SelectListing(mode, topOk) == New <==> Strip(Lower(mode)) == "new"
    ensures SelectListing(mode, topOk) == Top <==> Strip(Lower(mode)) == "top" && topOk
    ensures SelectListing(mode, topOk) == Hot <==>
      Strip(Lower(mode)) != "new" && (Strip(Lower(mode)) != "top" || !topOk)
  {
  }

  /** `min(1 + log1p(score) + 0.5 * log1p(comments), 12)`. */
  function Engagement(p: Post): (e: real)
    ensures 1.0 <= e <= EngagementCap
  {
    var raw := 1.0 + p.scoreLog + 0.5 * p.commentsLog;
    if raw < EngagementCap then raw else EngagementCap
  }

  /** `weight * engagement`, what a post adds to each of its tickers. */
  function Scaled(weight: real, engagement: real): real {
    weight * engagement
  }

  /** `(title + "\n" + body).strip()`. */
  function PostText(p: Post): string {
    Strip(p.title + "\n" + p.body)
  }

  // ---------------------------------------------------------------------
  // What the posts contribute

  /** What one post adds: its distinct tickers each gain `inc`, with its link and source as evidence. */
  datatype Gain = Gain(tickers: set<string>, inc: real, link: string, src: string)

  /** The contribution of a post of source `name`, if it is recent and names a ticker. */
  function PostGain(name: string, weight: real, hours: int, p: Post, stopwords: set<string>, now: int): Option<Gain> {
    if p.created.None? || !WithinHours(p.created.value, hours, now) then None
    else
      var ts := TickerSet(PostText(p), stopwords);
      if ts == {} then None
      else Some(Gain(ts, Scaled(weight, Engagement(p)), LinkBase + p.permalink, "r/" + name))
  }

  /** The contributions of a source's posts, in listing order. */
  function PostGains(name: string, weight: real, hours: int, posts: seq<Post>, stopwords: set<string>, now: int): seq<Gain> {
    if posts == [] then []
    else
      var g := PostGain(name, weight, hours, posts[|posts| - 1], stopwords, now);
      PostGains(name, weight, hours, posts[..|posts| - 1], stopwords, now) + (if g.Some? then [g.value] else [])
  }

  /** The posts a source is read from. */
  function Fetched(s: SourceCfg, fetch: (string, Listing, int) -> seq<Post>, topOk: string -> bool): seq<Post> {
    var name := Strip(s.name);
    fetch(name, SelectListing(s.mode, topOk(name)), LimitPosts(s))
  }

  /** The contributions of one source; a blank name contributes nothing. */
  function SourceGains(s: SourceCfg, fetch: (string, Listing, int) -> seq<Post>, topOk: string -> bool,
                       stopwords: set<string>, now: int): seq<Gain> {
    var name := Strip(s.name);
    if name == [] then []
    else PostGains(name, Weight(s), LookbackHours(s), Fetched(s, fetch, topOk), stopwords, now)
  }

  /** Each source read the same way, with the same inputs. */
  function Reader(fetch: (string, Listing, int) -> seq<Post>, topOk: string -> bool,
                  stopwords: set<string>, now: int): SourceCfg -> seq<Gain> {
    s => SourceGains(s, fetch, topOk, stopwords, now)
  }

  /** The contributions of the sources, each read by `read`, in configuration order. */
  function Concat(sources: seq<SourceCfg>, read: SourceCfg -> seq<Gain>): seq<Gain> {
    if sources == [] then []
    else Concat(sources[..|sources| - 1], read) + read(sources[|sources| - 1])
  }

  /** The contributions of all sources, in configuration order. */
  function AllGains(sources: seq<SourceCfg>, fetch: (string, Listing, int) -> seq<Post>, topOk: string -> bool,
                    stopwords: set<string>, now: int): seq<Gain> {
    Concat(sources, Reader(fetch, topOk, stopwords, now))
  }

  /**
   * A post contributes exactly when its timestamp is readable and within
   * its source's window and its text names a ticker; it then gives each of
   * its distinct tickers `weight * engagement`, with `"r/" + name` as source.
   */
  lemma PostGainExact(name: string, weight: real, hours: int, p: Post, stopwords: set<string>, now: int)
    ensures PostGain(name, weight, hours, p, stopwords, now).Some? <==>
      p.created.Some? && WithinHours(p.created.value, hours, now) && TickerSet(PostText(p), stopwords) != {}
    ensures PostGain(name, weight, hours, p, stopwords, now).Some? ==>
      PostGain(name, weight, hours, p, stopwords, now).value
        == Gain(TickerSet(PostText(p), stopwords), Scaled(weight, Engagement(p)), LinkBase + p.permalink, "r/" + name)
  {
    var r := PostGain(name, weight, hours, p, stopwords, now);
    if p.created.Some? && WithinHours(p.created.value, hours, now) {
      var ts := TickerSet(PostText(p), stopwords);
      if ts != {} {
        assert r.Some?;
        assert r.value.tickers == ts;
        assert r.value.inc == Scaled(weight, Engagement(p));
        assert r.value.link == LinkBase + p.permalink;
        assert r.value.src == "r/" + name;
      }
    }
  }

  /** For a non-negative weight a post adds between `weight` and `12 * weight`. */
  lemma GainBounds(weight: real, p: Post)
    requires weight >= 0.0
    ensures weight <= weight * Engagement(p) <= 12.0 * weight
  {
    var e := Engagement(p);
    assert weight * e - weight == weight * (e - 1.0);
    assert 12.0 * weight - weight * e == weight * (12.0 - e);
  }

  /** A larger source weight gives every post of that source a strictly larger contribution. */
  lemma WeightOrdersGain(w1: real, w2: real, p: Post)
    requires w1 < w2
    ensures w1 * Engagement(p) < w2 * Engagement(p)
  {
    var e := Engagement(p);
    assert w2 * e - w1 * e == (w2 - w1) * e;
  }

  /** Reading two lists of sources one after the other gives their contributions one after the other. */
  lemma {:induction false} ConcatAppend(a: seq<SourceCfg>, b: seq<SourceCfg>, read: SourceCfg -> seq<Gain>)
    ensures Concat(a + b, read) == Concat(a, read) + Concat(b, read)
    decreases |b|
  {
    if b == [] {
      assert a + b == a;
    } else {
      var b' := b[..|b| - 1];
      assert (a + b)[..|a + b| - 1] == a + b';
      assert (a + b)[|a + b| - 1] == b[|b| - 1];
      ConcatAppend(a, b', read);
    }
  }

  /** A source with a blank name may be added anywhere without changing any contribution. */
  lemma BlankSourceIgnored(a: seq<SourceCfg>, s: SourceCfg, b: seq<SourceCfg>, fetch: (string, Listing, int) -> seq<Post>,
                           topOk: string -> bool, stopwords: set<string>, now: int)
    requires Strip(s.name) == []
    ensures AllGains(a + [s] + b, fetch, topOk, stopwords, now) == AllGains(a + b, fetch, topOk, stopwords, now)
  {
    var read := Reader(fetch, topOk, stopwords, now);
    assert read(s) == [];
    assert [s][..0] == [];
    assert Concat([s], read) == [];
    ConcatAppend(a + [s], b, read);
    ConcatAppend(a, [s], read);
    ConcatAppend(a, b, read);
  }

  // ---------------------------------------------------------------------
  // The shared accumulator tables

  /** `(score, url)` as kept in `best_link`. */
  datatype Lead = Lead(inc: real, url: string)

  /** `agg_score.get(t, 0.0)` after the contributions gs. */
  function Total(gs: seq<Gain>, t: string): real {
    if gs == [] then 0.0
    else
      var g := gs[|gs| - 1];
      Total(gs[..|gs| - 1], t) + (if t in g.tickers then g.inc else 0.0)
  }

  /** A ticker's best contribution after one more: replaced only when strictly larger. */
  function NextBest(prev: Option<Gain>, g: Gain, t: string): Option<Gain> {
    if t in g.tickers && (prev.None? || g.inc > prev.value.inc) then Some(g) else prev
  }

  /** The contribution whose link and source `best_link` and `best_src` hold for t. */
  function BestGain(gs: seq<Gain>, t: string): Option<Gain> {
    if gs == [] then None
    else NextBest(BestGain(gs[..|gs| - 1], t), gs[|gs| - 1], t)
  }

  /** The keys of `agg_score` after the contributions gs. */
  function RadarTickers(gs: seq<Gain>): set<string> {
    if gs == [] then {} else RadarTickers(gs[..|gs| - 1]) + gs[|gs| - 1].tickers
  }

  /** A ticker is a key exactly when some contribution names it, and then it has a best contribution. */
  lemma {:induction false} RadarTickersExact(gs: seq<Gain>, t: string)
    ensures t in RadarTickers(gs) <==> exists i :: 0 <= i < |gs| && t in gs[i].tickers
    ensures t in RadarTickers(gs) <==> BestGain(gs, t).Some?
  {
    if gs != [] {
      var init := gs[..|gs| - 1];
      RadarTickersExact(init, t);
      if exists i :: 0 <= i < |init| && t in init[i].tickers {
        var i :| 0 <= i < |init| && t in init[i].tickers;
        assert gs[i] == init[i];
      }
      if exists i :: 0 <= i < |gs| && t in gs[i].tickers {
        var i :| 0 <= i < |gs| && t in gs[i].tickers;
        if i < |init| {
          assert init[i] == gs[i];
        }
      }
    }
  }

  /** A ticker's total is the sum of what the contributions naming it add, however they are grouped. */
  lemma {:induction false} TotalAppend(a: seq<Gain>, b: seq<Gain>, t: string)
    ensures Total(a + b, t) == Total(a, t) + Total(b, t)
    decreases |b|
  {
    if b == [] {
      assert a + b == a;
    } else {
      var b' := b[..|b| - 1];
      assert (a + b)[..|a + b| - 1] == a + b';
      assert (a + b)[|a + b| - 1] == b[|b| - 1];
      TotalAppend(a, b', t);
    }
  }

  /** Contributions that do not name t leave its total unchanged. */
  lemma {:induction false} TotalIgnoresOthers(gs: seq<Gain>, t: string)
    requires forall i :: 0 <= i < |gs| ==> t !in gs[i].tickers
    ensures Total(gs, t) == 0.0
  {
    if gs != [] {
      var init := gs[..|gs| - 1];
      forall i | 0 <= i < |init| ensures t !in init[i].tickers {
        assert init[i] == gs[i];
      }
      TotalIgnoresOthers(init, t);
    }
  }

  /** gs[i] is the earliest of the largest contributions naming t. */
  predicate EarliestLargest(gs: seq<Gain>, t: string, i: nat)
    requires i < |gs|
  {
    && t in gs[i].tickers
    && (forall j :: 0 <= j < i && t in gs[j].tickers ==> gs[j].inc < gs[i].inc)
    && (forall j :: i < j < |gs| && t in gs[j].tickers ==> gs[j].inc <= gs[i].inc)
  }

  /** The best contribution is the earliest largest one, so its link and its source belong to one post. */
  lemma {:induction false} BestGainExact(gs: seq<Gain>, t: string)
    requires BestGain(gs, t).Some?
    ensures exists i :: 0 <= i < |gs| && EarliestLargest(gs, t, i) && BestGain(gs, t).value == gs[i]
  {
    var init := gs[..|gs| - 1];
    var last := |gs| - 1;
    var prev := BestGain(init, t);
    forall j | 0 <= j < |init| ensures init[j] == gs[j] {
    }
    if prev.None? {
      RadarTickersExact(init, t);
      assert EarliestLargest(gs, t, last);
    } else {
      BestGainExact(init, t);
      var i :| 0 <= i < |init| && EarliestLargest(init, t, i) && prev.value == init[i];
      if BestGain(gs, t) == prev {
        assert EarliestLargest(gs, t, i);
      } else {
        assert EarliestLargest(gs, t, last);
      }
    }
  }

  /**
   * Midway through one contribution g: for the tickers in `done` the dicts
   * reflect gs followed by g, for the others gs alone. With `done` empty this
   * is the state after gs.
   */
  ghost predicate AggPart(gs: seq<Gain>, g: Gain, done: set<string>, agg: map<string, real>) {
    && (forall t {:trigger t in agg} :: t in agg <==> t in RadarTickers(gs) || t in done)
    && (forall t {:trigger agg[t]} :: t in agg ==> agg[t] == Total(gs, t) + (if t in done then g.inc else 0.0))
  }

  ghost predicate BestPart(gs: seq<Gain>, g: Gain, done: set<string>, bestLink: map<string, Lead>, bestSrc: map<string, string>) {
    && (forall t {:trigger t in bestLink} :: t in bestLink <==> t in RadarTickers(gs) || t in done)
    && (forall t {:trigger t in bestSrc} :: t in bestSrc <==> t in bestLink)
    && (forall t {:trigger bestLink[t]} :: t in bestLink ==>
          var b := if t in done then NextBest(BestGain(gs, t), g, t) else BestGain(gs, t);
          b.Some? && bestLink[t] == Lead(b.value.inc, b.value.link) && bestSrc[t] == b.value.src)
  }

  /** `order` lists the keys of `agg_score` once each. */
  ghost predicate OrderOf(order: seq<string>, agg: map<string, real>) {
    && (forall t :: t in order <==> t in agg)
    && Distinct(order)
  }

  /** The contribution nobody makes, standing for "no contribution under way". */
  const NoGain := Gain({}, 0.0, "", "")

  /**
   * `agg_score`, `best_link` and `best_src` hold the totals and best
   * contributions of gs, and `order` lists the keys of the first once each.
   */
  ghost predicate RadarTally(gs: seq<Gain>, agg: map<string, real>, bestLink: map<string, Lead>,
                             bestSrc: map<string, string>, order: seq<string>) {
    AggPart(gs, NoGain, {}, agg) && BestPart(gs, NoGain, {}, bestLink, bestSrc) && OrderOf(order, agg)
  }

  /** Once every ticker of g is done, the dicts hold the state after gs and g. */
  lemma AggFinish(gs: seq<Gain>, g: Gain, agg: map<string, real>)
    requires AggPart(gs, g, g.tickers, agg)
    ensures AggPart(gs + [g], NoGain, {}, agg)
  {
    assert (gs + [g])[..|gs|] == gs;
  }

  lemma BestFinish(gs: seq<Gain>, g: Gain, bestLink: map<string, Lead>, bestSrc: map<string, string>)
    requires BestPart(gs, g, g.tickers, bestLink, bestSrc)
    ensures BestPart(gs + [g], NoGain, {}, bestLink, bestSrc)
  {
    assert (gs + [g])[..|gs|] == gs;
  }

  /** `agg_score[t] = agg_score.get(t, 0.0) + inc` for one more ticker t of g. */
  lemma AggTicker(gs: seq<Gain>, g: Gain, done: set<string>, t: string, agg: map<string, real>)
    requires AggPart(gs, g, done, agg)
    requires t in g.tickers && t !in done
    ensures AggPart(gs, g, done + {t}, agg[t := (if t in agg then agg[t] else 0.0) + g.inc])
  {
    if t !in agg {
      RadarTickersExact(gs, t);
      TotalIgnoresOthers(gs, t);
    }
  }

  /** The best link and source of t are replaced when absent or strictly beaten. */
  lemma BestTicker(gs: seq<Gain>, g: Gain, done: set<string>, t: string,
                   bestLink: map<string, Lead>, bestSrc: map<string, string>)
    requires BestPart(gs, g, done, bestLink, bestSrc)
    requires t in g.tickers && t !in done
    ensures var replace := t !in bestLink || g.inc > bestLink[t].inc;
      BestPart(gs, g, done + {t},
        if replace then bestLink[t := Lead(g.inc, g.link)] else bestLink,
        if replace then bestSrc[t := g.src] else bestSrc)
  {
    RadarTickersExact(gs, t);
  }

  /** A key seen for the first time is appended to the key sequence. */
  lemma OrderTicker(order: seq<string>, agg: map<string, real>, t: string, v: real)
    requires OrderOf(order, agg)
    ensures OrderOf(if t in agg then order else order + [t], agg[t := v])
  {
  }

  // ---------------------------------------------------------------------
  // The loops of build_cross_sub_radar

  /** Reading one more post extends the contributions by what that post gives, if anything. */
  lemma PostGainsSnoc(name: string, weight: real, hours: int, posts: seq<Post>, j: nat, stopwords: set<string>, now: int)
    requires j < |posts|
    ensures var g := PostGain(name, weight, hours, posts[j], stopwords, now);
      PostGains(name, weight, hours, posts[..j + 1], stopwords, now)
        == PostGains(name, weight, hours, posts[..j], stopwords, now) + (if g.Some? then [g.value] else [])
  {
    assert posts[..j + 1][..j] == posts[..j];
  }

  /** Reading one more source extends the contributions by that source's. */
  lemma AllGainsSnoc(sources: seq<SourceCfg>, i: nat, fetch: (string, Listing, int) -> seq<Post>,
                     topOk: string -> bool, stopwords: set<string>, now: int)
    requires i < |sources|
    ensures AllGains(sources[..i + 1], fetch, topOk, stopwords, now)
         == AllGains(sources[..i], fetch, topOk, stopwords, now) + SourceGains(sources[i], fetch, topOk, stopwords, now)
  {
    assert sources[..i + 1][..i] == sources[..i];
    assert Reader(fetch, topOk, stopwords, now)(sources[i]) == SourceGains(sources[i], fetch, topOk, stopwords, now);
  }

  /**
   * One pass of the ticker loop (bot.py:86-91): t gains `inc`, and the post
   * becomes its best link and source when it has none or `inc` is strictly larger.
   */
  method CreditTicker(ghost gs: seq<Gain>, ghost g: Gain, ghost done: set<string>, t: string, inc: real, url: string, src: string,
                      agg0: map<string, real>, bestLink0: map<string, Lead>, bestSrc0: map<string, string>, order0: seq<string>)
    returns (agg: map<string, real>, bestLink: map<string, Lead>, bestSrc: map<string, string>, order: seq<string>)
    requires g.inc == inc && g.link == url && g.src == src
    requires t in g.tickers && t !in done
    requires AggPart(gs, g, done, agg0) && BestPart(gs, g, done, bestLink0, bestSrc0) && OrderOf(order0, agg0)
    ensures AggPart(gs, g, done + {t}, agg) && BestPart(gs, g, done + {t}, bestLink, bestSrc) && OrderOf(order, agg)
  {
    AggTicker(gs, g, done, t, agg0);
    BestTicker(gs, g, done, t, bestLink0, bestSrc0);
    OrderTicker(order0, agg0, t, (if t in agg0 then agg0[t] else 0.0) + inc);
    order := if t !in agg0 then order0 + [t] else order0;
    agg := agg0[t := (if t in agg0 then agg0[t] else 0.0) + inc];
    if t !in bestLink0 || inc > bestLink0[t].inc {
      bestLink := bestLink0[t := Lead(inc, url)];
      bestSrc := bestSrc0[t := src];
    } else {
      bestLink, bestSrc := bestLink0, bestSrc0;
    }
  }

  /** The ticker loop of one post (bot.py:85-91), over its distinct tickers in any order. */
  method CreditTickers(ghost gs: seq<Gain>, ghost g: Gain, tickers: set<string>, inc: real, url: string, src: string,
                       agg0: map<string, real>, bestLink0: map<string, Lead>, bestSrc0: map<string, string>, order0: seq<string>)
    returns (agg: map<string, real>, bestLink: map<string, Lead>, bestSrc: map<string, string>, order: seq<string>)
    requires g == Gain(tickers, inc, url, src)
    requires RadarTally(gs, agg0, bestLink0, bestSrc0, order0)
    ensures RadarTally(gs + [g], agg, bestLink, bestSrc, order)
  {
    agg, bestLink, bestSrc, order := agg0, bestLink0, bestSrc0, order0;
    var rest := tickers;
    ghost var done: set<string> := {};
    while rest != {}
      invariant done + rest == tickers && done !! rest
      invariant AggPart(gs, g, done, agg)
      invariant BestPart(gs, g, done, bestLink, bestSrc)
      invariant OrderOf(order, agg)
      decreases |rest|
    {
      var t :| t in rest;
      agg, bestLink, bestSrc, order := CreditTicker(gs, g, done, t, inc, url, src, agg, bestLink, bestSrc, order);
      done, rest := done + {t}, rest - {t};
    }
    assert done == tickers;
    AggFinish(gs, g, agg);
    BestFinish(gs, g, bestLink, bestSrc);
  }

  /**
   * One pass of the post loop (bot.py:65-91): a post without a creation time,
   * older than the lookback window or naming no ticker changes nothing;
   * otherwise its distinct tickers are credited with `weight * engagement`.
   */
  method CreditPost(name: string, weight: real, lookbackHours: int, post: Post,
                    stopwords: set<string>, now: int, ghost gs: seq<Gain>,
                    agg0: map<string, real>, bestLink0: map<string, Lead>, bestSrc0: map<string, string>, order0: seq<string>)
    returns (agg: map<string, real>, bestLink: map<string, Lead>, bestSrc: map<string, string>, order: seq<string>)
    requires RadarTally(gs, agg0, bestLink0, bestSrc0, order0)
    ensures var g := PostGain(name, weight, lookbackHours, post, stopwords, now);
      RadarTally(gs + (if g.Some? then [g.value] else []), agg, bestLink, bestSrc, order)
  {
    agg, bestLink, bestSrc, order := agg0, bestLink0, bestSrc0, order0;
    ghost var pg := PostGain(name, weight, lookbackHours, post, stopwords, now);
    PostGainExact(name, weight, lookbackHours, post, stopwords, now);
    if post.created.None? || !WithinHours(post.created.value, lookbackHours, now) {
      assert pg.None?;
      assert gs + [] == gs;
      return;
    }
    var txt := Strip(post.title + "\n" + post.body);
    var found := ExtractTickers(txt, stopwords);
    var tickers := set x | x in found;
    assert txt == PostText(post);
    assert tickers == TickerSet(txt, stopwords);
    if tickers == {} {
      assert pg.None?;
      assert gs + [] == gs;
      return;
    }
    var engagement := Engagement(post);
    var url := LinkBase + post.permalink;
    var inc := Scaled(weight, engagement);
    ghost var g := Gain(tickers, inc, url, "r/" + name);
    assert pg.Some?;
    assert pg.value.tickers == tickers;
    assert pg.value.inc == inc;
    assert pg.value.link == url;
    assert pg.value.src == "r/" + name;
    assert pg == Some(g);
    agg, bestLink, bestSrc, order := CreditTickers(gs, g, tickers, inc, url, "r/" + name, agg, bestLink, bestSrc, order);
  }

  /**
   * The post loop of one source (bot.py:64-91): every recent post that names
   * a ticker adds `weight * engagement` to each of its distinct tickers and
   * may become their best link, with `"r/" + name` as source.
   */
  method AccumulatePosts(name: string, weight: real, lookbackHours: int, posts: seq<Post>,
                         stopwords: set<string>, now: int, ghost gs: seq<Gain>,
                         agg0: map<string, real>, bestLink0: map<string, Lead>, bestSrc0: map<string, string>, order0: seq<string>)
    returns (agg: map<string, real>, bestLink: map<string, Lead>, bestSrc: map<string, string>, order: seq<string>)
    requires RadarTally(gs, agg0, bestLink0, bestSrc0, order0)
    ensures RadarTally(gs + PostGains(name, weight, lookbackHours, posts, stopwords, now), agg, bestLink, bestSrc, order)
  {
    agg, bestLink, bestSrc, order := agg0, bestLink0, bestSrc0, order0;
    assert gs + PostGains(name, weight, lookbackHours, posts[..0], stopwords, now) == gs;
    for j := 0 to |posts|
      invariant RadarTally(gs + PostGains(name, weight, lookbackHours, posts[..j], stopwords, now), agg, bestLink, bestSrc, order)
    {
      ghost var done := gs + PostGains(name, weight, lookbackHours, posts[..j], stopwords, now);
      PostGainsSnoc(name, weight, lookbackHours, posts, j, stopwords, now);
      agg, bestLink, bestSrc, order := CreditPost(name, weight, lookbackHours, posts[j], stopwords, now, done,
        agg, bestLink, bestSrc, order);
      ghost var g := PostGain(name, weight, lookbackHours, posts[j], stopwords, now);
      assert done + (if g.Some? then [g.value] else [])
          == gs + PostGains(name, weight, lookbackHours, posts[..j + 1], stopwords, now);
    }
    assert posts[..|posts|] == posts;
  }

  /**
   * One pass of the source loop (bot.py:44-63): a blank name is skipped;
   * otherwise the `or` fallbacks and the listing choice are applied and the
   * fetched posts are read.
   */
  method CreditSource(s: SourceCfg, fetch: (string, Listing, int) -> seq<Post>,
                      topOk: string -> bool, stopwords: set<string>, now: int, ghost gs: seq<Gain>,
                      agg0: map<string, real>, bestLink0: map<string, Lead>, bestSrc0: map<string, string>, order0: seq<string>)
    returns (agg: map<string, real>, bestLink: map<string, Lead>, bestSrc: map<string, string>, order: seq<string>)
    requires RadarTally(gs, agg0, bestLink0, bestSrc0, order0)
    ensures RadarTally(gs + SourceGains(s, fetch, topOk, stopwords, now), agg, bestLink, bestSrc, order)
  {
    agg, bestLink, bestSrc, order := agg0, bestLink0, bestSrc0, order0;
    var name := Strip(s.name);
    if name == [] {
      assert gs + SourceGains(s, fetch, topOk, stopwords, now) == gs;
      return;
    }
    var weight := OrReal(s.weight, DefaultWeight);
    var mode := Strip(Lower(s.mode));
    var limitPosts := OrInt(s.limitPosts, DefaultLimitPosts);
    var lookbackHours := OrInt(s.lookbackHours, DefaultLookbackHours);
    var listing: Listing;
    if mode == "new" {
      listing := New;
    } else if mode == "top" {
      listing := if topOk(name) then Top else Hot;
    } else {
      listing := Hot;
    }
    var posts := fetch(name, listing, limitPosts);
    assert posts == Fetched(s, fetch, topOk);
    agg, bestLink, bestSrc, order := AccumulatePosts(name, weight, lookbackHours, posts, stopwords, now,
      gs, agg, bestLink, bestSrc, order);
  }

  /**
   * The source loop (bot.py:43-91): the posts of every source feed the same
   * three dicts. Afterwards `agg_score` holds every ticker's total over all
   * contributions, `best_link` and `best_src` its earliest largest
   * contribution, and `order` its keys once each.
   */
  method AccumulateSources(sources: seq<SourceCfg>, fetch: (string, Listing, int) -> seq<Post>,
                           topOk: string -> bool, stopwords: set<string>, now: int)
    returns (agg: map<string, real>, bestLink: map<string, Lead>, bestSrc: map<string, string>, order: seq<string>)
    ensures RadarTally(AllGains(sources, fetch, topOk, stopwords, now), agg, bestLink, bestSrc, order)
  {
    agg, bestLink, bestSrc, order := map[], map[], map[], [];
    assert AllGains(sources[..0], fetch, topOk, stopwords, now) == [];
    for i := 0 to |sources|
      invariant RadarTally(AllGains(sources[..i], fetch, topOk, stopwords, now), agg, bestLink, bestSrc, order)
    {
      AllGainsSnoc(sources, i, fetch, topOk, stopwords, now);
      agg, bestLink, bestSrc, order := CreditSource(sources[i], fetch, topOk, stopwords, now,
        AllGains(sources[..i], fetch, topOk, stopwords, now), agg, bestLink, bestSrc, order);
    }
    assert sources[..|sources|] == sources;
  }

  // ---------------------------------------------------------------------
  // Ranking and output

  /** The sort key of an item: `(score, ticker)`. */
  function KeyOf(it: RadarItem): Entry {
    Entry(it.ticker, it.score)
  }

  /** The item reports t's total and the link and source of its earliest largest contribution. */
  predicate Reports(gs: seq<Gain>, it: RadarItem) {
    && it.ticker in RadarTickers(gs)
    && it.score == Total(gs, it.ticker)
    && BestGain(gs, it.ticker).Some?
    && it.bestPost == Some(BestGain(gs, it.ticker).value.link)
    && it.bestSrc == Some(BestGain(gs, it.ticker).value.src)
  }

  /** No item reports ticker t. */
  predicate Omitted(items: seq<RadarItem>, t: string) {
    forall i :: 0 <= i < |items| ==> items[i].ticker != t
  }

  /** The table holds `(t, agg_score[t])` for the tickers of `order`, in that order. */
  predicate Tabulates(table: seq<Entry>, order: seq<string>, agg: map<string, real>) {
    && |table| == |order|
    && forall j :: 0 <= j < |order| ==> order[j] in agg && table[j] == Entry(order[j], agg[order[j]])
  }

  /** An entry of the table becomes an item that reports its ticker. */
  lemma TableEntryReports(gs: seq<Gain>, agg: map<string, real>, bestLink: map<string, Lead>,
                          bestSrc: map<string, string>, order: seq<string>, table: seq<Entry>, e: Entry)
    requires RadarTally(gs, agg, bestLink, bestSrc, order)
    requires Tabulates(table, order, agg)
    requires e in table
    ensures e.ticker in agg && e.ticker in bestLink && e.ticker in bestSrc
    ensures var it := RadarItem(e.ticker, agg[e.ticker], Some(bestLink[e.ticker].url), Some(bestSrc[e.ticker]));
      KeyOf(it) == e && Reports(gs, it)
  {
    var m :| 0 <= m < |table| && table[m] == e;
    assert order[m] == e.ticker;
  }

  /** A ticker without an item ranks below every item. */
  lemma OmittedRanksBelow(gs: seq<Gain>, agg: map<string, real>, bestLink: map<string, Lead>,
                          bestSrc: map<string, string>, order: seq<string>, table: seq<Entry>,
                          ranked: seq<Entry>, items: seq<RadarItem>, t: string)
    requires RadarTally(gs, agg, bestLink, bestSrc, order)
    requires Tabulates(table, order, agg)
    requires forall x, y :: x in ranked && y in table && y !in ranked ==> KeyLess(y, x)
    requires |items| == |ranked| && forall i :: 0 <= i < |items| ==> KeyOf(items[i]) == ranked[i]
    requires t in RadarTickers(gs) && Omitted(items, t)
    ensures forall i :: 0 <= i < |items| ==> KeyLess(Entry(t, Total(gs, t)), KeyOf(items[i]))
  {
    assert t in agg;
    var m :| 0 <= m < |order| && order[m] == t;
    var e := table[m];
    assert e == Entry(t, Total(gs, t));
    forall i | 0 <= i < |items| ensures KeyLess(e, KeyOf(items[i])) {
      assert ranked[i] in ranked;
    }
  }

  /** The pairs `agg_score.items()`, in the order of the key sequence. */
  method Tabulate(agg: map<string, real>, order: seq<string>) returns (table: seq<Entry>)
    requires forall t :: t in order ==> t in agg
    ensures Tabulates(table, order, agg)
  {
    table := [];
    for i := 0 to |order|
      invariant Tabulates(table, order[..i], agg)
    {
      table := table + [Entry(order[i], agg[order[i]])];
    }
    assert order[..|order|] == order;
  }

  /** The output loop (bot.py:94-101): one item per ranked pair, with its best link and source. */
  method ReportRanked(ghost gs: seq<Gain>, agg: map<string, real>, bestLink: map<string, Lead>,
                      bestSrc: map<string, string>, ghost order: seq<string>, ghost table: seq<Entry>,
                      ranked: seq<Entry>) returns (out: seq<RadarItem>)
    requires RadarTally(gs, agg, bestLink, bestSrc, order)
    requires Tabulates(table, order, agg)
    requires forall e :: e in ranked ==> e in table
    ensures |out| == |ranked|
    ensures forall j :: 0 <= j < |out| ==> KeyOf(out[j]) == ranked[j] && Reports(gs, out[j])
  {
    out := [];
    for i := 0 to |ranked|
      invariant |out| == i
      invariant forall j :: 0 <= j < i ==> KeyOf(out[j]) == ranked[j] && Reports(gs, out[j])
    {
      TableEntryReports(gs, agg, bestLink, bestSrc, order, table, ranked[i]);
      var t := ranked[i].ticker;
      var bestPost := if t in bestLink then Some(bestLink[t].url) else None;
      var src := if t in bestSrc then Some(bestSrc[t]) else None;
      out := out + [RadarItem(t, agg[t], bestPost, src)];
    }
  }

  /**
   * The ranking and output of `build_cross_sub_radar` (bot.py:93-102), for
   * any contributions gs the dicts hold: as many items as `[:max_out]` keeps,
   * each with its ticker's total and the link and source of its best
   * contribution (never absent), strictly descending by (score, ticker), and
   * every ticker left out ranks below every one kept.
   */
  method RankRadar(ghost gs: seq<Gain>, agg: map<string, real>, bestLink: map<string, Lead>,
                   bestSrc: map<string, string>, order: seq<string>, maxOut: int) returns (out: seq<RadarItem>)
    requires RadarTally(gs, agg, bestLink, bestSrc, order)
    ensures |out| == SliceLen(|RadarTickers(gs)|, maxOut)
    ensures forall i :: 0 <= i < |out| ==> Reports(gs, out[i])
    ensures forall i, j :: 0 <= i < j < |out| ==> KeyLess(KeyOf(out[j]), KeyOf(out[i]))
    ensures forall t :: t in RadarTickers(gs) && Omitted(out, t) ==>
      forall i :: 0 <= i < |out| ==> KeyLess(Entry(t, Total(gs, t)), KeyOf(out[i]))
  {
    DistinctCard(order, RadarTickers(gs));
    var table := Tabulate(agg, order);
    assert DistinctTickers(table);
    var ranked := Rank(table, maxOut);
    forall e | e in ranked ensures e in table {
      assert e in multiset(ranked);
    }
    out := ReportRanked(gs, agg, bestLink, bestSrc, order, table, ranked);
    forall t | t in RadarTickers(gs) && Omitted(out, t)
      ensures forall i :: 0 <= i < |out| ==> KeyLess(Entry(t, Total(gs, t)), KeyOf(out[i]))
    {
      OmittedRanksBelow(gs, agg, bestLink, bestSrc, order, table, ranked, out, t);
    }
  }

  /**
   * `build_cross_sub_radar`: nothing when the radar is disabled; otherwise
   * the contributions of every configured source, totalled per ticker and
   * ranked and cut as `RankRadar` states.
   */
  method BuildCrossSubRadar(cfg: RadarConfig, fetch: (string, Listing, int) -> seq<Post>,
                            topOk: string -> bool, stopwords: set<string>, now: int) returns (out: seq<RadarItem>)
    ensures !cfg.enabled ==> out == []
    ensures cfg.enabled ==> |out| == SliceLen(|RadarTickers(AllGains(cfg.sources, fetch, topOk, stopwords, now))|, MaxOut(cfg))
    ensures cfg.enabled ==> forall i :: 0 <= i < |out| ==> Reports(AllGains(cfg.sources, fetch, topOk, stopwords, now), out[i])
    ensures forall i, j :: 0 <= i < j < |out| ==> KeyLess(KeyOf(out[j]), KeyOf(out[i]))
    ensures cfg.enabled ==> forall t :: t in RadarTickers(AllGains(cfg.sources, fetch, topOk, stopwords, now)) && Omitted(out, t) ==>
      forall i :: 0 <= i < |out| ==>
        KeyLess(Entry(t, Total(AllGains(cfg.sources, fetch, topOk, stopwords, now), t)), KeyOf(out[i]))
  {
    if !cfg.enabled {
      return [];
    }
    var maxOut := OrInt(cfg.maxTickers, DefaultMaxTickers);
    var agg, bestLink, bestSrc, order := AccumulateSources(cfg.sources, fetch, topOk, stopwords, now);
    out := RankRadar(AllGains(cfg.sources, fetch, topOk, stopwords, now), agg, bestLink, bestSrc, order, maxOut);
  }
}
