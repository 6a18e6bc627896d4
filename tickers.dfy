/**
 * The ticker recognizer and candidacy filter (bot.py:11, 126-154).
 *
 * The pattern `(?<![A-Z0-9$])(\$?[A-Z]{1,5})(?![A-Z0-9])` is modelled as the
 * regex engine runs it: at a position the lookbehind is checked, the optional
 * `$` is tried first taken and then skipped, the letters are taken greedily
 * (at most five) and given back one by one until the lookahead holds, and
 * `finditer` resumes the search where the last match ended. `IsMatch` states
 * the same language declaratively; `MatchAtIff` and `ScanExact` connect them.
 */
module Tickers {
  import opened Wrappers
  import opened Text

  /** `[A-Z0-9]`: what may not follow a match. */
  predicate IsWordChar(c: char) { IsUpper(c) || IsDigit(c) }

  /** `[A-Z0-9$]`: what may not precede a match. */
  predicate BlocksStart(c: char) { IsWordChar(c) || c == '$' }

  /** The lookbehind `(?<![A-Z0-9$])` at position p. */
  predicate StartOk(u: string, p: nat)
    requires p <= |u|
  {
    p == 0 || !BlocksStart(u[p - 1])
  }

  /** The lookahead `(?![A-Z0-9])` at position q. */
  predicate EndOk(u: string, q: nat)
    requires q <= |u|
  {
    q == |u| || !IsWordChar(u[q])
  }

  predicate AllLetters(u: string, a: nat, b: nat)
    requires a <= b <= |u|
  {
    forall i :: a <= i < b ==> IsUpper(u[i])
  }

  /** The most letters `[A-Z]{1,5}` may take. */
  const MaxLetters: nat := 5

  /** Greedy repetition: the number of letters, at most `cap`, starting at p. */
  function Greedy(u: string, p: nat, cap: nat): (k: nat)
    requires p <= |u|
    ensures k <= cap && p + k <= |u|
    ensures AllLetters(u, p, p + k)
    ensures k < cap && p + k < |u| ==> !IsUpper(u[p + k])
    decreases cap
  {
    if cap == 0 || p == |u| || !IsUpper(u[p]) then 0 else 1 + Greedy(u, p + 1, cap - 1)
  }

  /** Backtracking: try k, k - 1, ..., 1 letters until the lookahead holds; the end of the match. */
  function Backtrack(u: string, p: nat, k: nat): (r: Option<nat>)
    requires p + k <= |u|
    ensures r.Some? ==> p < r.value <= p + k && EndOk(u, r.value)
    decreases k
  {
    if k == 0 then None
    else if EndOk(u, p + k) then Some(p + k)
    else Backtrack(u, p, k - 1)
  }

  /** `[A-Z]{1,5}(?![A-Z0-9])` matched from p: the end of the match, if any. */
  function LettersFrom(u: string, p: nat): Option<nat>
    requires p <= |u|
  {
    Backtrack(u, p, Greedy(u, p, MaxLetters))
  }

  /** The whole pattern tried at position p: the end of the match, if any. */
  function MatchAt(u: string, p: nat): (r: Option<nat>)
    requires p < |u|
  {
    if !StartOk(u, p) then None
    else if u[p] == '$' && LettersFrom(u, p + 1).Some? then LettersFrom(u, p + 1)
    else LettersFrom(u, p)
  }

  /** A bare token u[p..q]: a maximal run of 1 to 5 letters not touching `[A-Z0-9$]` before or `[A-Z0-9]` after. */
  predicate IsBareMatch(u: string, p: nat, q: nat) {
    p < q <= |u| && q - p <= MaxLetters && AllLetters(u, p, q) && StartOk(u, p) && EndOk(u, q)
  }

  /** A dollar token u[p..q]: `$` not preceded by `[A-Z0-9$]`, then a maximal run of 1 to 5 letters not followed by `[A-Z0-9]`. */
  predicate IsDollarMatch(u: string, p: nat, q: nat) {
    p + 1 < q <= |u| && u[p] == '$' && q - (p + 1) <= MaxLetters && AllLetters(u, p + 1, q)
    && StartOk(u, p) && EndOk(u, q)
  }

  predicate IsMatch(u: string, p: nat, q: nat) {
    IsBareMatch(u, p, q) || IsDollarMatch(u, p, q)
  }

  lemma {:induction false} GreedyExact(u: string, p: nat, q: nat, cap: nat)
    requires p <= q <= |u| && q - p <= cap
    requires AllLetters(u, p, q)
    requires q == |u| || !IsUpper(u[q])
    ensures Greedy(u, p, cap) == q - p
    decreases cap
  {
    if p < q {
      GreedyExact(u, p + 1, q, cap - 1);
    }
  }

  /** The letters part of the regex matches exactly a maximal run of 1 to 5 letters followed by the lookahead. */
  lemma LettersFromIff(u: string, p: nat, q: nat)
    requires p <= |u|
    ensures LettersFrom(u, p) == Some(q) <==>
              p < q <= |u| && q - p <= MaxLetters && AllLetters(u, p, q) && EndOk(u, q)
  {
    if p < q <= |u| && q - p <= MaxLetters && AllLetters(u, p, q) && EndOk(u, q) {
      GreedyExact(u, p, q, MaxLetters);
    }
  }

  /** The backtracking engine at position p finds exactly the declarative match starting there. */
  lemma MatchAtIff(u: string, p: nat, q: nat)
    requires p < |u|
    ensures MatchAt(u, p) == Some(q) <==> IsMatch(u, p, q)
  {
    LettersFromIff(u, p, q);
    LettersFromIff(u, p + 1, q);
    if u[p] == '$' {
      assert Greedy(u, p, MaxLetters) == 0;
    }
  }

  /** A match leaves no room for another one to start inside it. */
  lemma NoMatchInside(u: string, p: nat, q: nat, a: nat, b: nat)
    requires IsMatch(u, p, q) && p < a < q
    ensures !IsMatch(u, a, b)
  {
    assert BlocksStart(u[a - 1]);
  }

  /** A match as the positions [start, end) of the upper-cased text. */
  datatype Span = Span(start: nat, end: nat)

  predicate ValidSpans(u: string, spans: seq<Span>) {
    forall i :: 0 <= i < |spans| ==> spans[i].start < spans[i].end <= |u|
  }

  /** `TICKER_RE.finditer(u)` from position p: the matches, left to right, never overlapping. */
  function Scan(u: string, p: nat): (r: seq<Span>)
    requires p <= |u|
    ensures ValidSpans(u, r)
    ensures forall i :: 0 <= i < |r| ==> p <= r[i].start
    ensures forall i, j :: 0 <= i < j < |r| ==> r[i].end <= r[j].start
    decreases |u| - p
  {
    if p == |u| then []
    else
      match MatchAt(u, p)
      case Some(q) =>
        MatchAtIff(u, p, q);
        [Span(p, q)] + Scan(u, q)
      case None => Scan(u, p + 1)
  }

  /** The scan reports every match at or after p, and nothing else. */
  lemma {:induction false} ScanExact(u: string, p: nat, a: nat, b: nat)
    requires p <= |u|
    ensures Span(a, b) in Scan(u, p) <==> p <= a && IsMatch(u, a, b)
    decreases |u| - p
  {
    if p < |u| {
      match MatchAt(u, p)
      case Some(q) =>
        MatchAtIff(u, p, q);
        MatchAtIff(u, p, b);
        ScanExact(u, q, a, b);
        if p < a < q {
          NoMatchInside(u, p, q, a, b);
        }
      case None =>
        MatchAtIff(u, p, b);
        ScanExact(u, p + 1, a, b);
    }
  }

  // ---------------------------------------------------------------------
  // Candidacy filter (bot.py:126-144)

  /** Degenerate four-of-a-kind strings that are never tickers. */
  const RejectList: set<string> := {"AAAA", "BBBB", "CCCC"}

  predicate StartsWithDollar(t: string) { |t| > 0 && t[0] == '$' }

  /** A raw match without its leading `$`, the form a ticker is reported in. */
  function Canonical(raw: string): string {
    if StartsWithDollar(raw) then raw[1..] else raw
  }

  /** `is_candidate_ticker`: the rules, in the order the code applies them. */
  predicate IsCandidate(raw: string, stopwords: set<string>) {
    var t := Upper(raw);
    var stripped := if StartsWithDollar(t) then t[1..] else t;
    if StartsWithDollar(t) && |stripped| == 1 then true
    else if |stripped| == 1 then false
    else if stripped in stopwords then false
    else if stripped in RejectList then false
    else true
  }

  /**
   * The filter, rule by rule: `$` and one character is accepted whatever the
   * stopwords; a bare single character is rejected; a token of two or more
   * characters (after the `$`) is accepted exactly when it is neither a
   * stopword nor in the reject list.
   */
  lemma CandidateRules(raw: string, stopwords: set<string>)
    ensures var t := Upper(raw);
      && (|t| == 2 && t[0] == '$' ==> IsCandidate(raw, stopwords))
      && (|t| == 1 && t[0] != '$' ==> !IsCandidate(raw, stopwords))
      && (|Canonical(t)| >= 2 ==>
            (IsCandidate(raw, stopwords) <==> Canonical(t) !in stopwords && Canonical(t) !in RejectList))
  {
  }

  // ---------------------------------------------------------------------
  // extract_tickers (bot.py:146-154)

  /** The raw matches `m.group(1)` of the spans, in order. */
  function Tokens(u: string, spans: seq<Span>): (r: seq<string>)
    requires ValidSpans(u, spans)
    ensures |r| == |spans|
    ensures forall i :: 0 <= i < |spans| ==> r[i] == u[spans[i].start..spans[i].end]
  {
    seq(|spans|, i requires 0 <= i < |spans| => u[spans[i].start..spans[i].end])
  }

  /** The raw matches that pass the filter, each without its `$`, in order. */
  function Filter(raws: seq<string>, stopwords: set<string>): seq<string> {
    if raws == [] then []
    else
      var raw := raws[|raws| - 1];
      Filter(raws[..|raws| - 1], stopwords) + (if IsCandidate(raw, stopwords) then [Canonical(raw)] else [])
  }

  /** What `extract_tickers(text, stopwords)` returns. */
  function Extract(text: string, stopwords: set<string>): seq<string> {
    if text == [] then []
    else
      var u := Upper(text);
      Filter(Tokens(u, Scan(u, 0)), stopwords)
  }

  /** `set(extract_tickers(text, stopwords))`: the distinct tickers of a text. */
  function TickerSet(text: string, stopwords: set<string>): set<string> {
    set t | t in Extract(text, stopwords)
  }

  /** `extract_tickers`: scan the upper-cased text and append every accepted match without its `$`. */
  method ExtractTickers(text: string, stopwords: set<string>) returns (out: seq<string>)
    ensures out == Extract(text, stopwords)
  {
    if text == [] {
      return [];
    }
    var u := Upper(text);
    var matches := Scan(u, 0);
    ghost var raws := Tokens(u, matches);
    out := [];
    for k := 0 to |matches|
      invariant out == Filter(raws[..k], stopwords)
    {
      var raw := u[matches[k].start..matches[k].end];
      if IsCandidate(raw, stopwords) {
        out := out + [if StartsWithDollar(raw) then raw[1..] else raw];
      }
      assert raws[..k + 1][..k] == raws[..k];
    }
    assert raws[..|matches|] == raws;
  }

  /** A ticker is kept exactly when some raw match passes the filter and is that ticker without its `$`. */
  lemma {:induction false} FilterMembers(raws: seq<string>, stopwords: set<string>, t: string)
    ensures t in Filter(raws, stopwords) <==>
              exists i :: 0 <= i < |raws| && IsCandidate(raws[i], stopwords) && t == Canonical(raws[i])
    decreases |raws|
  {
    if raws != [] {
      var n := |raws| - 1;
      FilterMembers(raws[..n], stopwords, t);
      assert forall i :: 0 <= i < n ==> raws[..n][i] == raws[i];
    }
  }

  /** An accepted raw match of u is an accepted match of the pattern in u. */
  lemma FilteredIsMatch(u: string, stopwords: set<string>, t: string)
    requires t in Filter(Tokens(u, Scan(u, 0)), stopwords)
    ensures exists p: nat, q: nat :: IsMatch(u, p, q) && IsCandidate(u[p..q], stopwords) && t == Canonical(u[p..q])
  {
    var spans := Scan(u, 0);
    var raws := Tokens(u, spans);
    FilterMembers(raws, stopwords, t);
    var i :| 0 <= i < |raws| && IsCandidate(raws[i], stopwords) && t == Canonical(raws[i]);
    ScanExact(u, 0, spans[i].start, spans[i].end);
  }

  /** Every accepted match of the pattern in u is among the accepted raw matches. */
  lemma MatchIsFiltered(u: string, stopwords: set<string>, p: nat, q: nat)
    requires IsMatch(u, p, q) && IsCandidate(u[p..q], stopwords)
    ensures Canonical(u[p..q]) in Filter(Tokens(u, Scan(u, 0)), stopwords)
  {
    var spans := Scan(u, 0);
    ScanExact(u, 0, p, q);
    var i :| 0 <= i < |spans| && spans[i] == Span(p, q);
    var raws := Tokens(u, spans);
    var raw := raws[i];
    assert raw == u[p..q];
    FilterMembers(raws, stopwords, Canonical(raw));
  }

  /** The accepted raw matches of u are exactly the accepted matches of the pattern in u. */
  lemma ScanMembers(u: string, stopwords: set<string>, t: string)
    ensures t in Filter(Tokens(u, Scan(u, 0)), stopwords) <==>
              exists p: nat, q: nat :: IsMatch(u, p, q) && IsCandidate(u[p..q], stopwords) && t == Canonical(u[p..q])
  {
    if t in Filter(Tokens(u, Scan(u, 0)), stopwords) {
      FilteredIsMatch(u, stopwords, t);
    }
    if exists p: nat, q: nat :: IsMatch(u, p, q) && IsCandidate(u[p..q], stopwords) && t == Canonical(u[p..q]) {
      var p: nat, q: nat :| IsMatch(u, p, q) && IsCandidate(u[p..q], stopwords) && t == Canonical(u[p..q]);
      MatchIsFiltered(u, stopwords, p, q);
    }
  }

  /**
   * A ticker is extracted exactly when some match of the pattern in the
   * upper-cased text passes the filter and is that ticker without its `$`.
   */
  lemma ExtractMembers(text: string, stopwords: set<string>, t: string)
    ensures t in Extract(text, stopwords) <==>
              exists p: nat, q: nat :: IsMatch(Upper(text), p, q) && IsCandidate(Upper(text)[p..q], stopwords)
                             && t == Canonical(Upper(text)[p..q])
  {
    var u := Upper(text);
    ScanMembers(u, stopwords, t);
    if text == [] {
      assert u == [];
      assert Scan(u, 0) == [];
    }
  }

  predicate IsTickerSymbol(t: string) {
    1 <= |t| <= MaxLetters && forall i :: 0 <= i < |t| ==> IsUpper(t[i])
  }

  /**
   * Every extracted ticker is 1 to 5 letters A-Z (no `$`), and one of two or
   * more letters is neither a stopword nor in the reject list.
   */
  lemma ExtractedAreTickers(text: string, stopwords: set<string>, t: string)
    requires t in Extract(text, stopwords)
    ensures IsTickerSymbol(t)
    ensures |t| >= 2 ==> t !in stopwords && t !in RejectList
  {
    ExtractMembers(text, stopwords, t);
    var u := Upper(text);
    var p: nat, q: nat :| IsMatch(u, p, q) && IsCandidate(u[p..q], stopwords) && t == Canonical(u[p..q]);
    AcceptedMatchIsTicker(u, stopwords, p, q);
  }

  /** An accepted match, without its `$`, is a ticker symbol that passed the filter. */
  lemma AcceptedMatchIsTicker(u: string, stopwords: set<string>, p: nat, q: nat)
    requires IsMatch(u, p, q) && IsCandidate(u[p..q], stopwords)
    ensures IsTickerSymbol(Canonical(u[p..q]))
    ensures |Canonical(u[p..q])| >= 2 ==> Canonical(u[p..q]) !in stopwords && Canonical(u[p..q]) !in RejectList
  {
    var raw := u[p..q];
    assert Upper(raw) == raw by {
      forall i | 0 <= i < |raw| ensures UpperChar(raw[i]) == raw[i] {
        assert raw[i] == u[p + i];
      }
    }
    if IsBareMatch(u, p, q) {
      assert IsUpper(raw[0]);
    } else {
      assert raw[0] == '$';
    }
  }

  /** Empty text yields no tickers. */
  lemma EmptyTextYieldsNothing(stopwords: set<string>)
    ensures Extract("", stopwords) == []
  {
  }

  /** No match lies in, or touches, a run of more than five letters. */
  lemma NoMatchInLongRun(u: string, a: nat, b: nat, p: nat, q: nat)
    requires a <= b <= |u| && b - a > MaxLetters && AllLetters(u, a, b)
    ensures IsMatch(u, p, q) ==> q < a || b < p
  {
    if IsMatch(u, p, q) {
      assert IsUpper(u[a]) && IsUpper(u[b - 1]);
    }
  }

  /** No match uses a run of letters that a digit touches on either side (e.g. "NASA1", "TSLA2DAY"). */
  lemma NoMatchTouchingDigit(u: string, a: nat, b: nat, p: nat, q: nat)
    requires a < b <= |u| && AllLetters(u, a, b)
    requires (a == 0 || !IsUpper(u[a - 1])) && (b == |u| || !IsUpper(u[b]))
    requires (0 < a && IsDigit(u[a - 1])) || (b < |u| && IsDigit(u[b]))
    ensures IsMatch(u, p, q) ==> q <= a || b <= p
  {
  }

  /** A `$` right after a letter, a digit or another `$` starts no match, and neither do the letters after it. */
  lemma NoMatchAfterBlockedDollar(u: string, d: nat, q: nat)
    requires 0 < d < |u| && u[d] == '$' && BlocksStart(u[d - 1])
    ensures !IsMatch(u, d, q) && !IsMatch(u, d + 1, q)
  {
  }

  // ---------------------------------------------------------------------
  // Splitting the text at a separator

  /** A character that can neither be part of a match nor block one: not `[A-Za-z0-9$]`. */
  predicate IsSeparator(c: char) {
    !BlocksStart(UpperChar(c))
  }

  function Shift(spans: seq<Span>, k: nat): (r: seq<Span>)
    ensures |r| == |spans|
    ensures forall i :: 0 <= i < |r| ==> r[i] == Span(spans[i].start + k, spans[i].end + k)
  {
    seq(|spans|, i requires 0 <= i < |spans| => Span(spans[i].start + k, spans[i].end + k))
  }

  predicate Increasing(r: seq<Span>) {
    && (forall i :: 0 <= i < |r| ==> r[i].start < r[i].end)
    && (forall i, j :: 0 <= i < j < |r| ==> r[i].end <= r[j].start)
  }

  /** In an increasing list the head occurs once: the tail holds the other members. */
  lemma TailMember(r: seq<Span>, s: Span)
    requires Increasing(r) && r != []
    ensures s in r[1..] <==> s in r && s != r[0]
  {
    if s in r[1..] {
      var k :| 1 <= k < |r| && r[k] == s;
    }
    if s in r && s != r[0] {
      var k :| 0 <= k < |r| && r[k] == s;
      assert r[1..][k - 1] == s;
    }
  }

  /** Two increasing lists that hold each other's head start with the same span. */
  lemma SameFirstSpan(r1: seq<Span>, r2: seq<Span>)
    requires Increasing(r1) && Increasing(r2) && r1 != [] && r2 != []
    requires r1[0] in r2 && r2[0] in r1
    ensures r1[0] == r2[0]
  {
    var j :| 0 <= j < |r2| && r2[j] == r1[0];
    var i :| 0 <= i < |r1| && r1[i] == r2[0];
  }

  /** Two increasing lists of spans with the same members are the same list. */
  lemma {:induction false} IncreasingUnique(r1: seq<Span>, r2: seq<Span>)
    requires Increasing(r1) && Increasing(r2)
    requires forall s :: s in r1 <==> s in r2
    ensures r1 == r2
    decreases |r1|
  {
    if r1 != [] {
      assert r1[0] in r1;
    }
    if r2 != [] {
      assert r2[0] in r2;
    }
    if r1 != [] && r2 != [] {
      SameFirstSpan(r1, r2);
      forall s ensures s in r1[1..] <==> s in r2[1..] {
        TailMember(r1, s);
        TailMember(r2, s);
      }
      IncreasingUnique(r1[1..], r2[1..]);
    }
  }

  /** A match inside `a`, ending before the separator, is a match of `a + [c] + b` and vice versa. */
  lemma MatchLeft(a: string, c: char, b: string, p: nat, q: nat)
    requires !BlocksStart(c) && q <= |a|
    ensures IsMatch(a + [c] + b, p, q) <==> IsMatch(a, p, q)
  {
    var u := a + [c] + b;
    assert forall i :: 0 <= i < |a| ==> u[i] == a[i];
    assert q == |a| ==> EndOk(u, q) && EndOk(a, q);
  }

  lemma LettersShifted(u: string, v: string, d: nat, lo: nat, hi: nat)
    requires d <= lo <= hi <= |u| && hi - d <= |v|
    requires forall i :: lo <= i < hi ==> u[i] == v[i - d]
    ensures AllLetters(u, lo, hi) <==> AllLetters(v, lo - d, hi - d)
  {
    if AllLetters(v, lo - d, hi - d) {
      forall i | lo <= i < hi ensures IsUpper(u[i]) {
        assert u[i] == v[i - d];
      }
    }
    if AllLetters(u, lo, hi) {
      forall i | lo - d <= i < hi - d ensures IsUpper(v[i]) {
        assert u[i + d] == v[i];
      }
    }
  }

  /** A match inside `b`, after the separator, is a match of `a + [c] + b`, shifted, and vice versa. */
  lemma MatchRight(a: string, c: char, b: string, p: nat, q: nat)
    requires !BlocksStart(c) && |a| < p <= q
    ensures IsMatch(a + [c] + b, p, q) <==> IsMatch(b, p - |a| - 1, q - |a| - 1)
  {
    var u := a + [c] + b;
    var k := |a| + 1;
    assert forall i :: k <= i < |u| ==> u[i] == b[i - k];
    assert p == k ==> StartOk(u, p) && StartOk(b, p - k);
    if q <= |u| {
      LettersShifted(u, b, k, p, q);
      if p < q {
        LettersShifted(u, b, k, p + 1, q);
      }
    }
  }

  /** No match of `a + [c] + b` covers the separator. */
  lemma MatchAcross(a: string, c: char, b: string, p: nat, q: nat)
    requires !BlocksStart(c) && p <= |a| < q
    ensures !IsMatch(a + [c] + b, p, q)
  {
    var u := a + [c] + b;
    assert u[|a|] == c;
  }

  lemma ShiftMember(spans: seq<Span>, k: nat, s: Span)
    requires s.start >= k && s.end >= k
    ensures s in Shift(spans, k) <==> Span(s.start - k, s.end - k) in spans
  {
    if s in Shift(spans, k) {
      var i :| 0 <= i < |spans| && Shift(spans, k)[i] == s;
      assert spans[i] == Span(s.start - k, s.end - k);
    }
    if Span(s.start - k, s.end - k) in spans {
      var i :| 0 <= i < |spans| && spans[i] == Span(s.start - k, s.end - k);
      assert Shift(spans, k)[i] == s;
    }
  }

  lemma ScanLeftMember(a: string, c: char, b: string, s: Span)
    requires !BlocksStart(c) && s.end <= |a|
    ensures s in Scan(a + [c] + b, 0) <==> s in Scan(a, 0)
  {
    ScanExact(a + [c] + b, 0, s.start, s.end);
    ScanExact(a, 0, s.start, s.end);
    MatchLeft(a, c, b, s.start, s.end);
  }

  lemma ScanAcrossMember(a: string, c: char, b: string, s: Span)
    requires !BlocksStart(c) && s.start <= |a| < s.end
    ensures s !in Scan(a + [c] + b, 0)
  {
    ScanExact(a + [c] + b, 0, s.start, s.end);
    MatchAcross(a, c, b, s.start, s.end);
  }

  lemma ScanRightMember(a: string, c: char, b: string, s: Span)
    requires !BlocksStart(c) && |a| < s.start <= s.end
    ensures s in Scan(a + [c] + b, 0) <==> s in Shift(Scan(b, 0), |a| + 1)
  {
    var k := |a| + 1;
    var inner := Span(s.start - k, s.end - k);
    assert s in Scan(a + [c] + b, 0) <==> IsMatch(b, inner.start, inner.end) by {
      ScanExact(a + [c] + b, 0, s.start, s.end);
      MatchRight(a, c, b, s.start, s.end);
    }
    assert inner in Scan(b, 0) <==> IsMatch(b, inner.start, inner.end) by {
      ScanExact(b, 0, inner.start, inner.end);
    }
    ShiftMember(Scan(b, 0), k, s);
  }

  lemma ScanSplitMember(a: string, c: char, b: string, s: Span)
    requires !BlocksStart(c)
    ensures s in Scan(a + [c] + b, 0) <==> s in Scan(a, 0) + Shift(Scan(b, 0), |a| + 1)
  {
    var left, right := Scan(a, 0), Shift(Scan(b, 0), |a| + 1);
    assert s in right ==> |a| < s.start < s.end by {
      if s in right {
        var i :| 0 <= i < |right| && right[i] == s;
      }
    }
    assert s in left ==> s.end <= |a|;
    if s.end <= |a| {
      ScanLeftMember(a, c, b, s);
    } else if s.start <= |a| {
      ScanAcrossMember(a, c, b, s);
    } else if s.start <= s.end {
      ScanRightMember(a, c, b, s);
    } else {
      assert s !in Scan(a + [c] + b, 0);
    }
  }

  lemma ScanSplit(a: string, c: char, b: string)
    requires !BlocksStart(c)
    ensures Scan(a + [c] + b, 0) == Scan(a, 0) + Shift(Scan(b, 0), |a| + 1)
  {
    var u := a + [c] + b;
    var left, right := Scan(a, 0), Shift(Scan(b, 0), |a| + 1);
    var both := left + right;
    assert Increasing(both) by {
      forall i, j | 0 <= i < j < |both| ensures both[i].end <= both[j].start {
        if i < |left| && j >= |left| {
          assert both[i].end <= |a|;
        }
      }
    }
    forall s ensures s in Scan(u, 0) <==> s in both {
      ScanSplitMember(a, c, b, s);
    }
    IncreasingUnique(Scan(u, 0), both);
  }

  /** Filtering two lists of raw matches one after the other gives the two results one after the other. */
  lemma {:induction false} FilterAppend(r1: seq<string>, r2: seq<string>, stopwords: set<string>)
    ensures Filter(r1 + r2, stopwords) == Filter(r1, stopwords) + Filter(r2, stopwords)
    decreases |r2|
  {
    if r2 == [] {
      assert r1 + r2 == r1;
    } else {
      var n := |r2| - 1;
      var all, last := r1 + r2, r2[n];
      var kept := if IsCandidate(last, stopwords) then [Canonical(last)] else [];
      assert all[..|all| - 1] == r1 + r2[..n];
      assert all[|all| - 1] == last;
      calc {
        Filter(all, stopwords);
        Filter(r1 + r2[..n], stopwords) + kept;
        { FilterAppend(r1, r2[..n], stopwords); }
        Filter(r1, stopwords) + Filter(r2[..n], stopwords) + kept;
        Filter(r1, stopwords) + (Filter(r2[..n], stopwords) + kept);
      }
    }
  }

  lemma TokensAppend(u: string, s1: seq<Span>, s2: seq<Span>)
    requires ValidSpans(u, s1) && ValidSpans(u, s2)
    ensures ValidSpans(u, s1 + s2)
    ensures Tokens(u, s1 + s2) == Tokens(u, s1) + Tokens(u, s2)
  {
    assert ValidSpans(u, s1 + s2) by {
      forall i | 0 <= i < |s1 + s2| ensures (s1 + s2)[i].start < (s1 + s2)[i].end <= |u| {
        if i >= |s1| {
          assert (s1 + s2)[i] == s2[i - |s1|];
        }
      }
    }
  }

  /** `v` occurs in `w` at offset d. */
  predicate OccursAt(v: string, w: string, d: nat) {
    d + |v| <= |w| && forall i :: 0 <= i < |v| ==> w[d + i] == v[i]
  }

  /** A slice of `v` is the same slice of `w`, shifted by d. */
  lemma SliceEmbedded(v: string, w: string, d: nat, lo: nat, hi: nat)
    requires OccursAt(v, w, d) && lo <= hi <= |v|
    ensures w[lo + d..hi + d] == v[lo..hi]
  {
    forall i | 0 <= i < hi - lo ensures w[lo + d..hi + d][i] == v[lo..hi][i] {
      assert w[d + (lo + i)] == v[lo + i];
    }
  }

  /** The raw matches of `v`, shifted into a text where `v` occurs at offset d, read the same there. */
  lemma TokensEmbedded(v: string, w: string, d: nat, spans: seq<Span>)
    requires OccursAt(v, w, d) && ValidSpans(v, spans)
    ensures ValidSpans(w, Shift(spans, d))
    ensures Tokens(w, Shift(spans, d)) == Tokens(v, spans)
  {
    var shifted := Shift(spans, d);
    forall i | 0 <= i < |spans| ensures w[shifted[i].start..shifted[i].end] == v[spans[i].start..spans[i].end] {
      SliceEmbedded(v, w, d, spans[i].start, spans[i].end);
    }
  }

  /**
   * Splitting the text at a separator splits the result: the tickers of
   * `x + [c] + y` are those of `x` followed by those of `y`. So tickers come
   * out in text order, and a ticker written twice comes out twice.
   */
  lemma ExtractSplit(x: string, c: char, y: string, stopwords: set<string>)
    requires IsSeparator(c)
    ensures Extract(x + [c] + y, stopwords) == Extract(x, stopwords) + Extract(y, stopwords)
  {
    var a, b, d := Upper(x), Upper(y), UpperChar(c);
    var u := Upper(x + [c] + y);
    assert u == a + [d] + b;
    ScanSplit(a, d, b);
    var left, right := Scan(a, 0), Shift(Scan(b, 0), |a| + 1);
    TokensEmbedded(b, u, |a| + 1, Scan(b, 0));
    TokensEmbedded(a, u, 0, left);
    assert Shift(left, 0) == left;
    TokensAppend(u, left, right);
    FilterAppend(Tokens(a, left), Tokens(b, Scan(b, 0)), stopwords);
  }
}
