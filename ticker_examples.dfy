/**
 * Worked examples of `extract_tickers` (bot.py:146-154) on the sentence
 * "NASA1 AAPL, $F said TSLA2day" with the stopword "SAID": the boundary
 * rule drops NASA1 and TSLA2day, the stopword drops "said", and `$F`
 * survives although a bare single letter would not.
 */
module TickerExamples {
  import opened Wrappers
  import opened Text
  import opened Tickers

  /** "said", in any case, is recognised as a token and then rejected as a stopword. */
  lemma SaidIsStopword(w: string)
    requires Upper(w) == "SAID"
    ensures Extract(w, {"SAID"}) == []
  {
    assert w != [];
    SaidScan();
  }

  /** The lower-case spelling, as it appears in a sentence. */
  lemma SaidLower()
    ensures Extract("said", {"SAID"}) == []
  {
    assert Upper("said") == "SAID";
    SaidIsStopword("said");
  }

  /** The upper-cased word is one token, which the stopword check rejects. */
  lemma SaidScan()
    ensures Filter(Tokens("SAID", Scan("SAID", 0)), {"SAID"}) == []
  {
    assert IsMatch("SAID", 0, 4);
    MatchAtIff("SAID", 0, 4);
    assert Scan("SAID", 0) == [Span(0, 4)];
    assert "SAID"[0..4] == "SAID";
    assert Upper("SAID") == "SAID";
    assert !IsCandidate("SAID", {"SAID"});
  }

  /** Letters running into a digit give no token, not even after the digit. */
  lemma TslaTouchesDigit()
    ensures Extract("TSLA2day", {"SAID"}) == []
  {
    TslaUpper();
    NoTokenInTsla2Day();
  }

  lemma TslaUpper()
    ensures Upper("TSLA2day") == "TSLA2DAY"
  {
  }

  /** Neither the run before the digit nor the one after it is a token. */
  lemma NoTokenInTsla2Day()
    ensures Scan("TSLA2DAY", 0) == []
  {
    TslaAfterDigit();
    TslaInside();
    var u := "TSLA2DAY";
    assert Greedy(u, 0, 5) == 4;
    assert MatchAt(u, 0) == None;
  }

  /** From the digit on, no position may start a token. */
  lemma TslaAfterDigit()
    ensures Scan("TSLA2DAY", 4) == []
  {
    var u := "TSLA2DAY";
    assert Scan(u, 5) == [] by {
      assert !StartOk(u, 5) && !StartOk(u, 6) && !StartOk(u, 7);
    }
    assert MatchAt(u, 4) == None;
  }

  /** Inside the leading run no position may start a token. */
  lemma TslaInside()
    ensures Scan("TSLA2DAY", 1) == Scan("TSLA2DAY", 4)
  {
    var u := "TSLA2DAY";
    assert !StartOk(u, 1) && !StartOk(u, 2) && !StartOk(u, 3);
  }

  lemma NasaTouchesDigit()
    ensures Extract("NASA1", {"SAID"}) == []
  {
    NasaUpper();
    NasaNoToken();
  }

  lemma NasaUpper()
    ensures Upper("NASA1") == "NASA1"
  {
  }

  /** The four letters run into the digit, and the digit starts nothing. */
  lemma NasaNoToken()
    ensures Scan("NASA1", 0) == []
  {
    var u := "NASA1";
    assert Greedy(u, 0, 5) == 4;
    assert MatchAt(u, 0) == None;
    assert Scan(u, 1) == [] by {
      assert !StartOk(u, 1) && !StartOk(u, 2) && !StartOk(u, 3) && !StartOk(u, 4);
    }
  }

  /**
   * `$` and one letter, in either case, is a ticker whatever the stopwords
   * are: the one-letter `$` rule comes before the stopword check.
   */
  lemma DollarLetterSkipsStopwords(c: char, stopwords: set<string>)
    requires IsUpper(UpperChar(c))
    ensures Extract(['$', c], stopwords) == [[UpperChar(c)]]
  {
    var u := ['$', UpperChar(c)];
    assert Upper(['$', c]) == u;
    assert IsMatch(u, 0, 2);
    MatchAtIff(u, 0, 2);
    assert Scan(u, 0) == [Span(0, 2)];
    assert u[0..2] == u;
    assert Upper(u) == u;
    assert IsCandidate(u, stopwords);
    assert Tokens(u, [Span(0, 2)]) == [u];
    assert Filter([u], stopwords) == [Canonical(u)];
  }

  /** The sentence's `$F`, an instance of the rule above. */
  lemma DollarF()
    ensures Extract("$F", {"SAID"}) == ["F"]
  {
    DollarLetterSkipsStopwords('F', {"SAID"});
    assert "$F" == ['$', 'F'];
  }

  lemma Aapl()
    ensures Extract("AAPL", {"SAID"}) == ["AAPL"]
  {
    AaplUpper();
    AaplScan();
    assert "AAPL"[0..4] == "AAPL";
    assert Tokens("AAPL", [Span(0, 4)]) == ["AAPL"];
    AaplCandidate();
    assert Filter(["AAPL"], {"SAID"}) == Filter([], {"SAID"}) + ["AAPL"];
  }

  /** AAPL is neither the stopword nor on the reject list. */
  lemma AaplCandidate()
    ensures IsCandidate("AAPL", {"SAID"}) && Canonical("AAPL") == "AAPL"
  {
    assert Upper("AAPL") == "AAPL";
    assert "AAPL" !in RejectList;
  }

  lemma AaplUpper()
    ensures Upper("AAPL") == "AAPL"
  {
  }

  /** The whole word is the one token. */
  lemma AaplScan()
    ensures Scan("AAPL", 0) == [Span(0, 4)]
  {
    assert IsMatch("AAPL", 0, 4);
    MatchAtIff("AAPL", 0, 4);
  }

  /** Five words joined by separators are read word by word. */
  lemma {:induction false} FiveWords(w1: string, w2: string, w3: string, w4: string, w5: string, sw: set<string>)
    ensures Extract(w1 + [' '] + (w2 + [','] + ([] + [' '] + (w3 + [' '] + (w4 + [' '] + w5)))), sw)
         == Extract(w1, sw) + (Extract(w2, sw) + ([] + (Extract(w3, sw) + (Extract(w4, sw) + Extract(w5, sw)))))
  {
    var r4 := w4 + [' '] + w5;
    var r3 := w3 + [' '] + r4;
    var r2 := [] + [' '] + r3;
    var r1 := w2 + [','] + r2;
    ExtractSplit(w4, ' ', w5, sw);
    ExtractSplit(w3, ' ', r4, sw);
    ExtractSplit([], ' ', r3, sw);
    assert Extract([], sw) == [];
    ExtractSplit(w2, ',', r2, sw);
    ExtractSplit(w1, ' ', r1, sw);
  }

  lemma SentenceText()
    ensures "NASA1" + [' '] + ("AAPL" + [','] + ([] + [' '] + ("$F" + [' '] + ("said" + [' '] + "TSLA2day"))))
         == "NASA1 AAPL, $F said TSLA2day"
  {
  }

  /** The sentence is read word by word. */
  lemma SentenceByWords()
    ensures Extract("NASA1 AAPL, $F said TSLA2day", {"SAID"})
         == Extract("NASA1", {"SAID"}) + (Extract("AAPL", {"SAID"}) + ([] + (Extract("$F", {"SAID"})
              + (Extract("said", {"SAID"}) + Extract("TSLA2day", {"SAID"})))))
  {
    FiveWords("NASA1", "AAPL", "$F", "said", "TSLA2day", {"SAID"});
    SentenceText();
  }

  /** The whole sentence yields exactly AAPL and F, in that order. */
  lemma Sentence()
    ensures Extract("NASA1 AAPL, $F said TSLA2day", {"SAID"}) == ["AAPL", "F"]
  {
    SentenceByWords();
    NasaTouchesDigit();
    Aapl();
    DollarF();
    SaidLower();
    TslaTouchesDigit();
  }
}
