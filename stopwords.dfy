/**
 * The per-line normalisation of `load_stopwords` (bot.py:114-124): every
 * line is stripped and upper-cased, and is kept unless it is empty or a
 * `#` comment. Reading the file is not modelled: the lines are an input,
 * and a missing file is the empty sequence of lines.
 */
module Stopwords {
  import opened Text

  /** A line as `line.strip().upper()` leaves it. */
  function Normalize(line: string): string {
    Upper(Strip(line))
  }

  /** A normalised line is a stopword unless it is empty or starts with `#`. */
  predicate IsEntry(t: string) {
    t != [] && t[0] != '#'
  }

  /** t is the normalised form of some line of the file that is kept. */
  predicate ComesFrom(lines: seq<string>, t: string) {
    exists i :: 0 <= i < |lines| && IsEntry(Normalize(lines[i])) && t == Normalize(lines[i])
  }

  /** Reading one more line adds its normalised form, when kept, and nothing else. */
  lemma ComesFromSnoc(lines: seq<string>, k: nat)
    requires k < |lines|
    ensures forall x :: ComesFrom(lines[..k + 1], x) <==>
              ComesFrom(lines[..k], x) || (IsEntry(Normalize(lines[k])) && x == Normalize(lines[k]))
  {
    forall x ensures ComesFrom(lines[..k + 1], x) <==>
                     ComesFrom(lines[..k], x) || (IsEntry(Normalize(lines[k])) && x == Normalize(lines[k])) {
      ComesFromSnocAt(lines, k, x);
    }
  }

  lemma ComesFromSnocAt(lines: seq<string>, k: nat, x: string)
    requires k < |lines|
    ensures ComesFrom(lines[..k + 1], x) <==>
              ComesFrom(lines[..k], x) || (IsEntry(Normalize(lines[k])) && x == Normalize(lines[k]))
  {
    var pre, all := lines[..k], lines[..k + 1];
    assert forall i :: 0 <= i < k ==> pre[i] == all[i];
    assert all[k] == lines[k];
    if ComesFrom(all, x) {
      var i :| 0 <= i < k + 1 && IsEntry(Normalize(all[i])) && x == Normalize(all[i]);
      if i < k {
        assert IsEntry(Normalize(pre[i])) && x == Normalize(pre[i]);
      }
    }
    if ComesFrom(pre, x) {
      var i :| 0 <= i < k && IsEntry(Normalize(pre[i])) && x == Normalize(pre[i]);
      assert IsEntry(Normalize(all[i])) && x == Normalize(all[i]);
    }
  }

  /** A normalised line has no whitespace at either end and no lower-case ASCII letter. */
  lemma NormalizeShape(line: string)
    ensures var t := Normalize(line);
      (t == [] || (!IsSpace(t[0]) && !IsSpace(t[|t| - 1])))
      && forall i :: 0 <= i < |t| ==> !IsLower(t[i])
  {
    var s := Strip(line);
    var t := Upper(s);
    if t != [] {
      assert t[0] == UpperChar(s[0]) && t[|t| - 1] == UpperChar(s[|s| - 1]);
    }
  }

  /** `load_stopwords` over the lines of the stopword file: exactly the normalised lines that are kept. */
  method LoadStopwords(lines: seq<string>) returns (sw: set<string>)
    ensures forall t :: t in sw <==> ComesFrom(lines, t)
  {
    sw := {};
    for k := 0 to |lines|
      invariant forall t :: t in sw <==> ComesFrom(lines[..k], t)
    {
      var t := Upper(Strip(lines[k]));
      if t != [] && t[0] != '#' {
        sw := sw + {t};
      }
      ComesFromSnoc(lines, k);
    }
    assert lines[..|lines|] == lines;
  }

  /**
   * Every stopword is non-empty, does not start with `#`, has no whitespace
   * at either end and no lower-case ASCII letter, so it can equal an
   * upper-cased token.
   */
  lemma StopwordsNormalised(lines: seq<string>, t: string)
    requires ComesFrom(lines, t)
    ensures t != [] && t[0] != '#'
    ensures !IsSpace(t[0]) && !IsSpace(t[|t| - 1])
    ensures forall i :: 0 <= i < |t| ==> !IsLower(t[i])
  {
    var i :| 0 <= i < |lines| && IsEntry(Normalize(lines[i])) && t == Normalize(lines[i]);
    NormalizeShape(lines[i]);
  }
}
