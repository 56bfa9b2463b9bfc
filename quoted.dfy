/**
 * The first match of the regular expression `(["'])(?:(?=(\\?))\2.)*?\1` that
 * `handleDuplicateFieldsDB` applies to a duplicate-key message.
 *
 * Read as JavaScript reads it: an opening quote, then lazily repeated units, each
 * either a backslash together with the character it escapes or one character that
 * is not a backslash (the look-ahead captures a backslash when there is one, so it
 * cannot be skipped), and then the same quote again. `.` without the `s` flag
 * matches no line terminator. The leftmost start wins, and at that start the lazy
 * repetition stops at the first unit boundary holding the quote.
 */
module QuotedScan {
  import opened Wrappers

  predicate IsQuote(c: char) { c == '"' || c == '\'' }

  /** The characters `.` does not match in a JavaScript regular expression without the `s` flag. */
  predicate IsLineTerminator(c: char) {
    c == '\n' || c == '\r' || c == '\U{2028}' || c == '\U{2029}'
  }

  /** `t` is in the language of `(?:(?=(\\?))\2.)*`. */
  predicate EscapedRun(t: string)
    decreases |t|
  {
    || |t| == 0
    || (t[0] == '\\' && |t| >= 2 && !IsLineTerminator(t[1]) && EscapedRun(t[2..]))
    || (t[0] != '\\' && !IsLineTerminator(t[0]) && EscapedRun(t[1..]))
  }

  /** `s[i..j+1]` is a match of the whole pattern: quote at `i`, the same quote at `j`, a run between. */
  predicate IsMatch(s: string, i: int, j: int) {
    0 <= i < j < |s| && IsQuote(s[i]) && s[j] == s[i] && EscapedRun(s[i + 1..j])
  }

  /** The lazy repetition from `p`: the first unit boundary at or after `p` that holds `q`. */
  function CloseFrom(s: string, p: nat, q: char): (r: Option<nat>)
    requires p <= |s|
    ensures r.Some? ==> p <= r.value < |s| && s[r.value] == q
    decreases |s| - p
  {
    if p == |s| then None
    else if s[p] == q then Some(p)
    else if s[p] == '\\' then
      if p + 1 < |s| && !IsLineTerminator(s[p + 1]) then CloseFrom(s, p + 2, q) else None
    else if IsLineTerminator(s[p]) then None
    else CloseFrom(s, p + 1, q)
  }

  /** Tries every start from `i` on, leftmost first; the pair is (opening index, closing index). */
  function FindFrom(s: string, i: nat): (r: Option<(nat, nat)>)
    requires i <= |s|
    ensures r.Some? ==> i <= r.value.0 < r.value.1 < |s|
    decreases |s| - i
  {
    if i == |s| then None
    else if IsQuote(s[i]) then
      match CloseFrom(s, i + 1, s[i])
      case Some(j) => Some((i, j))
      case None => FindFrom(s, i + 1)
    else FindFrom(s, i + 1)
  }

  /** `msg.match(...)` and its element 0: the matched text, or None where `match` yields null. */
  function FirstQuoted(s: string): (r: Option<string>)
    ensures r.Some? <==> exists i, j :: IsMatch(s, i, j)
  {
    FindFromCorrect(s, 0);
    match FindFrom(s, 0)
    case Some((i, j)) => Some(s[i..j + 1])
    case None => None
  }

  // ---- Facts about runs -------------------------------------------------------

  /** Runs are closed under concatenation. */
  lemma {:induction false} RunAppend(x: string, y: string)
    requires EscapedRun(x) && EscapedRun(y)
    ensures EscapedRun(x + y)
    decreases |x|
  {
    if |x| > 0 {
      assert (x + y)[0] == x[0];
      if x[0] == '\\' {
        assert |x| >= 2 && !IsLineTerminator(x[1]) && EscapedRun(x[2..]);
        assert (x + y)[1] == x[1];
        RunAppend(x[2..], y);
        assert (x + y)[2..] == x[2..] + y;
      } else {
        assert EscapedRun(x[1..]);
        RunAppend(x[1..], y);
        assert (x + y)[1..] == x[1..] + y;
      }
    } else {
      assert x + y == y;
    }
  }

  /** A run is parsed deterministically: what follows a run prefix of a run is itself a run. */
  lemma {:induction false} RunSuffix(x: string, y: string)
    requires EscapedRun(x) && EscapedRun(x + y)
    ensures EscapedRun(y)
    decreases |x|
  {
    if |x| > 0 {
      assert (x + y)[0] == x[0];
      if x[0] == '\\' {
        assert |x| >= 2 && EscapedRun(x[2..]);
        assert (x + y)[2..] == x[2..] + y;
        assert EscapedRun((x + y)[2..]);
        RunSuffix(x[2..], y);
      } else {
        assert EscapedRun(x[1..]);
        assert (x + y)[1..] == x[1..] + y;
        assert EscapedRun((x + y)[1..]);
        RunSuffix(x[1..], y);
      }
    } else {
      assert x + y == y;
    }
  }

  /** Slice form of RunSuffix: boundaries of the parse from `a` are boundaries of the parse from any earlier boundary. */
  lemma RunBetween(s: string, a: nat, p: nat, k: nat)
    requires a <= p <= k <= |s|
    requires EscapedRun(s[a..p]) && EscapedRun(s[a..k])
    ensures EscapedRun(s[p..k])
  {
    assert s[a..k] == s[a..p] + s[p..k];
    RunSuffix(s[a..p], s[p..k]);
  }

  /** No run starts with a backslash that is last or followed by a line terminator, or with a line terminator. */
  lemma RunHead(t: string)
    requires EscapedRun(t) && |t| > 0
    ensures !IsLineTerminator(t[0])
    ensures t[0] == '\\' ==> |t| >= 2 && !IsLineTerminator(t[1])
  {
  }

  // ---- The lazy scan ------------------------------------------------------------

  /** "`q` closes at boundary `k` of the parse from `a`". */
  predicate ClosesAt(s: string, a: nat, k: nat, q: char)
    requires a <= k < |s|
  {
    EscapedRun(s[a..k]) && s[k] == q
  }

  /** One more unit after a boundary is again a boundary. */
  lemma StepRun(s: string, a: nat, p: nat, w: nat)
    requires a <= p && p + w <= |s| && EscapedRun(s[a..p])
    requires w == 1 ==> s[p] != '\\' && !IsLineTerminator(s[p])
    requires w == 2 ==> s[p] == '\\' && !IsLineTerminator(s[p + 1])
    requires w == 1 || w == 2
    ensures EscapedRun(s[a..p + w])
  {
    assert EscapedRun(s[p..p + w]) by {
      assert s[p..p + w][w..] == [];
      if w == 2 { assert s[p..p + w][1] == s[p + 1]; }
    }
    assert s[a..p + w] == s[a..p] + s[p..p + w];
    RunAppend(s[a..p], s[p..p + w]);
  }

  /** Where the scan gives up, no later position is a boundary. */
  lemma DeadEnd(s: string, a: nat, p: nat)
    requires a <= p < |s| && EscapedRun(s[a..p])
    requires IsLineTerminator(s[p]) || (s[p] == '\\' && !(p + 1 < |s| && !IsLineTerminator(s[p + 1])))
    ensures forall k :: p < k <= |s| ==> !EscapedRun(s[a..k])
  {
    forall k | p < k <= |s| ensures !EscapedRun(s[a..k]) {
      assert s[p..k][0] == s[p];
      assert k >= p + 2 ==> s[p..k][1] == s[p + 1];
      if EscapedRun(s[a..k]) {
        RunBetween(s, a, p, k);
        RunHead(s[p..k]);
      }
    }
  }

  /**
   * CloseFrom, started at a boundary `p` past no closing boundary, returns the first
   * closing boundary from `a`, and returns None only when there is none at all.
   */
  lemma {:induction false} CloseFromCorrect(s: string, a: nat, p: nat, q: char)
    requires a <= p <= |s| && EscapedRun(s[a..p]) && !IsLineTerminator(q) && q != '\\'
    requires forall k :: a <= k < p ==> !ClosesAt(s, a, k, q)
    ensures CloseFrom(s, p, q).Some? ==>
      var j := CloseFrom(s, p, q).value;
      ClosesAt(s, a, j, q) && forall k :: a <= k < j ==> !ClosesAt(s, a, k, q)
    ensures CloseFrom(s, p, q).None? ==> forall k :: a <= k < |s| ==> !ClosesAt(s, a, k, q)
    decreases |s| - p
  {
    if p == |s| || s[p] == q {
    } else if s[p] == '\\' && p + 1 < |s| && !IsLineTerminator(s[p + 1]) {
      StepRun(s, a, p, 2);
      assert !EscapedRun(s[a..p + 1]) by {
        assert s[p..p + 1][0] == '\\';
        if EscapedRun(s[a..p + 1]) {
          RunBetween(s, a, p, p + 1);
        }
      }
      CloseFromCorrect(s, a, p + 2, q);
    } else if s[p] == '\\' || IsLineTerminator(s[p]) {
      DeadEnd(s, a, p);
    } else {
      StepRun(s, a, p, 1);
      CloseFromCorrect(s, a, p + 1, q);
    }
  }

  /** FindFrom returns the leftmost start from `i` that has a match, with the lazy (earliest) close. */
  lemma {:induction false} FindFromCorrect(s: string, i: nat)
    requires i <= |s|
    ensures FindFrom(s, i).Some? ==>
      var (a, b) := FindFrom(s, i).value;
      && IsMatch(s, a, b)
      && (forall a', b' :: i <= a' < a ==> !IsMatch(s, a', b'))
      && (forall b' :: b' < b ==> !IsMatch(s, a, b'))
    ensures FindFrom(s, i).None? ==> forall a', b' :: i <= a' ==> !IsMatch(s, a', b')
    decreases |s| - i
  {
    if i < |s| {
      FindFromCorrect(s, i + 1);
      if IsQuote(s[i]) {
        assert s[i + 1..i + 1] == [];
        CloseFromCorrect(s, i + 1, i + 1, s[i]);
        match CloseFrom(s, i + 1, s[i])
        case Some(j) =>
          forall b' | b' < j ensures !IsMatch(s, i, b') {
            if i + 1 <= b' { assert !ClosesAt(s, i + 1, b', s[i]); }
          }
        case None =>
          forall b' ensures !IsMatch(s, i, b') {
            if i + 1 <= b' < |s| { assert !ClosesAt(s, i + 1, b', s[i]); }
          }
      }
    }
  }

  /**
   * What `match(...)[0]` yields: the text of the leftmost match with the lazy close,
   * and null exactly when the message holds no match anywhere.
   */
  lemma FirstQuotedCorrect(s: string)
    ensures FirstQuoted(s).Some? ==>
      exists i, j :: && IsMatch(s, i, j) && FirstQuoted(s).value == s[i..j + 1]
                     && (forall i', j' :: 0 <= i' < i ==> !IsMatch(s, i', j'))
                     && (forall j' :: j' < j ==> !IsMatch(s, i, j'))
    ensures FirstQuoted(s).None? <==> forall i, j :: !IsMatch(s, i, j)
  {
    FindFromCorrect(s, 0);
    match FindFrom(s, 0)
    case Some((i, j)) =>
      assert IsMatch(s, i, j);
    case None =>
  }

  /** The matched text opens and closes with the same quote and holds at least those two characters. */
  lemma FirstQuotedIsQuoted(s: string)
    requires FirstQuoted(s).Some?
    ensures var v := FirstQuoted(s).value;
      |v| >= 2 && IsQuote(v[0]) && v[|v| - 1] == v[0] && EscapedRun(v[1..|v| - 1])
  {
    FindFromCorrect(s, 0);
    var (i, j) := FindFrom(s, 0).value;
    var v := s[i..j + 1];
    assert FirstQuoted(s) == Some(v);
    assert |v| == j + 1 - i;
    var inner, between := v[1..|v| - 1], s[i + 1..j];
    assert |inner| == |between|;
    assert forall k :: 0 <= k < |inner| ==> inner[k] == between[k];
    assert inner == between;
  }
}
