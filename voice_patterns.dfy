/** The regular expressions of the voice sale parser
    (src/lib/voiceSaleParser.ts), each written out as a scanner that tries
    its alternatives in the order a backtracking matcher does: leftmost
    start first, a greedy repetition longest first, a lazy one shortest
    first. `\s`, `\b` and case-insensitive literals are as in Text. Each
    scanner is paired with a predicate saying what a match is, and a lemma
    saying the scanner returns the match the matcher would pick. */
module VoicePatterns {
  import opened Wrappers
  import opened Text

  /** s[a..b] is all white space. */
  predicate SpacesBetween(s: string, a: int, b: int)
  {
    0 <= a <= b <= |s| && forall t :: a <= t < b ==> IsSpace(s[t])
  }

  // ---------------------------------------------------------------------
  // /\b(\d+)\b/ in extractQuantity

  function DigitRunEnd(s: string, p: nat): (q: nat)
    requires p <= |s|
    ensures p <= q <= |s|
    ensures forall t :: p <= t < q ==> IsDigit(s[t])
    ensures q == |s| || !IsDigit(s[q])
    decreases |s| - p
  {
    if p < |s| && IsDigit(s[p]) then DigitRunEnd(s, p + 1) else p
  }

  /** `\b\d+\b` matches s[i..j]. */
  ghost predicate NumberAt(s: string, i: int, j: int)
  {
    0 <= i < j <= |s| && Boundary(s, i) && Boundary(s, j)
    && forall t :: i <= t < j ==> IsDigit(s[t])
  }

  /** A number match ends where its digit run does: the greedy `\d+` has
      nothing to give back. */
  lemma NumberEndsRun(s: string, i: nat, j: int)
    requires NumberAt(s, i, j)
    ensures j == DigitRunEnd(s, i)
  {
  }

  /** The first match of `\b(\d+)\b` starting at or after i. */
  function FindNumber(s: string, i: nat): (r: Option<(nat, nat)>)
    requires i <= |s|
    ensures r.Some? ==> i <= r.value.0 < r.value.1 <= |s| && NumberAt(s, r.value.0, r.value.1)
    decreases |s| - i
  {
    if i == |s| then None
    else if IsDigit(s[i]) && Boundary(s, i) && Boundary(s, DigitRunEnd(s, i)) then Some((i, DigitRunEnd(s, i)))
    else FindNumber(s, i + 1)
  }

  /** FindNumber returns the leftmost match, and there is none when it
      returns None. */
  lemma {:induction false} FindNumberSpec(s: string, i: nat)
    requires i <= |s|
    ensures var r := FindNumber(s, i);
            && (r.Some? ==> NumberAt(s, r.value.0, r.value.1)
                            && forall i2, j2 :: i <= i2 < r.value.0 ==> !NumberAt(s, i2, j2))
            && (r.None? ==> forall i2, j2 :: i <= i2 ==> !NumberAt(s, i2, j2))
    decreases |s| - i
  {
    if i < |s| {
      var q := DigitRunEnd(s, i);
      if !(IsDigit(s[i]) && Boundary(s, i) && Boundary(s, q)) {
        FindNumberSpec(s, i + 1);
        forall j2 | NumberAt(s, i, j2) ensures false {
          NumberEndsRun(s, i, j2);
        }
      }
    }
  }

  // ---------------------------------------------------------------------
  // /\bKW\s+([a-záàâãéèêíïóôõöúçñ\s]+?)(?:\s+no\s|\s+em\s|\s+pelo\s|\s+via\s|$)/i
  // in extractCustomerName

  /** The name class: ASCII letters, the accented letters in either case
      (the `i` flag) and white space. */
  predicate IsNameChar(c: char)
  {
    ('a' <= c <= 'z') || ('A' <= c <= 'Z') || IsAccentedSmall(c) || IsAccentedCapital(c) || IsSpace(c)
  }

  /** s[a..b] is all name characters. */
  predicate NameRun(s: string, a: int, b: int)
  {
    0 <= a <= b <= |s| && forall t :: a <= t < b ==> IsNameChar(s[t])
  }

  /** End of the run of name characters in s that starts at p. */
  function NameRunEnd(s: string, p: nat): (q: nat)
    requires p <= |s|
    ensures p <= q <= |s|
    ensures forall t :: p <= t < q ==> IsNameChar(s[t])
    ensures q == |s| || !IsNameChar(s[q])
    decreases |s| - p
  {
    if p < |s| && IsNameChar(s[p]) then NameRunEnd(s, p + 1) else p
  }

  /** The ends of the runs say which stretches are runs. */
  lemma RunEnds(s: string, p: nat, q: nat)
    requires p <= q <= |s|
    ensures SpacesBetween(s, p, q) <==> q <= SpaceRunEnd(s, p)
    ensures NameRun(s, p, q) <==> q <= NameRunEnd(s, p)
  {
    var a, b := SpaceRunEnd(s, p), NameRunEnd(s, p);
    assert a < q ==> !IsSpace(s[a]);
    assert b < q ==> !IsNameChar(s[b]);
  }

  /** The words that close a name; also the optional words in front of a
      payment keyword. */
  const Stops: seq<string> := ["no", "em", "pelo", "via"]

  /** A name may end at g: at the end of the text, or before white space, a
      stop word in any case and one more white-space character. */
  ghost predicate NameMayEnd(s: string, g: int)
  {
    g == |s|
    || exists u, k :: 0 <= g < u && 0 <= k < |Stops| && SpacesBetween(s, g, u) && StopAt(s, u, k)
  }

  /** Stop word k, then a white-space character, at u. */
  predicate StopAt(s: string, u: int, k: int)
    requires 0 <= k < |Stops|
  {
    LiteralAt(s, u, Stops[k]) && u + |Stops[k]| < |s| && IsSpace(s[u + |Stops[k]|])
  }

  /** Some stop word, then white space, at u. */
  predicate StopsAt(s: string, u: int)
  {
    StopAt(s, u, 0) || StopAt(s, u, 1) || StopAt(s, u, 2) || StopAt(s, u, 3)
  }

  /** From u on: white space, then a stop word and one more white-space
      character. */
  predicate StopAhead(s: string, u: nat)
    decreases |s| - u
  {
    u < |s| && (StopsAt(s, u) || (IsSpace(s[u]) && StopAhead(s, u + 1)))
  }

  lemma {:induction false} StopAheadSpec(s: string, u: nat)
    requires u <= |s|
    ensures StopAhead(s, u)
            <==> exists v, k :: u <= v && 0 <= k < |Stops| && SpacesBetween(s, u, v) && StopAt(s, v, k)
    decreases |s| - u
  {
    if u < |s| {
      StopAheadSpec(s, u + 1);
      if StopAhead(s, u) && !StopsAt(s, u) {
        var v, k :| u + 1 <= v && 0 <= k < |Stops| && SpacesBetween(s, u + 1, v) && StopAt(s, v, k);
        assert SpacesBetween(s, u, v);
      }
      if StopAhead(s, u) && StopsAt(s, u) {
        var k :| 0 <= k < |Stops| && StopAt(s, u, k);
        assert SpacesBetween(s, u, u);
      }
      if !StopAhead(s, u) {
        forall v, k | u <= v && 0 <= k < |Stops| && SpacesBetween(s, u, v)
          ensures !StopAt(s, v, k)
        {
          if v > u {
            assert SpacesBetween(s, u + 1, v);
          }
        }
      }
    }
  }

  /** NameMayEnd computed by a scan: white space at g, then StopAhead. */
  predicate EndsName(s: string, g: int)
  {
    0 <= g <= |s| && (g == |s| || (IsSpace(s[g]) && StopAhead(s, g + 1)))
  }

  lemma EndsNameSpec(s: string, g: nat)
    requires g <= |s|
    ensures EndsName(s, g) == NameMayEnd(s, g)
  {
    if g < |s| {
      StopAheadSpec(s, g + 1);
      if EndsName(s, g) {
        var v, k :| g + 1 <= v && 0 <= k < |Stops| && SpacesBetween(s, g + 1, v) && StopAt(s, v, k);
        assert SpacesBetween(s, g, v);
      }
      if NameMayEnd(s, g) {
        var u, k :| 0 <= g < u && 0 <= k < |Stops| && SpacesBetween(s, g, u) && StopAt(s, u, k);
        assert SpacesBetween(s, g + 1, u);
      }
    }
  }

  /** The end condition of the customer-name patterns, as the function the
      matcher below is given. */
  function NameEnds(s: string): nat -> bool
  {
    g => EndsName(s, g)
  }

  // The matcher for `KW\s+([name characters]+?)END` is written for any
  // end condition `ends`; the customer-name patterns use NameEnds.

  /** The lazy group: the least end in [g, last] that `ends` accepts. */
  function LazyEnd(ends: nat -> bool, g: nat, last: nat): (r: Option<nat>)
    requires g <= last
    ensures r.Some? ==> g <= r.value <= last && ends(r.value)
                        && forall h: nat :: g <= h < r.value ==> !ends(h)
    ensures r.None? ==> forall h: nat :: g <= h <= last ==> !ends(h)
    decreases last - g
  {
    if ends(g) then Some(g)
    else if g < last then LazyEnd(ends, g + 1, last)
    else None
  }

  /** The spaces s[p..e] and the group s[e..g] of a match whose keyword
      ends at p: one or more white-space characters, one or more name
      characters (RunEnds), and a place g that `ends` accepts. */
  ghost predicate GroupMatch(s: string, ends: nat -> bool, p: int, e: int, g: int)
  {
    0 <= p < e <= |s| && e <= SpaceRunEnd(s, p) && e < g <= NameRunEnd(s, e) && ends(g)
  }

  /** The greedy `\s+` then the lazy group: the space run ending at e
      first, then shorter ones, down to one character after p. */
  function GreedyThenLazy(s: string, ends: nat -> bool, p: nat, e: nat): (r: Option<(nat, nat)>)
    requires p < e <= |s|
    ensures r.Some? ==> p < r.value.0 <= e && r.value.0 < r.value.1 <= |s|
    decreases e
  {
    var last := NameRunEnd(s, e);
    var g := if e < last then LazyEnd(ends, e + 1, last) else None;
    if g.Some? then Some((e, g.value))
    else if e - 1 > p then GreedyThenLazy(s, ends, p, e - 1)
    else None
  }

  /** What a backtracking matcher picks for `\s+(group)` after p, trying
      the space runs that end at e or before: a match with the longest run
      of spaces, and for it the shortest group; or no match at all. */
  ghost predicate GreedyPicks(s: string, ends: nat -> bool, p: nat, e: nat, r: Option<(nat, nat)>)
  {
    && (r.Some? ==> GroupMatch(s, ends, p, r.value.0, r.value.1)
                    && (forall e2, g2 :: r.value.0 < e2 <= e ==> !GroupMatch(s, ends, p, e2, g2))
                    && (forall g2 :: g2 < r.value.1 ==> !GroupMatch(s, ends, p, r.value.0, g2)))
    && (r.None? ==> forall e2, g2 :: e2 <= e ==> !GroupMatch(s, ends, p, e2, g2))
  }

  /** Whether the lazy group succeeds after the spaces s[p..e]. */
  predicate GroupAt(s: string, ends: nat -> bool, e: nat)
    requires e <= |s|
  {
    e < NameRunEnd(s, e) && LazyEnd(ends, e + 1, NameRunEnd(s, e)).Some?
  }

  /** GreedyThenLazy is the backtracking matcher's choice. */
  lemma GreedyThenLazySpec(s: string, ends: nat -> bool, p: nat, e: nat)
    requires p <= |s| && p < e <= SpaceRunEnd(s, p)
    ensures GreedyPicks(s, ends, p, e, GreedyThenLazy(s, ends, p, e))
  {
    GreedySound(s, ends, p, e);
    GreedyMaximal(s, ends, p, e);
    GreedyComplete(s, ends, p, e);
  }

  /** What GreedyThenLazy returns is a match, with the shortest group. */
  ghost predicate SoundPick(s: string, ends: nat -> bool, p: nat, r: Option<(nat, nat)>)
  {
    r.Some? ==> GroupMatch(s, ends, p, r.value.0, r.value.1)
                && forall g2 :: g2 < r.value.1 ==> !GroupMatch(s, ends, p, r.value.0, g2)
  }

  lemma {:induction false} GreedySound(s: string, ends: nat -> bool, p: nat, e: nat)
    requires p <= |s| && p < e <= SpaceRunEnd(s, p)
    ensures SoundPick(s, ends, p, GreedyThenLazy(s, ends, p, e))
    decreases e
  {
    if e - 1 > p {
      GreedySound(s, ends, p, e - 1);
    }
    SoundStep(s, ends, p, e);
  }

  lemma SoundStep(s: string, ends: nat -> bool, p: nat, e: nat)
    requires p <= |s| && p < e <= SpaceRunEnd(s, p)
    requires e - 1 > p ==> SoundPick(s, ends, p, GreedyThenLazy(s, ends, p, e - 1))
    ensures SoundPick(s, ends, p, GreedyThenLazy(s, ends, p, e))
  {
    if GroupAt(s, ends, e) {
      FirstGroupAt(s, ends, p, e);
    } else if e - 1 > p {
      GreedyStep(s, ends, p, e);
    }
  }

  /** No match has a longer run of spaces than the one GreedyThenLazy
      returns. */
  ghost predicate MaximalPick(s: string, ends: nat -> bool, p: nat, e: nat, r: Option<(nat, nat)>)
  {
    r.Some? ==> forall e2, g2 :: r.value.0 < e2 <= e ==> !GroupMatch(s, ends, p, e2, g2)
  }

  lemma {:induction false} GreedyMaximal(s: string, ends: nat -> bool, p: nat, e: nat)
    requires p <= |s| && p < e <= SpaceRunEnd(s, p)
    ensures MaximalPick(s, ends, p, e, GreedyThenLazy(s, ends, p, e))
    decreases e
  {
    if e - 1 > p {
      GreedyMaximal(s, ends, p, e - 1);
    }
    MaximalStep(s, ends, p, e);
  }

  lemma MaximalStep(s: string, ends: nat -> bool, p: nat, e: nat)
    requires p <= |s| && p < e <= SpaceRunEnd(s, p)
    requires e - 1 > p ==> MaximalPick(s, ends, p, e - 1, GreedyThenLazy(s, ends, p, e - 1))
    ensures MaximalPick(s, ends, p, e, GreedyThenLazy(s, ends, p, e))
  {
    if GroupAt(s, ends, e) {
      FirstGroupAt(s, ends, p, e);
    } else if e - 1 > p {
      GreedyStep(s, ends, p, e);
      NoGroupAt(s, ends, p, e);
    }
  }

  /** GreedyThenLazy misses no match. */
  ghost predicate CompletePick(s: string, ends: nat -> bool, p: nat, e: nat, r: Option<(nat, nat)>)
  {
    r.None? ==> forall e2, g2 :: e2 <= e ==> !GroupMatch(s, ends, p, e2, g2)
  }

  lemma {:induction false} GreedyComplete(s: string, ends: nat -> bool, p: nat, e: nat)
    requires p <= |s| && p < e <= SpaceRunEnd(s, p)
    ensures CompletePick(s, ends, p, e, GreedyThenLazy(s, ends, p, e))
    decreases e
  {
    if e - 1 > p {
      GreedyComplete(s, ends, p, e - 1);
    }
    CompleteStep(s, ends, p, e);
  }

  lemma CompleteStep(s: string, ends: nat -> bool, p: nat, e: nat)
    requires p <= |s| && p < e <= SpaceRunEnd(s, p)
    requires e - 1 > p ==> CompletePick(s, ends, p, e - 1, GreedyThenLazy(s, ends, p, e - 1))
    ensures CompletePick(s, ends, p, e, GreedyThenLazy(s, ends, p, e))
  {
    if GroupAt(s, ends, e) {
      FirstGroupAt(s, ends, p, e);
    } else {
      NoGroupAt(s, ends, p, e);
      if e - 1 > p {
        GreedyStep(s, ends, p, e);
      }
    }
  }

  /** The group GreedyThenLazy takes after s[p..e] is the shortest one. */
  lemma FirstGroupAt(s: string, ends: nat -> bool, p: nat, e: nat)
    requires p <= |s| && p < e <= SpaceRunEnd(s, p) && GroupAt(s, ends, e)
    ensures GreedyThenLazy(s, ends, p, e) == Some((e, LazyEnd(ends, e + 1, NameRunEnd(s, e)).value))
    ensures GroupMatch(s, ends, p, e, LazyEnd(ends, e + 1, NameRunEnd(s, e)).value)
    ensures forall g :: g < LazyEnd(ends, e + 1, NameRunEnd(s, e)).value ==> !GroupMatch(s, ends, p, e, g)
  {
  }

  /** No group follows s[p..e] when the lazy search from e fails. */
  lemma NoGroupAt(s: string, ends: nat -> bool, p: nat, e: nat)
    requires p <= |s| && p < e <= SpaceRunEnd(s, p) && !GroupAt(s, ends, e)
    ensures forall g :: !GroupMatch(s, ends, p, e, g)
  {
  }

  /** Without a group after s[p..e], the search goes on with one space
      fewer. */
  lemma GreedyStep(s: string, ends: nat -> bool, p: nat, e: nat)
    requires p + 1 < e <= |s| && !GroupAt(s, ends, e)
    ensures GreedyThenLazy(s, ends, p, e) == GreedyThenLazy(s, ends, p, e - 1)
  {
  }

  /** A match of the pattern with keyword kw: the keyword at k after a
      word boundary, then the spaces and the group. */
  ghost predicate NameMatch(s: string, kw: string, ends: nat -> bool, k: int, e: int, g: int)
  {
    0 <= k && Boundary(s, k) && LiteralAt(s, k, kw) && GroupMatch(s, ends, k + |kw|, e, g)
  }

  /** Whether the keyword kw opens a match at k, before the spaces are
      read. */
  predicate Opens(s: string, kw: string, k: nat)
  {
    Boundary(s, k) && LiteralAt(s, k, kw) && k + |kw| < SpaceRunEnd(s, k + |kw|)
  }

  /** The first match of the pattern with keyword kw starting at or after
      k: keyword start, group start, group end. */
  function FindName(s: string, kw: string, ends: nat -> bool, k: nat): (r: Option<(nat, nat, nat)>)
    requires k <= |s|
    ensures r.Some? ==> k <= r.value.0 && r.value.1 < r.value.2 <= |s|
                        && NameMatch(s, kw, ends, r.value.0, r.value.1, r.value.2)
    decreases |s| - k
  {
    if k == |s| then None
    else
      var p := k + |kw|;
      var m := if Opens(s, kw, k) then GreedyThenLazy(s, ends, p, SpaceRunEnd(s, p)) else None;
      if m.Some? then
        FoundIsMatch(s, kw, ends, k);
        Some((k, m.value.0, m.value.1))
      else FindName(s, kw, ends, k + 1)
  }

  /** FindName returns the match a backtracking matcher picks: the leftmost
      start, then the longest run of spaces, then the shortest group. */
  lemma FindNameSpec(s: string, kw: string, ends: nat -> bool, k: nat)
    requires k <= |s|
    ensures var r := FindName(s, kw, ends, k);
            && (r.Some? ==> NameMatch(s, kw, ends, r.value.0, r.value.1, r.value.2)
                            && (forall k2, e2, g2 :: k <= k2 < r.value.0 ==> !NameMatch(s, kw, ends, k2, e2, g2))
                            && (forall e2, g2 :: r.value.1 < e2 ==> !NameMatch(s, kw, ends, r.value.0, e2, g2))
                            && (forall g2 :: g2 < r.value.2 ==> !NameMatch(s, kw, ends, r.value.0, r.value.1, g2)))
            && (r.None? ==> forall k2, e2, g2 :: k <= k2 ==> !NameMatch(s, kw, ends, k2, e2, g2))
  {
    FindSound(s, kw, ends, k);
    FindLeftmost(s, kw, ends, k);
    FindComplete(s, kw, ends, k);
  }

  /** Whether the match FindName looks for starts at k. */
  predicate NameAt(s: string, kw: string, ends: nat -> bool, k: nat)
    requires k <= |s|
  {
    k < |s| && Opens(s, kw, k) && GreedyThenLazy(s, ends, k + |kw|, SpaceRunEnd(s, k + |kw|)).Some?
  }

  /** With a match at k, FindName returns it. */
  lemma FoundAt(s: string, kw: string, ends: nat -> bool, k: nat)
    requires k <= |s| && NameAt(s, kw, ends, k)
    ensures var m := GreedyThenLazy(s, ends, k + |kw|, SpaceRunEnd(s, k + |kw|)).value;
            FindName(s, kw, ends, k) == Some((k, m.0, m.1))
  {
  }

  /** The match found at k is a match of the pattern. */
  lemma FoundIsMatch(s: string, kw: string, ends: nat -> bool, k: nat)
    requires k <= |s| && NameAt(s, kw, ends, k)
    ensures var m := GreedyThenLazy(s, ends, k + |kw|, SpaceRunEnd(s, k + |kw|)).value;
            NameMatch(s, kw, ends, k, m.0, m.1)
  {
    var p := k + |kw|;
    GreedySound(s, ends, p, SpaceRunEnd(s, p));
    var m := GreedyThenLazy(s, ends, p, SpaceRunEnd(s, p)).value;
    assert GroupMatch(s, ends, p, m.0, m.1);
    assert Boundary(s, k) && LiteralAt(s, k, kw);
  }

  /** The match found at k has the longest run of spaces and, for it, the
      shortest group. */
  lemma FoundIsBest(s: string, kw: string, ends: nat -> bool, k: nat)
    requires k <= |s| && NameAt(s, kw, ends, k)
    ensures var m := GreedyThenLazy(s, ends, k + |kw|, SpaceRunEnd(s, k + |kw|)).value;
            && (forall e2, g2 :: m.0 < e2 ==> !NameMatch(s, kw, ends, k, e2, g2))
            && (forall g2 :: g2 < m.1 ==> !NameMatch(s, kw, ends, k, m.0, g2))
  {
    var p := k + |kw|;
    GreedySound(s, ends, p, SpaceRunEnd(s, p));
    GreedyMaximal(s, ends, p, SpaceRunEnd(s, p));
    var m := GreedyThenLazy(s, ends, p, SpaceRunEnd(s, p)).value;
    forall e2, g2 | m.0 < e2
      ensures !NameMatch(s, kw, ends, k, e2, g2)
    {
      assert !GroupMatch(s, ends, p, e2, g2);
    }
    forall g2 | g2 < m.1
      ensures !NameMatch(s, kw, ends, k, m.0, g2)
    {
      assert !GroupMatch(s, ends, p, m.0, g2);
    }
  }

  /** Without a match at k, FindName goes on at k + 1. */
  lemma NoNameAt(s: string, kw: string, ends: nat -> bool, k: nat)
    requires k < |s| && !NameAt(s, kw, ends, k)
    ensures FindName(s, kw, ends, k) == FindName(s, kw, ends, k + 1)
    ensures forall e2, g2 :: !NameMatch(s, kw, ends, k, e2, g2)
  {
    var p := k + |kw|;
    if Opens(s, kw, k) {
      GreedyComplete(s, ends, p, SpaceRunEnd(s, p));
    }
    forall e2, g2 ensures !NameMatch(s, kw, ends, k, e2, g2) {
      if Opens(s, kw, k) {
        assert !GroupMatch(s, ends, p, e2, g2);
      }
    }
  }

  /** What FindName returns is a match, with the longest run of spaces and
      the shortest group for its start. */
  ghost predicate FoundPick(s: string, kw: string, ends: nat -> bool, r: Option<(nat, nat, nat)>)
  {
    r.Some? ==> NameMatch(s, kw, ends, r.value.0, r.value.1, r.value.2)
                && (forall e2, g2 :: r.value.1 < e2 ==> !NameMatch(s, kw, ends, r.value.0, e2, g2))
                && (forall g2 :: g2 < r.value.2 ==> !NameMatch(s, kw, ends, r.value.0, r.value.1, g2))
  }

  lemma {:induction false} FindSound(s: string, kw: string, ends: nat -> bool, k: nat)
    requires k <= |s|
    ensures FoundPick(s, kw, ends, FindName(s, kw, ends, k))
    decreases |s| - k
  {
    if k < |s| {
      FindSound(s, kw, ends, k + 1);
    }
    FoundStep(s, kw, ends, k);
  }

  lemma FoundStep(s: string, kw: string, ends: nat -> bool, k: nat)
    requires k <= |s|
    requires k < |s| ==> FoundPick(s, kw, ends, FindName(s, kw, ends, k + 1))
    ensures FoundPick(s, kw, ends, FindName(s, kw, ends, k))
  {
    if NameAt(s, kw, ends, k) {
      FoundAt(s, kw, ends, k);
      FoundIsMatch(s, kw, ends, k);
      FoundIsBest(s, kw, ends, k);
    } else if k < |s| {
      NoNameAt(s, kw, ends, k);
    }
  }

  /** No match starts before the one FindName returns. */
  ghost predicate LeftmostPick(s: string, kw: string, ends: nat -> bool, k: nat, r: Option<(nat, nat, nat)>)
  {
    r.Some? ==> forall k2, e2, g2 :: k <= k2 < r.value.0 ==> !NameMatch(s, kw, ends, k2, e2, g2)
  }

  lemma {:induction false} FindLeftmost(s: string, kw: string, ends: nat -> bool, k: nat)
    requires k <= |s|
    ensures var r := FindName(s, kw, ends, k);
            r.Some? ==> forall k2, e2, g2 :: k <= k2 < r.value.0 ==> !NameMatch(s, kw, ends, k2, e2, g2)
    decreases |s| - k
  {
    if k < |s| {
      FindLeftmost(s, kw, ends, k + 1);
    }
    LeftmostStep(s, kw, ends, k);
  }

  lemma LeftmostStep(s: string, kw: string, ends: nat -> bool, k: nat)
    requires k <= |s|
    requires k < |s| ==> LeftmostPick(s, kw, ends, k + 1, FindName(s, kw, ends, k + 1))
    ensures LeftmostPick(s, kw, ends, k, FindName(s, kw, ends, k))
  {
    if NameAt(s, kw, ends, k) {
      FoundAt(s, kw, ends, k);
    } else if k < |s| {
      NoNameAt(s, kw, ends, k);
    }
  }

  /** FindName misses no match. */
  ghost predicate NonePick(s: string, kw: string, ends: nat -> bool, k: nat, r: Option<(nat, nat, nat)>)
  {
    r.None? ==> forall k2, e2, g2 :: k <= k2 ==> !NameMatch(s, kw, ends, k2, e2, g2)
  }

  lemma {:induction false} FindComplete(s: string, kw: string, ends: nat -> bool, k: nat)
    requires k <= |s|
    ensures FindName(s, kw, ends, k).None? ==> forall k2, e2, g2 :: k <= k2 ==> !NameMatch(s, kw, ends, k2, e2, g2)
    decreases |s| - k
  {
    if k < |s| {
      FindComplete(s, kw, ends, k + 1);
    }
    CompleteFindStep(s, kw, ends, k);
  }

  lemma CompleteFindStep(s: string, kw: string, ends: nat -> bool, k: nat)
    requires k <= |s|
    requires k < |s| ==> NonePick(s, kw, ends, k + 1, FindName(s, kw, ends, k + 1))
    ensures NonePick(s, kw, ends, k, FindName(s, kw, ends, k))
  {
    if NameAt(s, kw, ends, k) {
      FoundAt(s, kw, ends, k);
    } else if k < |s| {
      NoNameAt(s, kw, ends, k);
    }
  }

  // ---------------------------------------------------------------------
  // The patterns extractProductName removes with `replace(..., 'g'/'gi')`

  /** What is removed: `\bW\b`; `\b(uma?|um)\b`;
      `\b(para|pro|do|da)\s+NAME\b`; `\b(no|em|pelo|via)?\s*KW\b`. All are
      case-insensitive on a lower-cased text. */
  datatype Pattern = Whole(word: string) | Article | Named(name: string) | Paid(keyword: string)

  /** The keywords in front of a customer's name. */
  const NameLeads: seq<string> := ["para", "pro", "do", "da"]

  function WordEnd(s: string, k: nat, w: string): Option<nat>
  {
    if Boundary(s, k) && LiteralAt(s, k, w) && Boundary(s, k + |w|) then Some(k + |w|) else None
  }

  /** `uma?` tries the longer form first, then `um`. */
  function ArticleEnd(s: string, k: nat): Option<nat>
  {
    if !Boundary(s, k) then None
    else if LiteralAt(s, k, "uma") && Boundary(s, k + 3) then Some(k + 3)
    else if LiteralAt(s, k, "um") && Boundary(s, k + 2) then Some(k + 2)
    else None
  }

  /** A greedy white-space run that starts at lo and may reach u, then lit
      and `\b`: the run ending at u first, then shorter ones. */
  function SpacedLiteral(s: string, lo: nat, u: nat, lit: string): (r: Option<nat>)
    requires lo <= u
    ensures r.Some? ==> lo + |lit| <= r.value <= |s|
    ensures r.Some? ==> r.value - |lit| <= u && LiteralAt(s, r.value - |lit|, lit)
    decreases u
  {
    if LiteralAt(s, u, lit) && Boundary(s, u + |lit|) then Some(u + |lit|)
    else if u > lo then SpacedLiteral(s, lo, u - 1, lit)
    else None
  }

  /** `\s+LIT\b` from p. */
  function SpacesPlus(s: string, p: nat, lit: string): (r: Option<nat>)
    requires p <= |s|
    ensures r.Some? ==> p + 1 + |lit| <= r.value <= |s|
    ensures r.Some? ==> r.value - |lit| <= SpaceRunEnd(s, p)
  {
    var u := SpaceRunEnd(s, p);
    if p < u then SpacedLiteral(s, p + 1, u, lit) else None
  }

  /** `\s*LIT\b` from p. */
  function SpacesStar(s: string, p: nat, lit: string): (r: Option<nat>)
    requires p <= |s|
    ensures r.Some? ==> p + |lit| <= r.value <= |s|
    ensures r.Some? ==> r.value - |lit| <= SpaceRunEnd(s, p) && LiteralAt(s, r.value - |lit|, lit)
  {
    SpacedLiteral(s, p, SpaceRunEnd(s, p), lit)
  }

  /** `(para|pro|do|da)\s+NAME\b` at k, alternatives from the i-th on. */
  function NamedFrom(s: string, k: nat, name: string, i: nat): (r: Option<nat>)
    requires i <= |NameLeads|
    ensures r.Some? ==> k + |name| < r.value <= |s|
    decreases |NameLeads| - i
  {
    if i == |NameLeads| then None
    else
      var m := if LiteralAt(s, k, NameLeads[i]) then SpacesPlus(s, k + |NameLeads[i]|, name) else None;
      if m.Some? then m else NamedFrom(s, k, name, i + 1)
  }

  /** `(no|em|pelo|via)\s*KW\b` at k, alternatives from the i-th on. */
  function PaidFrom(s: string, k: nat, kw: string, i: nat): (r: Option<nat>)
    requires i <= |Stops|
    ensures r.Some? ==> k < r.value <= |s| && |kw| <= r.value && LiteralAt(s, r.value - |kw|, kw)
    decreases |Stops| - i
  {
    if i == |Stops| then None
    else
      var m := if LiteralAt(s, k, Stops[i]) then SpacesStar(s, k + |Stops[i]|, kw) else None;
      if m.Some? then m else PaidFrom(s, k, kw, i + 1)
  }

  /** Where a match of the pattern starting at k ends, if one does. */
  function PatternEnd(s: string, pat: Pattern, k: nat): Option<nat>
    requires k <= |s|
  {
    if !Boundary(s, k) then None
    else match pat
      case Whole(w) => WordEnd(s, k, w)
      case Article => ArticleEnd(s, k)
      case Named(name) => NamedFrom(s, k, name, 0)
      case Paid(kw) =>
        // the optional group is tried with a word first, then without
        var m := PaidFrom(s, k, kw, 0);
        if m.Some? then m else SpacesStar(s, k, kw)
  }

  /** A match that is not empty: an empty match removes nothing, and the
      global replacement then moves on by one character, just as for no
      match. */
  function MatchEnd(s: string, pat: Pattern, k: nat): (r: Option<nat>)
    requires k <= |s|
    ensures r.Some? ==> k < r.value <= |s|
  {
    var m := PatternEnd(s, pat, k);
    if m.Some? && k < m.value <= |s| then m else None
  }

  /** The pattern matches nowhere in s[i..]. */
  predicate NoMatchFrom(s: string, pat: Pattern, i: nat)
  {
    forall k :: i <= k < |s| ==> MatchEnd(s, pat, k).None?
  }

  /** `replace(pattern, '')` with a global pattern, on s[i..]: every match,
      found left to right on the original text from the end of the previous
      one, is dropped. Where the pattern matches nowhere, the text is left
      as it is. */
  function RemoveFrom(s: string, pat: Pattern, i: nat): (r: string)
    requires i <= |s|
    ensures |r| <= |s| - i
    ensures NoMatchFrom(s, pat, i) ==> r == s[i..]
    decreases |s| - i
  {
    if i == |s| then ""
    else match MatchEnd(s, pat, i)
      case Some(j) => RemoveFrom(s, pat, j)
      case None =>
        assert s[i..] == [s[i]] + s[i + 1..];
        [s[i]] + RemoveFrom(s, pat, i + 1)
  }

  /** Where no match starts before j, RemoveFrom keeps s[i..j] and goes on
      from j. */
  lemma {:induction false} RemoveFromSkip(s: string, pat: Pattern, i: nat, j: nat)
    requires i <= j <= |s|
    requires forall k :: i <= k < j ==> MatchEnd(s, pat, k).None?
    ensures RemoveFrom(s, pat, i) == s[i..j] + RemoveFrom(s, pat, j)
    decreases j - i
  {
    if i < j {
      RemoveFromSkip(s, pat, i + 1, j);
      var rest := RemoveFrom(s, pat, j);
      assert MatchEnd(s, pat, i).None?;
      assert RemoveFrom(s, pat, i) == [s[i]] + (s[i + 1..j] + rest);
      assert s[i..j] == [s[i]] + s[i + 1..j];
      assert [s[i]] + (s[i + 1..j] + rest) == ([s[i]] + s[i + 1..j]) + rest;
    }
  }

  function RemoveAll(s: string, pat: Pattern): string
  {
    RemoveFrom(s, pat, 0)
  }

  /** The article pattern only matches where a "u" starts. */
  lemma ArticleNeedsU(s: string, k: nat)
    requires k < |s| && s[k] != 'u' && s[k] != 'U'
    ensures MatchEnd(s, Article, k).None?
  {
    assert "uma"[0] == 'u' && "um"[0] == 'u';
    assert !LiteralAt(s, k, "uma") && !LiteralAt(s, k, "um");
  }

  /** The customer pattern only matches where one of its leading words
      starts, and every one of them starts with a "p" or a "d". */
  lemma {:induction false} NamedNeedsLead(s: string, k: nat, name: string, i: nat)
    requires k < |s| && s[k] !in "pPdD" && i <= |NameLeads|
    ensures NamedFrom(s, k, name, i).None?
    decreases |NameLeads| - i
  {
    if i < |NameLeads| {
      assert LowerChar(s[k]) != LowerChar(NameLeads[i][0]);
      NamedNeedsLead(s, k, name, i + 1);
    }
  }

  /** The optional word of the payment pattern only matches where "no",
      "em", "pelo" or "via" starts. */
  lemma {:induction false} PaidNeedsStop(s: string, k: nat, kw: string, i: nat)
    requires k < |s| && s[k] !in "nNeEpPvV" && i <= |Stops|
    ensures PaidFrom(s, k, kw, i).None?
    decreases |Stops| - i
  {
    if i < |Stops| {
      assert LowerChar(s[k]) != LowerChar(Stops[i][0]);
      PaidNeedsStop(s, k, kw, i + 1);
    }
  }

  /** Where a match of the payment pattern starts, its keyword follows,
      each small letter of it in either case. */
  lemma KeywordLetter(t: string, k: nat, kw: string, j: nat)
    requires k <= |t| && MatchEnd(t, Paid(kw), k).Some? && j < |kw| && 'a' <= kw[j] <= 'z'
    ensures kw[j] in t || UpperChar(kw[j]) in t
  {
    if PaidFrom(t, k, kw, 0).Some? {
      PaidFromLetter(t, k, kw, 0, j);
    } else {
      SpacesStarLetter(t, k, kw, j);
    }
  }

  lemma PaidFromLetter(t: string, k: nat, kw: string, i: nat, j: nat)
    requires i <= |Stops| && PaidFrom(t, k, kw, i).Some? && j < |kw| && 'a' <= kw[j] <= 'z'
    ensures kw[j] in t || UpperChar(kw[j]) in t
  {
    var u := PaidFrom(t, k, kw, i).value - |kw|;
    assert LowerChar(t[u + j]) == LowerChar(kw[j]);
    SmallLetter(t[u + j], kw[j]);
    assert t[u + j] in t;
  }

  lemma SpacesStarLetter(t: string, k: nat, kw: string, j: nat)
    requires k <= |t| && SpacesStar(t, k, kw).Some? && j < |kw| && 'a' <= kw[j] <= 'z'
    ensures kw[j] in t || UpperChar(kw[j]) in t
  {
    var u := SpacesStar(t, k, kw).value - |kw|;
    assert LowerChar(t[u + j]) == LowerChar(kw[j]);
    SmallLetter(t[u + j], kw[j]);
    assert t[u + j] in t;
  }

  /** The characters a small letter is the lower case of: itself and its
      capital. */
  lemma SmallLetter(c: char, d: char)
    requires 'a' <= d <= 'z' && LowerChar(c) == LowerChar(d)
    ensures c == d || c == UpperChar(d)
  {
  }

  /** A text lacking some letter of the keyword, in either case, holds no
      match of the payment pattern for it, and the removal leaves it as it
      is. */
  lemma KeywordMissing(t: string, kw: string, j: nat)
    requires j < |kw| && 'a' <= kw[j] <= 'z' && kw[j] !in t && UpperChar(kw[j]) !in t
    ensures RemoveAll(t, Paid(kw)) == t
  {
    forall k | 0 <= k < |t| ensures MatchEnd(t, Paid(kw), k).None? {
      if MatchEnd(t, Paid(kw), k).Some? {
        KeywordLetter(t, k, kw, j);
      }
    }
    assert NoMatchFrom(t, Paid(kw), 0);
  }

  /** The result keeps characters of s, in their order. */
  predicate IsSubsequence(r: string, s: string)
    decreases |s|
  {
    if r == [] then true
    else if s == [] then false
    else if r[0] == s[0] then IsSubsequence(r[1..], s[1..])
    else IsSubsequence(r, s[1..])
  }

  /** A subsequence of a suffix is a subsequence of any longer suffix. */
  lemma {:induction false} SubsequenceDrop(r: string, s: string, i: nat, j: nat)
    requires i <= j <= |s| && IsSubsequence(r, s[j..])
    ensures IsSubsequence(r, s[i..])
    decreases j - i
  {
    if i < j {
      SubsequenceDrop(r, s, i + 1, j);
      assert s[i..][1..] == s[i + 1..];
      if r != [] && r[0] == s[i] {
        SubsequenceWeaken(r, s[i + 1..]);
      }
    }
  }

  /** A subsequence of the tail is a subsequence when the first character
      is kept too. */
  lemma {:induction false} SubsequenceWeaken(r: string, s: string)
    requires r != [] && IsSubsequence(r, s)
    ensures IsSubsequence(r[1..], s)
    decreases |s|
  {
    if s != [] {
      if r[0] != s[0] {
        SubsequenceWeaken(r, s[1..]);
      }
      if |r| > 1 && r[1] == s[0] && IsSubsequence(r[1..], s[1..]) {
        SubsequenceWeaken(r[1..], s[1..]);
      }
    }
  }

  /** Removing matches only ever deletes characters. */
  lemma {:induction false} RemoveFromSubsequence(s: string, pat: Pattern, i: nat)
    requires i <= |s|
    ensures IsSubsequence(RemoveFrom(s, pat, i), s[i..])
    decreases |s| - i
  {
    if i < |s| {
      match MatchEnd(s, pat, i)
      case Some(j) =>
        RemoveFromSubsequence(s, pat, j);
        SubsequenceDrop(RemoveFrom(s, pat, j), s, i, j);
      case None =>
        RemoveFromSubsequence(s, pat, i + 1);
        var rest := RemoveFrom(s, pat, i + 1);
        assert RemoveFrom(s, pat, i) == [s[i]] + rest;
        assert ([s[i]] + rest)[1..] == rest;
        assert s[i..][1..] == s[i + 1..];
    }
  }
}
