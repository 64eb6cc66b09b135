/** String helpers shared by the sales service and the voice parser: the
    character classes the source's regular expressions use, the case maps,
    and the String.prototype operations (includes, trim, split, join, string
    comparison, parseInt) the source calls. */
module Text {

  /** The characters JavaScript's `\s` and `String.prototype.trim` treat as
      white space. */
  predicate IsSpace(c: char)
  {
    c == ' ' || c == '\t' || c == '\n' || c == '\r' || c == '\U{000B}' || c == '\U{000C}'
    || c == '\U{00A0}' || c == '\U{1680}' || ('\U{2000}' <= c <= '\U{200A}')
    || c == '\U{2028}' || c == '\U{2029}' || c == '\U{202F}' || c == '\U{205F}'
    || c == '\U{3000}' || c == '\U{FEFF}'
  }

  predicate IsDigit(c: char)
  {
    '0' <= c <= '9'
  }

  /** A word character in the sense of `\b` for a regular expression without
      the `u` flag: ASCII letters, digits and the underscore only. */
  predicate IsWordChar(c: char)
  {
    ('a' <= c <= 'z') || ('A' <= c <= 'Z') || IsDigit(c) || c == '_'
  }

  /** `\b` at position j of s: the characters on the two sides of j differ in
      being word characters (a side outside the string is not one). */
  predicate Boundary(s: string, j: int)
  {
    (0 < j <= |s| && IsWordChar(s[j - 1])) != (0 <= j < |s| && IsWordChar(s[j]))
  }

  /** The accented small letters of the name class in the customer
      patterns: á à â ã é è ê í ï ó ô õ ö ú ç ñ. */
  predicate IsAccentedSmall(c: char)
  {
    c == 'á' || c == 'à' || c == 'â' || c == 'ã' || c == 'é' || c == 'è' || c == 'ê' || c == 'í'
    || c == 'ï' || c == 'ó' || c == 'ô' || c == 'õ' || c == 'ö' || c == 'ú' || c == 'ç' || c == 'ñ'
  }

  /** Their capitals, each its small letter minus 32. */
  predicate IsAccentedCapital(c: char)
  {
    c == 'Á' || c == 'À' || c == 'Â' || c == 'Ã' || c == 'É' || c == 'È' || c == 'Ê' || c == 'Í'
    || c == 'Ï' || c == 'Ó' || c == 'Ô' || c == 'Õ' || c == 'Ö' || c == 'Ú' || c == 'Ç' || c == 'Ñ'
  }

  function LowerChar(c: char): (r: char)
    ensures 'A' <= c <= 'Z' ==> 'a' <= r <= 'z'
    ensures IsAccentedCapital(c) ==> IsAccentedSmall(r)
    ensures !('A' <= c <= 'Z') && !IsAccentedCapital(c) ==> r == c
  {
    if 'A' <= c <= 'Z' || IsAccentedCapital(c) then (c as int + 32) as char else c
  }

  function UpperChar(c: char): (r: char)
    ensures 'a' <= c <= 'z' ==> 'A' <= r <= 'Z'
    ensures IsAccentedSmall(c) ==> IsAccentedCapital(r)
    ensures !('a' <= c <= 'z') && !IsAccentedSmall(c) ==> r == c
  {
    if 'a' <= c <= 'z' || IsAccentedSmall(c) then (c as int - 32) as char else c
  }

  /** `toLowerCase`, restricted to the letters above. */
  function Lower(s: string): (r: string)
    ensures |r| == |s|
  {
    seq(|s|, i requires 0 <= i < |s| => LowerChar(s[i]))
  }

  lemma LowerCharIdempotent(c: char)
    ensures LowerChar(LowerChar(c)) == LowerChar(c)
  {
  }

  lemma LowerIdempotent(s: string)
    ensures Lower(Lower(s)) == Lower(s)
  {
    forall i | 0 <= i < |s| ensures Lower(Lower(s))[i] == Lower(s)[i] {
      LowerCharIdempotent(s[i]);
    }
  }

  lemma LowerAppend(a: string, b: string)
    ensures Lower(a + b) == Lower(a) + Lower(b)
  {
  }

  /** sub occurs in s starting at position i. */
  predicate OccursAt(s: string, i: int, sub: string)
  {
    0 <= i && i + |sub| <= |s| && s[i..i + |sub|] == sub
  }

  /** `includes`: sub occurs as a contiguous piece of s. */
  predicate Contains(s: string, sub: string)
  {
    exists i | 0 <= i <= |s| - |sub| :: OccursAt(s, i, sub)
  }

  lemma UpperCharIdempotent(c: char)
    ensures UpperChar(UpperChar(c)) == UpperChar(c)
  {
  }

  /** The case maps send no other character to a space. */
  lemma CaseMapsKeepSpaces(c: char)
    ensures (UpperChar(c) == ' ') == (c == ' ')
    ensures (LowerChar(c) == ' ') == (c == ' ')
  {
  }

  /** A piece of a piece of s is a piece of s. */
  lemma ContainsInner(s: string, big: string, i: int, small: string)
    requires OccursAt(big, i, small) && Contains(s, big)
    ensures Contains(s, small)
  {
    var j :| 0 <= j <= |s| - |big| && OccursAt(s, j, big);
    assert s[j..j + |big|] == big;
    forall t | 0 <= t < |small| ensures s[j + i + t] == small[t] {
      assert s[j + i + t] == s[j..j + |big|][i + t];
    }
    assert s[j + i..j + i + |small|] == small;
    assert OccursAt(s, j + i, small);
  }

  /** A string lacking one of sub's characters does not contain sub. */
  lemma MissingChar(s: string, sub: string, j: nat)
    requires j < |sub| && sub[j] !in s
    ensures !Contains(s, sub)
  {
    forall i | 0 <= i <= |s| - |sub| ensures !OccursAt(s, i, sub) {
      assert i + j < |s| ==> s[i + j] in s;
    }
  }

  /** Every string contains itself and the empty string. */
  lemma ContainsTrivial(s: string)
    ensures Contains(s, s) && Contains(s, "")
  {
    assert OccursAt(s, 0, s);
    assert OccursAt(s, 0, "");
  }

  /** A slice of s is contained in s. */
  lemma ContainsSlice(s: string, i: int, j: int)
    requires 0 <= i <= j <= |s|
    ensures Contains(s, s[i..j])
  {
    assert OccursAt(s, i, s[i..j]);
  }

  /** The case-insensitive comparison a regular expression with the `i` flag
      makes between the text at position k and a literal. */
  predicate LiteralAt(s: string, k: int, lit: string)
  {
    0 <= k && k + |lit| <= |s| && forall i :: 0 <= i < |lit| ==> LowerChar(s[k + i]) == LowerChar(lit[i])
  }

  /** End of the run of white space in s that starts at p. */
  function SpaceRunEnd(s: string, p: nat): (q: nat)
    requires p <= |s|
    ensures p <= q <= |s|
    ensures forall k :: p <= k < q ==> IsSpace(s[k])
    ensures q == |s| || !IsSpace(s[q])
    decreases |s| - p
  {
    if p < |s| && IsSpace(s[p]) then SpaceRunEnd(s, p + 1) else p
  }

  /** Number of leading white-space characters. */
  function LeadingSpaces(s: string): (n: nat)
    ensures n <= |s|
    ensures forall k :: 0 <= k < n ==> IsSpace(s[k])
    ensures n == |s| || !IsSpace(s[n])
  {
    SpaceRunEnd(s, 0)
  }

  /** Number of trailing white-space characters. */
  function TrailingSpaces(s: string): (n: nat)
    ensures n <= |s|
    ensures forall k :: |s| - n <= k < |s| ==> IsSpace(s[k])
    ensures n == |s| || !IsSpace(s[|s| - n - 1])
  {
    if |s| > 0 && IsSpace(s[|s| - 1]) then TrailingSpaces(s[..|s| - 1]) + 1 else 0
  }

  /** `trim`: s is the result with white space around it, and the result
      neither starts nor ends with white space. */
  function Trim(s: string): (r: string)
    ensures exists i, j :: 0 <= i <= j <= |s| && r == s[i..j]
                           && (forall k :: 0 <= k < i ==> IsSpace(s[k]))
                           && (forall k :: j <= k < |s| ==> IsSpace(s[k]))
    ensures r != [] ==> !IsSpace(r[0]) && !IsSpace(r[|r| - 1])
  {
    var i := LeadingSpaces(s);
    var t := TrailingSpaces(s[i..]);
    TrimCut(s, i, t);
    s[i..|s| - t]
  }

  /** Where `trim` cuts: after the leading white space and before the
      trailing white space of the rest. */
  lemma TrimCut(s: string, i: nat, t: nat)
    requires i == LeadingSpaces(s) && t == TrailingSpaces(s[i..])
    ensures i <= |s| - t
    ensures forall k :: |s| - t <= k < |s| ==> IsSpace(s[k])
    ensures i < |s| - t ==> !IsSpace(s[i]) && !IsSpace(s[|s| - t - 1])
  {
    forall k | |s| - t <= k < |s| ensures IsSpace(s[k]) {
      assert s[k] == s[i..][k - i];
    }
    if i < |s| - t {
      assert s[|s| - t - 1] == s[i..][|s[i..]| - t - 1];
    }
  }

  /** Index of the first occurrence of c in s, if any. */
  function IndexOfChar(s: string, c: char): (r: int)
    ensures -1 <= r < |s|
    ensures r >= 0 ==> s[r] == c && forall t :: 0 <= t < r ==> s[t] != c
    ensures r == -1 ==> forall t :: 0 <= t < |s| ==> s[t] != c
  {
    if |s| == 0 then -1
    else if s[0] == c then 0
    else
      var k := IndexOfChar(s[1..], c);
      assert forall t :: 1 <= t < |s| ==> s[t] == s[1..][t - 1];
      if k == -1 then -1 else k + 1
  }

  /** `split(sep)` with a one-character separator. */
  function Split(s: string, sep: char): (r: seq<string>)
    ensures |r| > 0
    decreases |s|
  {
    var k := IndexOfChar(s, sep);
    if k == -1 then [s] else [s[..k]] + Split(s[k + 1..], sep)
  }

  /** No piece of a split holds the separator. */
  lemma {:induction false} SplitPieces(s: string, sep: char)
    ensures forall k :: 0 <= k < |Split(s, sep)| ==> sep !in Split(s, sep)[k]
    decreases |s|
  {
    var k := IndexOfChar(s, sep);
    if k == -1 {
      assert Split(s, sep) == [s];
    } else {
      var rest := Split(s[k + 1..], sep);
      SplitPieces(s[k + 1..], sep);
      SplitAt(s, sep);
      FirstPieceClean(s, sep, k);
      forall j | 0 <= j < |Split(s, sep)| ensures sep !in Split(s, sep)[j] {
        if j > 0 {
          assert Split(s, sep)[j] == rest[j - 1];
        }
      }
    }
  }

  lemma FirstPieceClean(s: string, sep: char, k: int)
    requires k == IndexOfChar(s, sep) && k != -1
    ensures sep !in s[..k]
  {
    assert forall t :: 0 <= t < k ==> s[..k][t] == s[t];
  }

  /** `join(sep)`. */
  function Join(ws: seq<string>, sep: char): (r: string)
  {
    if |ws| == 0 then "" else if |ws| == 1 then ws[0] else ws[0] + [sep] + Join(ws[1..], sep)
  }

  /** Splitting at a character and joining with it again gives back the
      string. */
  lemma {:induction false} JoinSplit(s: string, sep: char)
    ensures Join(Split(s, sep), sep) == s
    decreases |s|
  {
    if IndexOfChar(s, sep) == -1 {
      JoinSplitWhole(s, sep);
    } else {
      JoinSplit(s[IndexOfChar(s, sep) + 1..], sep);
      JoinSplitStep(s, sep);
    }
  }

  /** A string without the separator splits into itself alone. */
  lemma JoinSplitWhole(s: string, sep: char)
    requires IndexOfChar(s, sep) == -1
    ensures Join(Split(s, sep), sep) == s
  {
    assert Split(s, sep) == [s];
  }

  /** The step of JoinSplit: the round trip holds for s when it holds for
      what follows the first separator. */
  lemma JoinSplitStep(s: string, sep: char)
    requires IndexOfChar(s, sep) != -1
    requires var k := IndexOfChar(s, sep);
             Join(Split(s[k + 1..], sep), sep) == s[k + 1..]
    ensures Join(Split(s, sep), sep) == s
  {
    var k := IndexOfChar(s, sep);
    var parts := Split(s[k + 1..], sep);
    SplitAt(s, sep);
    JoinCons(s[..k], parts, sep);
    SliceAround(s, k);
  }

  /** A string is what comes before position k, the character at k and
      what comes after. */
  lemma SliceAround(s: string, k: nat)
    requires k < |s|
    ensures s[..k] + [s[k]] + s[k + 1..] == s
  {
  }

  /** A split at the first separator: the piece before it, then the split
      of what follows it. */
  lemma SplitAt(s: string, sep: char)
    requires IndexOfChar(s, sep) != -1
    ensures var k := IndexOfChar(s, sep);
            Split(s, sep) == [s[..k]] + Split(s[k + 1..], sep)
  {
  }

  /** Joining a word in front of words puts one separator between them. */
  lemma JoinCons(w: string, ws: seq<string>, sep: char)
    requires |ws| > 0
    ensures Join([w] + ws, sep) == w + [sep] + Join(ws, sep)
  {
    assert ([w] + ws)[1..] == ws;
  }

  /** The first separator in a + [sep] + b is the one between them when a
      has none. */
  lemma IndexOfCharAfter(a: string, sep: char, b: string)
    requires sep !in a
    ensures IndexOfChar(a + [sep] + b, sep) == |a|
  {
    var s := a + [sep] + b;
    var r := IndexOfChar(s, sep);
    assert s[|a|] == sep;
    assert s[..|a|] == a;
    assert forall t :: 0 <= t < |a| ==> s[t] == a[t];
  }

  /** Joining words that hold no separator and splitting again gives back
      the words. */
  lemma {:induction false} SplitJoin(ws: seq<string>, sep: char)
    requires |ws| > 0
    requires forall k :: 0 <= k < |ws| ==> sep !in ws[k]
    ensures Split(Join(ws, sep), sep) == ws
  {
    if |ws| == 1 {
      assert IndexOfChar(ws[0], sep) == -1;
    } else {
      var rest := Join(ws[1..], sep);
      assert Join(ws, sep) == ws[0] + [sep] + rest;
      IndexOfCharAfter(ws[0], sep, rest);
      SplitAt(ws[0] + [sep] + rest, sep);
      SlicesAroundSep(ws[0], sep, rest);
      assert forall k :: 0 <= k < |ws[1..]| ==> ws[1..][k] == ws[k + 1];
      SplitJoin(ws[1..], sep);
      assert ws == [ws[0]] + ws[1..];
    }
  }

  lemma SlicesAroundSep(a: string, sep: char, b: string)
    ensures (a + [sep] + b)[..|a|] == a && (a + [sep] + b)[|a| + 1..] == b
  {
  }

  /** JavaScript's `<=` on strings: lexicographic order of the characters. */
  predicate LexLe(a: string, b: string)
  {
    a == [] || (b != [] && (a[0] < b[0] || (a[0] == b[0] && LexLe(a[1..], b[1..]))))
  }

  lemma {:induction false} LexLeTotal(a: string, b: string)
    ensures LexLe(a, b) || LexLe(b, a)
  {
    if a != [] && b != [] && a[0] == b[0] {
      LexLeTotal(a[1..], b[1..]);
    }
  }

  lemma {:induction false} LexLeTransitive(a: string, b: string, c: string)
    requires LexLe(a, b) && LexLe(b, c)
    ensures LexLe(a, c)
  {
    if a != [] && b != [] && c != [] && a[0] == b[0] && b[0] == c[0] {
      LexLeTransitive(a[1..], b[1..], c[1..]);
    }
  }

  lemma {:induction false} LexLeAntisymmetric(a: string, b: string)
    requires LexLe(a, b) && LexLe(b, a)
    ensures a == b
  {
    if a != [] && b != [] {
      LexLeAntisymmetric(a[1..], b[1..]);
      assert a == [a[0]] + a[1..] && b == [b[0]] + b[1..];
    }
  }

  function DigitValue(c: char): (d: nat)
    requires IsDigit(c)
    ensures d < 10
  {
    c as int - '0' as int
  }

  predicate AllDigits(s: string)
  {
    forall k :: 0 <= k < |s| ==> IsDigit(s[k])
  }

  /** `parseInt` of a run of decimal digits. */
  function DigitsValue(s: string): (n: nat)
    requires AllDigits(s)
  {
    if s == [] then 0 else DigitsValue(s[..|s| - 1]) * 10 + DigitValue(s[|s| - 1])
  }

  /** The decimal rendering of a number, as a template literal gives it. */
  function NatToString(n: nat): (r: string)
    ensures r != [] && AllDigits(r)
  {
    if n < 10 then [('0' as int + n) as char] else NatToString(n / 10) + [('0' as int + n % 10) as char]
  }

  lemma {:induction false} NatToStringValue(n: nat)
    ensures DigitsValue(NatToString(n)) == n
  {
    if n >= 10 {
      NatToStringValue(n / 10);
      var r := NatToString(n);
      assert r[..|r| - 1] == NatToString(n / 10);
    }
  }
}
