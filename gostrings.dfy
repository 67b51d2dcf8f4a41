/**
 * The parts of Go's `strings` and `fmt` packages that the catalog planner
 * relies on: first-occurrence search, single replacement, joining with a
 * separator, and `%d` rendering of integers. Splitting on a one-character
 * separator is the inverse of joining; it is how the consumers of the
 * joined host lists read them back.
 */
module GoStrings {

  /** `p` occurs in `s` starting at position `k`. */
  predicate OccursAt(s: string, p: string, k: int)
  {
    0 <= k && k + |p| <= |s| && s[k..k + |p|] == p
  }

  /** `strings.Contains`, stated directly. */
  predicate Contains(s: string, p: string)
  {
    exists k :: 0 <= k <= |s| && OccursAt(s, p, k)
  }

  /** `strings.Index`: the position of the first occurrence of `p` in `s`, or -1. */
  function Index(s: string, p: string): (r: int)
    ensures r == -1 || OccursAt(s, p, r)
    ensures r == -1 <==> !Contains(s, p)
    ensures forall k :: 0 <= k < r ==> !OccursAt(s, p, k)
    decreases |s|
  {
    if |s| < |p| then
      -1
    else if s[..|p|] == p then
      assert OccursAt(s, p, 0);
      0
    else
      var j := Index(s[1..], p);
      ShiftOccurrence(s, p);
      assert !OccursAt(s, p, 0);
      if j == -1 then -1 else j + 1
  }

  /** The occurrences in `s` after position 0 are those of `s[1..]`, one position later. */
  lemma ShiftOccurrence(s: string, p: string)
    requires |s| > 0
    ensures forall k :: 1 <= k ==> (OccursAt(s, p, k) <==> OccursAt(s[1..], p, k - 1))
    ensures Contains(s, p) <==> OccursAt(s, p, 0) || Contains(s[1..], p)
  {
    forall k | 1 <= k
      ensures OccursAt(s, p, k) <==> OccursAt(s[1..], p, k - 1)
    {
      if k + |p| <= |s| {
        assert s[1..][k - 1..k - 1 + |p|] == s[k..k + |p|];
      }
    }
    if Contains(s[1..], p) {
      var k :| 0 <= k <= |s[1..]| && OccursAt(s[1..], p, k);
      assert OccursAt(s, p, k + 1);
    }
  }

  /** `strings.Replace(s, pat, rep, 1)`: replace the first occurrence of `pat`, if any. */
  function ReplaceFirst(s: string, pat: string, rep: string): (r: string)
  {
    var k := Index(s, pat);
    if k == -1 then s else s[..k] + rep + s[k + |pat|..]
  }

  lemma ReplaceFirstSpec(s: string, pat: string, rep: string)
    ensures !Contains(s, pat) ==> ReplaceFirst(s, pat, rep) == s
    ensures Contains(s, pat) ==>
      exists k :: OccursAt(s, pat, k) && (forall j :: 0 <= j < k ==> !OccursAt(s, pat, j)) &&
        ReplaceFirst(s, pat, rep) == s[..k] + rep + s[k + |pat|..]
  {
    if Contains(s, pat) {
      var k := Index(s, pat);
      assert OccursAt(s, pat, k);
    }
  }

  /** A string that contains `p` still contains it when text is put around it. */
  lemma {:induction false} ContainsInContext(a: string, s: string, b: string, p: string)
    requires Contains(s, p)
    ensures Contains(a + s + b, p)
  {
    var k :| 0 <= k <= |s| && OccursAt(s, p, k);
    assert (a + s + b)[|a| + k..|a| + k + |p|] == s[k..k + |p|];
    assert OccursAt(a + s + b, p, |a| + k);
  }

  /** A text contains every string it is built around. */
  lemma ContainsMiddle(a: string, p: string, b: string)
    ensures Contains(a + p + b, p)
  {
    assert (a + p + b)[|a|..|a| + |p|] == p;
    assert OccursAt(a + p + b, p, |a|);
  }

  /** What occurs inside an occurrence of `p` in `s` occurs in `s`. */
  lemma ContainsWithin(s: string, p: string, k: int, q: string)
    requires OccursAt(s, p, k) && Contains(p, q)
    ensures Contains(s, q)
  {
    var j :| 0 <= j <= |p| && OccursAt(p, q, j);
    forall i | 0 <= i < |q| ensures s[k + j + i] == q[i] {
      assert s[k + j + i] == s[k..k + |p|][j + i] == p[j + i] == p[j..j + |q|][i];
    }
    assert s[k + j..k + j + |q|] == q;
    assert OccursAt(s, q, k + j);
  }

  /** `strings.Join` of the list built by the planner's loops: separator between elements, none around them. */
  function Join(sep: string, xs: seq<string>): (r: string)
    decreases |xs|
  {
    if |xs| == 0 then ""
    else if |xs| == 1 then xs[0]
    else Join(sep, xs[..|xs| - 1]) + sep + xs[|xs| - 1]
  }

  /** Joining one more element adds the separator and the element, unless the list was empty. */
  lemma JoinAppend(sep: string, xs: seq<string>, x: string)
    ensures Join(sep, xs + [x]) == if |xs| == 0 then x else Join(sep, xs) + sep + x
  {
    assert (xs + [x])[..|xs|] == xs;
  }

  /** Taking one more element of a list. */
  lemma TakeOneMore(xs: seq<string>, n: nat)
    requires n < |xs|
    ensures xs[..n + 1] == xs[..n] + [xs[n]]
  {
  }

  /** The last position of character `c` in `s`, or -1. */
  function LastIndexOf(s: string, c: char): (r: int)
    ensures -1 <= r < |s|
    ensures r >= 0 ==> s[r] == c
    ensures forall k :: r < k < |s| ==> s[k] != c
    ensures r == -1 <==> c !in s
  {
    if |s| == 0 then -1
    else if s[|s| - 1] == c then |s| - 1
    else LastIndexOf(s[..|s| - 1], c)
  }

  /** `strings.Split(s, [c])`: the pieces between occurrences of `c`. */
  function Split(s: string, c: char): (r: seq<string>)
    ensures |r| > 0
    decreases |s|
  {
    var k := LastIndexOf(s, c);
    if k == -1 then [s] else Split(s[..k], c) + [s[k + 1..]]
  }

  /** Splitting a joined list on its separator gives the list back, when no element holds the separator. */
  lemma {:induction false} SplitJoin(c: char, xs: seq<string>)
    requires |xs| > 0
    requires forall i :: 0 <= i < |xs| ==> c !in xs[i]
    ensures Split(Join([c], xs), c) == xs
    decreases |xs|
  {
    if |xs| > 1 {
      var init, last := xs[..|xs| - 1], xs[|xs| - 1];
      var s := Join([c], xs);
      assert s == Join([c], init) + [c] + last;
      assert LastIndexOf(s, c) == |Join([c], init)| by {
        assert s[|Join([c], init)|] == c;
        forall k | |Join([c], init)| < k < |s| ensures s[k] != c {
          assert s[k] == last[k - |Join([c], init)| - 1];
        }
      }
      assert s[..|Join([c], init)|] == Join([c], init);
      assert s[|Join([c], init)| + 1..] == last;
      SplitJoin(c, init);
      assert init + [last] == xs;
    }
  }

  function DigitChar(d: nat): (r: char)
    requires d < 10
    ensures '0' <= r <= '9'
  {
    "0123456789"[d]
  }

  /** The decimal digits of `n`, most significant first. */
  function Digits(n: nat): (r: string)
    ensures |r| > 0
  {
    if n < 10 then [DigitChar(n)] else Digits(n / 10) + [DigitChar(n % 10)]
  }

  lemma {:induction false} DigitsAreDigits(n: nat)
    ensures forall i :: 0 <= i < |Digits(n)| ==> '0' <= Digits(n)[i] <= '9'
  {
    if n >= 10 {
      DigitsAreDigits(n / 10);
    }
  }

  /** `fmt.Sprintf("%d", n)`: a leading '-' for negative numbers, then the digits. */
  function FormatInt(n: int): (r: string)
    ensures |r| > 0
  {
    if n < 0 then "-" + Digits(-n) else Digits(n)
  }

  /** `%d` output is a '-' exactly for negative numbers, followed by decimal digits only. */
  lemma FormatIntChars(n: int)
    ensures (FormatInt(n)[0] == '-') == (n < 0)
    ensures forall i :: (if n < 0 then 1 else 0) <= i < |FormatInt(n)| ==> '0' <= FormatInt(n)[i] <= '9'
  {
    if n < 0 {
      DigitsAreDigits(-n);
      assert forall i :: 1 <= i < |FormatInt(n)| ==> FormatInt(n)[i] == Digits(-n)[i - 1];
    } else {
      DigitsAreDigits(n);
    }
  }
}
