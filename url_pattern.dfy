/**
 * The photo-URL pattern `https:\/\/[^\s)]+` as an explicit scanner: the literal
 * `https://` followed by one or more characters that are neither whitespace nor
 * `)`. `Matches` is the global match (`/…/g`): leftmost, greedy and without
 * overlap. `FirstMatch` is the non-global match that returns the first one.
 */
module UrlPattern {
  import opened Wrappers
  import opened JsStrings

  const Scheme := "https://"

  /** The character class `[^\s)]`. */
  predicate IsUrlChar(c: char) {
    !IsWhitespace(c) && c != ')'
  }

  /** A string the pattern matches as a whole. */
  predicate IsUrl(u: string) {
    && |u| > |Scheme|
    && u[..|Scheme|] == Scheme
    && forall i :: 0 <= i < |u| ==> IsUrlChar(u[i])
  }

  /** A match of the pattern begins at the first character of `s`. */
  predicate StartsUrl(s: string) {
    |s| > |Scheme| && s[..|Scheme|] == Scheme && IsUrlChar(s[|Scheme|])
  }

  lemma SchemeHasUrlChars()
    ensures forall i :: 0 <= i < |Scheme| ==> IsUrlChar(Scheme[i])
  {
  }

  /** The greedy `[^\s)]+`: the whole run of URL characters at the start of `s`. */
  function RunLength(s: string): (n: nat)
    ensures n <= |s|
    ensures forall i :: 0 <= i < n ==> IsUrlChar(s[i])
    ensures n == |s| || !IsUrlChar(s[n])
  {
    if s == [] || !IsUrlChar(s[0]) then 0 else 1 + RunLength(s[1..])
  }

  /** The length of the match that begins at the first character of `s`, if any:
      it is a URL and cannot be extended. */
  function MatchLength(s: string): (r: Option<nat>)
    ensures r.Some? <==> StartsUrl(s)
    ensures r.Some? ==> |Scheme| < r.value <= |s| && IsUrl(s[..r.value])
    ensures r.Some? ==> r.value == |s| || !IsUrlChar(s[r.value])
  {
    if StartsUrl(s) then
      var n := |Scheme| + RunLength(s[|Scheme|..]);
      SchemeHasUrlChars();
      assert forall i :: |Scheme| <= i < n ==> s[i] == s[|Scheme|..][i - |Scheme|];
      assert s[..n][..|Scheme|] == Scheme;
      Some(n)
    else
      None
  }

  /** `s.match(/https:\/\/[^\s)]+/g)`, with its `null` result as the empty
      sequence. Every match is a URL: `https://`, at least one more character,
      and no whitespace or `)`. */
  function Matches(s: string): (r: seq<string>)
    ensures forall u :: u in r ==> IsUrl(u)
    decreases |s|
  {
    if s == [] then []
    else
      match MatchLength(s)
      case Some(n) => [s[..n]] + Matches(s[n..])
      case None => Matches(s[1..])
  }

  /** `s.match(/https:\/\/[^\s)]+/)[0]`, with its `null` result as `None`: the
      non-global match returns the first of the global matches. */
  function FirstMatch(s: string): (r: Option<string>)
    ensures r == if Matches(s) == [] then None else Some(Matches(s)[0])
    decreases |s|
  {
    if s == [] then None
    else
      match MatchLength(s)
      case Some(n) => Some(s[..n])
      case None => FirstMatch(s[1..])
  }

  /** There is no match exactly when no position of `s` starts a URL. */
  lemma {:induction false} MatchesEmptyIff(s: string)
    ensures Matches(s) == [] <==> forall i :: 0 <= i < |s| ==> !StartsUrl(s[i..])
    decreases |s|
  {
    if s != [] {
      assert s[0..] == s;
      if MatchLength(s).None? {
        MatchesEmptyIff(s[1..]);
        forall i | 0 <= i < |s| - 1 ensures s[1..][i..] == s[i + 1..] { }
        assert (forall i :: 0 <= i < |s| ==> !StartsUrl(s[i..]))
          <==> (forall i :: 0 <= i < |s| - 1 ==> !StartsUrl(s[1..][i..])) by {
          if forall i :: 0 <= i < |s| - 1 ==> !StartsUrl(s[1..][i..]) {
            forall i | 0 <= i < |s| ensures !StartsUrl(s[i..]) {
              if i > 0 { assert s[i..] == s[1..][i - 1..]; }
            }
          }
        }
      }
    }
  }

  lemma RunLengthOfUrlChars(s: string)
    requires forall i :: 0 <= i < |s| ==> IsUrlChar(s[i])
    ensures RunLength(s) == |s|
  {
  }

  /** A URL on its own is matched whole, once. */
  lemma MatchesOfUrl(u: string)
    requires IsUrl(u)
    ensures Matches(u) == [u]
  {
    var k := |Scheme|;
    RunLengthOfUrlChars(u[k..]);
    assert StartsUrl(u);
    assert MatchLength(u) == Some(|u|);
    assert u[..|u|] == u;
    assert u[|u|..] == [];
  }

  lemma RunLengthStops(a: string, c: char, b: string)
    requires !IsUrlChar(c)
    ensures RunLength(a + [c] + b) == RunLength(a)
    decreases |a|
  {
    if a == [] {
      assert (a + [c] + b)[0] == c;
    } else {
      assert (a + [c] + b)[0] == a[0];
      assert (a + [c] + b)[1..] == a[1..] + [c] + b;
      RunLengthStops(a[1..], c, b);
    }
  }

  /** A character outside the class ends any match that reaches it, and no
      `https://` can span it. */
  lemma MatchLengthStops(a: string, c: char, b: string)
    requires a != [] && !IsUrlChar(c)
    ensures MatchLength(a + [c] + b) == MatchLength(a)
  {
    var s := a + [c] + b;
    var k := |Scheme|;
    SchemeHasUrlChars();
    if |a| > k {
      assert s[..k] == a[..k];
      assert s[k] == a[k];
      assert s[k..] == a[k..] + [c] + b;
      RunLengthStops(a[k..], c, b);
    } else if |a| == k {
      assert s[k] == c;
      assert !StartsUrl(s);
    } else {
      assert s[|a|] == c && IsUrlChar(Scheme[|a|]);
      assert |s| > k ==> s[..k][|a|] != Scheme[|a|];
    }
  }

  /** Text on either side of a character outside the class is scanned on its own. */
  lemma {:induction false} MatchesSplit(a: string, c: char, b: string)
    requires !IsUrlChar(c)
    ensures Matches(a + [c] + b) == Matches(a) + Matches(b)
    decreases |a|
  {
    var s := a + [c] + b;
    if a == [] {
      SchemeHasUrlChars();
      assert s == [c] + b;
      assert !StartsUrl(s) by {
        if |s| > |Scheme| { assert s[..|Scheme|][0] == c; }
      }
      assert s[1..] == b;
    } else {
      MatchLengthStops(a, c, b);
      match MatchLength(a)
      case Some(n) =>
        assert s[..n] == a[..n];
        assert s[n..] == a[n..] + [c] + b;
        MatchesSplit(a[n..], c, b);
      case None =>
        assert s[1..] == a[1..] + [c] + b;
        MatchesSplit(a[1..], c, b);
    }
  }

  /** Two URLs separated by a character outside the class come back both, in order. */
  lemma TwoUrlsInOrder(u: string, c: char, v: string)
    requires IsUrl(u) && IsUrl(v) && !IsUrlChar(c)
    ensures Matches(u + [c] + v) == [u, v]
  {
    MatchesSplit(u, c, v);
    MatchesOfUrl(u);
    MatchesOfUrl(v);
  }
}
