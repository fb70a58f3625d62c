/**
 * The intake form's e-mail pattern
 *   ^[a-zA-Z0-9._%+-]+@[a-zA-Z0-9.-]+\.[a-zAOH]{2,}$
 * modelled as written: the top-level-domain class holds the lower-case
 * letters and only the three capitals 'A', 'O' and 'H'.
 *
 * `EmailMatches` decides the pattern the way a scanner would (split at the
 * first '@', then at the last '.'); `MatchesPattern` is the pattern's own
 * meaning (some way of cutting the string into local part, '@', domain,
 * '.', top-level domain), and `EmailMatchesIff` proves the two agree.
 */
module EmailPattern {
  import opened Text

  /** `[a-zA-Z0-9._%+-]` */
  predicate IsLocalChar(c: char)
  {
    IsAsciiLetter(c) || IsAsciiDigit(c) || c == '.' || c == '_' || c == '%' || c == '+' || c == '-'
  }

  /** `[a-zA-Z0-9.-]` */
  predicate IsDomainChar(c: char)
  {
    IsAsciiLetter(c) || IsAsciiDigit(c) || c == '.' || c == '-'
  }

  /** `[a-zAOH]`, as written. */
  predicate IsTldChar(c: char)
  {
    IsAsciiLower(c) || c == 'A' || c == 'O' || c == 'H'
  }

  predicate AllLocal(t: string) { forall i :: 0 <= i < |t| ==> IsLocalChar(t[i]) }

  predicate AllDomain(t: string) { forall i :: 0 <= i < |t| ==> IsDomainChar(t[i]) }

  predicate AllTld(t: string) { forall i :: 0 <= i < |t| ==> IsTldChar(t[i]) }

  /** Position of the first `c` in `s`, or `|s|` when there is none. */
  function IndexOf(s: string, c: char): (r: nat)
    ensures r <= |s|
    ensures r < |s| ==> s[r] == c
    ensures forall i :: 0 <= i < r ==> s[i] != c
  {
    if s == [] then 0
    else if s[0] == c then 0
    else 1 + IndexOf(s[1..], c)
  }

  /** Position of the last `c` in `s`, or -1 when there is none. */
  function LastIndexOf(s: string, c: char): (r: int)
    ensures -1 <= r < |s|
    ensures 0 <= r ==> s[r] == c
    ensures forall i :: r < i < |s| ==> s[i] != c
  {
    if s == [] then -1
    else if s[|s| - 1] == c then |s| - 1
    else LastIndexOf(s[..|s| - 1], c)
  }

  /** `[a-zA-Z0-9.-]+\.[a-zAOH]{2,}` on the text after the '@'. */
  predicate DomainMatches(d: string)
  {
    var dot := LastIndexOf(d, '.');
    1 <= dot && dot + 3 <= |d| && AllDomain(d[..dot]) && AllTld(d[dot + 1..])
  }

  /** The pattern test, scanning as the engine's only successful match must. */
  predicate EmailMatches(s: string)
  {
    var at := IndexOf(s, '@');
    1 <= at < |s| && AllLocal(s[..at]) && DomainMatches(s[at + 1..])
  }

  /** `s` is local part `s[..at]`, '@', domain `s[at+1..dot]`, '.', top-level domain `s[dot+1..]`. */
  ghost predicate SplitsAt(s: string, at: int, dot: int)
  {
    && 0 < at && at + 1 < dot && dot + 3 <= |s|
    && s[at] == '@' && s[dot] == '.'
    && AllLocal(s[..at]) && AllDomain(s[at + 1..dot]) && AllTld(s[dot + 1..])
  }

  /** What the regular expression accepts: some split of the whole string. */
  ghost predicate MatchesPattern(s: string)
  {
    exists at, dot :: SplitsAt(s, at, dot)
  }

  /** The first `c` is at `k` when `s[k]` is `c` and none comes before it. */
  lemma IndexOfAt(s: string, c: char, k: nat)
    requires k < |s| && s[k] == c
    requires forall i :: 0 <= i < k ==> s[i] != c
    ensures IndexOf(s, c) == k
  {
  }

  /** The last `c` is at `k` when `s[k]` is `c` and none comes after it. */
  lemma LastIndexOfAt(s: string, c: char, k: nat)
    requires k < |s| && s[k] == c
    requires forall i :: k < i < |s| ==> s[i] != c
    ensures LastIndexOf(s, c) == k
  {
  }

  /** Whatever the scanner accepts, it accepts through a split of the pattern. */
  lemma ScannerSound(s: string)
    requires EmailMatches(s)
    ensures SplitsAt(s, IndexOf(s, '@'), IndexOf(s, '@') + 1 + LastIndexOf(s[IndexOf(s, '@') + 1..], '.'))
  {
    var at := IndexOf(s, '@');
    var d := s[at + 1..];
    var dot := LastIndexOf(d, '.');
    assert d[..dot] == s[at + 1..at + 1 + dot];
    assert d[dot + 1..] == s[at + 1 + dot + 1..];
  }

  /** Every split of the pattern is the one the scanner finds. */
  lemma ScannerComplete(s: string, at: int, dot: int)
    requires SplitsAt(s, at, dot)
    ensures EmailMatches(s)
  {
    assert forall i :: 0 <= i < at ==> s[..at][i] == s[i];
    assert forall i :: 0 <= i < at ==> s[i] != '@';
    IndexOfAt(s, '@', at);
    var d := s[at + 1..];
    var k := dot - at - 1;
    assert forall i :: k < i < |d| ==> d[i] == s[dot + 1..][i - k - 1];
    assert forall i :: k < i < |d| ==> d[i] != '.';
    LastIndexOfAt(d, '.', k);
    assert d[..k] == s[at + 1..dot];
    assert d[k + 1..] == s[dot + 1..];
  }

  /** The scanner accepts exactly the strings the pattern describes. */
  lemma EmailMatchesIff(s: string)
    ensures EmailMatches(s) <==> MatchesPattern(s)
  {
    if EmailMatches(s) {
      ScannerSound(s);
    }
    if MatchesPattern(s) {
      var at, dot :| SplitsAt(s, at, dot);
      ScannerComplete(s, at, dot);
    }
  }

  /** An accepted address has exactly one '@'. */
  lemma AcceptedHasOneAt(s: string)
    requires EmailMatches(s)
    ensures exists at :: 0 <= at < |s| && s[at] == '@'
    ensures forall i, j :: 0 <= i < |s| && 0 <= j < |s| && s[i] == '@' && s[j] == '@' ==> i == j
  {
    var at := IndexOf(s, '@');
    assert forall i :: 0 <= i < at ==> s[..at][i] == s[i];
    var d := s[at + 1..];
    var dot := LastIndexOf(d, '.');
    assert forall i :: at < i < |s| ==> s[i] == d[i - at - 1];
    assert forall i :: 0 <= i < |d| ==> d[i] != '@' by {
      forall i | 0 <= i < |d|
        ensures d[i] != '@'
      {
        if i < dot {
          assert d[..dot][i] == d[i];
        } else if i > dot {
          assert d[dot + 1..][i - dot - 1] == d[i];
        }
      }
    }
  }

  /** An accepted address has a '.' after its '@'. */
  lemma AcceptedDomainHasDot(s: string)
    requires EmailMatches(s)
    ensures Contains(s[IndexOf(s, '@') + 1..], ".")
  {
    var d := s[IndexOf(s, '@') + 1..];
    var dot := LastIndexOf(d, '.');
    assert OccursAt(d, ".", dot);
    ContainsIff(d, ".");
  }

  lemma AcceptsPlainAddress()
    ensures EmailMatches("a.b@x.co")
  {
    assert SplitsAt("a.b@x.co", 3, 5);
    EmailMatchesIff("a.b@x.co");
  }

  lemma RejectsMissingTopLevelDomain()
    ensures !EmailMatches("a.b@x")
  {
    var s := "a.b@x";
    assert IndexOf(s, '@') == 3;
    assert s[4..] == "x";
    assert LastIndexOf("x", '.') == -1;
  }

  /** The class `[a-zAOH]` turns away a capitalised top-level domain ... */
  lemma RejectsCapitalisedTopLevelDomain()
    ensures !EmailMatches("a@b.Com")
  {
    var s := "a@b.Com";
    IndexOfAt(s, '@', 1);
    var d := s[2..];
    assert d == "b.Com";
    LastIndexOfAt(d, '.', 1);
    assert d[2..][0] == 'C' && !IsTldChar('C');
  }

  /** ... while accepting the capitals it does list. */
  lemma AcceptsListedCapitals()
    ensures EmailMatches("a@b.OH")
  {
    assert SplitsAt("a@b.OH", 1, 3);
    EmailMatchesIff("a@b.OH");
  }
}
