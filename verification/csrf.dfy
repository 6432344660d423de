/** The anti-forgery token: harvested from each reply's `Set-Cookie` header with
    the regular expression `auth=([^;]+)`, kept when a reply carries none. */
module Csrf {
  import opened Wrappers

  const AuthPrefix: string := "auth="

  /** The regular expression matches at `i`: `auth=` followed by at least one character other than `;`. */
  predicate MatchStart(s: string, i: nat) {
    i + |AuthPrefix| < |s| && s[i..i + |AuthPrefix|] == AuthPrefix && s[i + |AuthPrefix|] != ';'
  }

  /** `i` is where the leftmost match begins. */
  predicate LeftmostMatch(s: string, i: nat) {
    i < |s| && MatchStart(s, i) && forall j :: 0 <= j < i ==> !MatchStart(s, j)
  }

  /** `t` is the maximal run of non-`;` characters right after the `auth=` at `i`. */
  predicate TokenAt(s: string, i: nat, t: string) {
    var start := i + |AuthPrefix|;
    && start + |t| <= |s|
    && s[start..start + |t|] == t
    && (start + |t| == |s| || s[start + |t|] == ';')
  }

  /** The first position at or after `j` that holds `;`, or the end of `s`. */
  function RunEnd(s: string, j: nat): (e: nat)
    requires j <= |s|
    ensures j <= e <= |s|
    ensures forall k :: j <= k < e ==> s[k] != ';'
    ensures e == |s| || s[e] == ';'
    decreases |s| - j
  {
    if j == |s| || s[j] == ';' then j else RunEnd(s, j + 1)
  }

  /** The leftmost match at or after `from`. */
  function FindMatch(s: string, from: nat): (r: Option<nat>)
    requires from <= |s|
    ensures r.Some? ==> from <= r.value < |s| && MatchStart(s, r.value)
    ensures forall i :: from <= i < (if r.Some? then r.value else |s|) ==> !MatchStart(s, i)
    decreases |s| - from
  {
    if from == |s| then None
    else if MatchStart(s, from) then Some(from)
    else FindMatch(s, from + 1)
  }

  /** The first capture group of `auth=([^;]+)` on a `Set-Cookie` value, if the expression matches. */
  function ExtractToken(setCookie: string): (r: Option<string>)
    ensures r.None? <==> forall i :: 0 <= i < |setCookie| ==> !MatchStart(setCookie, i)
    ensures r.Some? ==> r.value != [] && ';' !in r.value
    ensures r.Some? ==> exists i :: LeftmostMatch(setCookie, i) && TokenAt(setCookie, i, r.value)
  {
    match FindMatch(setCookie, 0)
    case None => None
    case Some(i) =>
      var start := i + |AuthPrefix|;
      var t := setCookie[start..RunEnd(setCookie, start)];
      assert TokenAt(setCookie, i, t);
      assert forall k :: 0 <= k < |t| ==> t[k] == setCookie[start + k];
      Some(t)
  }

  /** The token after one reply: the harvested one, or the old one when there is none. */
  function UpdateToken(token: string, setCookie: string): (r: string)
    ensures (forall i :: 0 <= i < |setCookie| ==> !MatchStart(setCookie, i)) ==> r == token
    ensures (exists i :: 0 <= i < |setCookie| && MatchStart(setCookie, i))
            ==> r != [] && ';' !in r && exists i :: LeftmostMatch(setCookie, i) && TokenAt(setCookie, i, r)
  {
    ExtractToken(setCookie).GetOr(token)
  }

  /** The token after a series of replies, updated one reply at a time. */
  function Harvest(token: string, setCookies: seq<string>): string
    decreases |setCookies|
  {
    if setCookies == [] then token else Harvest(UpdateToken(token, setCookies[0]), setCookies[1..])
  }

  /** The token issued by the latest reply that issued one. */
  function LastIssued(setCookies: seq<string>): Option<string>
    decreases |setCookies|
  {
    if setCookies == [] then None
    else match ExtractToken(setCookies[|setCookies| - 1])
      case Some(t) => Some(t)
      case None => LastIssued(setCookies[..|setCookies| - 1])
  }

  /** Harvesting one more reply is one more update. */
  lemma {:induction false} HarvestSnoc(token: string, setCookies: seq<string>, last: string)
    ensures Harvest(token, setCookies + [last]) == UpdateToken(Harvest(token, setCookies), last)
    decreases |setCookies|
  {
    if setCookies != [] {
      assert (setCookies + [last])[1..] == setCookies[1..] + [last];
      HarvestSnoc(UpdateToken(token, setCookies[0]), setCookies[1..], last);
    }
  }

  /** The fold keeps exactly the most recently issued token, or the initial one if
      no reply issued any. */
  lemma {:induction false} HarvestIsLastIssued(token: string, setCookies: seq<string>)
    ensures Harvest(token, setCookies) == LastIssued(setCookies).GetOr(token)
    decreases |setCookies|
  {
    if setCookies != [] {
      var init := setCookies[..|setCookies| - 1];
      var last := setCookies[|setCookies| - 1];
      assert setCookies == init + [last];
      HarvestSnoc(token, init, last);
      HarvestIsLastIssued(token, init);
    }
  }

  /** A cookie that starts with `auth=` and a token yields that token, whatever follows its `;`. */
  lemma IssuedTokenRoundTrip(t: string, rest: string)
    requires t != [] && ';' !in t
    ensures ExtractToken(AuthPrefix + t) == Some(t)
    ensures ExtractToken(AuthPrefix + t + ";" + rest) == Some(t)
  {
    ExtractAtStart(t, []);
    assert AuthPrefix + t + [] == AuthPrefix + t;
    ExtractAtStart(t, ";" + rest);
    assert AuthPrefix + t + (";" + rest) == AuthPrefix + t + ";" + rest;
  }

  /** A token right at the start of the cookie, up to its `;` or the end, is the one extracted. */
  lemma ExtractAtStart(t: string, rest: string)
    requires t != [] && ';' !in t
    requires rest == [] || rest[0] == ';'
    ensures ExtractToken(AuthPrefix + t + rest) == Some(t)
  {
    var s := AuthPrefix + t + rest;
    var start := |AuthPrefix|;
    assert s[..start] == AuthPrefix;
    assert s[start] == t[0];
    assert MatchStart(s, 0);
    assert s[start..start + |t|] == t;
  }

  /** A token announced after a stretch in which the expression matches nowhere is the one extracted. */
  lemma ExtractAfterMatchFreePrefix(p: string, t: string, rest: string)
    requires t != [] && ';' !in t
    requires rest == [] || rest[0] == ';'
    requires forall i :: 0 <= i < |p| ==> !MatchStart(p + AuthPrefix + t + rest, i)
    ensures ExtractToken(p + AuthPrefix + t + rest) == Some(t)
  {
    var s := p + AuthPrefix + t + rest;
    var start := |p| + |AuthPrefix|;
    assert s[|p|..start] == AuthPrefix;
    assert s[start] == t[0];
    assert MatchStart(s, |p|);
    assert s[start..start + |t|] == t;
  }

  /** A character that differs from the expression's text rules out a match there. */
  lemma NoMatchAt(s: string, i: nat, j: nat)
    requires i <= j < i + |AuthPrefix| && j < |s| && s[j] != AuthPrefix[j - i]
    ensures !MatchStart(s, i)
  {
    if i + |AuthPrefix| <= |s| {
      assert s[i..i + |AuthPrefix|][j - i] == s[j];
    }
  }

  /** The example of a cookie header carrying other attributes around the token. */
  lemma ExtractFromCookieHeader()
    ensures ExtractToken("HttpOnly; " + "auth=" + "XYZ123" + "; Path=/") == Some("XYZ123")
  {
    var p, t, rest := "HttpOnly; ", "XYZ123", "; Path=/";
    var s := p + AuthPrefix + t + rest;
    assert 'a' !in p;
    forall i | 0 <= i < |p| ensures !MatchStart(s, i) {
      assert p[i] in p;
      NoMatchAt(s, i, i);
    }
    ExtractAfterMatchFreePrefix(p, t, rest);
  }
}
