/**
 * The official faucet claim. Wallet k is paired with the k-th non-blank line
 * of `proxies.txt`, trimmed; the proxy's session id is read from its text
 * for the log; every wallet sends one claim request whatever happened to the
 * others; and when the user asked to keep claiming, the next run is put off
 * by a random 24 h 30 min to 26 h.
 */
module FaucetClaim {
  import opened Wrappers
  import opened Draws
  import opened Text
  import opened Chain

  const SessionMarker: string := "-session-"
  const TimeMarker: string := "-sessTime"

  /**
   * `/-session-([^-]+)-sessTime/` matches at position p with a group of m
   * characters: the marker, m >= 1 characters none of which is '-', then
   * "-sessTime".
   */
  predicate MatchesAt(s: string, p: nat, m: nat)
  {
    && p + |SessionMarker| + m + |TimeMarker| <= |s|
    && s[p..p + |SessionMarker|] == SessionMarker
    && m >= 1
    && (forall i :: p + |SessionMarker| <= i < p + |SessionMarker| + m ==> s[i] != '-')
    && s[p + |SessionMarker| + m..p + |SessionMarker| + m + |TimeMarker|] == TimeMarker
  }

  /** At a given position the group length is determined: the group ends at the first '-'. */
  lemma MatchLengthUnique(s: string, p: nat, m1: nat, m2: nat)
    requires MatchesAt(s, p, m1) && MatchesAt(s, p, m2)
    ensures m1 == m2
  {
    MatchLengthIsRun(s, p);
  }

  /** The length of the run of characters other than '-' that starts at i. */
  function RunLength(s: string, i: nat): (n: nat)
    requires i <= |s|
    decreases |s| - i
    ensures i + n <= |s|
    ensures forall j :: i <= j < i + n ==> s[j] != '-'
    ensures i + n == |s| || s[i + n] == '-'
  {
    if i == |s| || s[i] == '-' then 0 else 1 + RunLength(s, i + 1)
  }

  /** A match at p has for its group the whole run of characters other than '-' after the marker. */
  lemma MatchLengthIsRun(s: string, p: nat)
    ensures forall m: nat :: MatchesAt(s, p, m) ==> m == RunLength(s, p + |SessionMarker|)
  {
    forall m: nat | MatchesAt(s, p, m)
      ensures m == RunLength(s, p + |SessionMarker|)
    {
      var start := p + |SessionMarker|;
      assert s[start + m] == s[start + m..start + m + |TimeMarker|][0] == '-';
    }
  }

  /** The group length of the match at p, when the pattern matches there. */
  function MatchAt(s: string, p: nat): (r: Option<nat>)
    ensures r.Some? ==> MatchesAt(s, p, r.value)
    ensures r.None? ==> forall m: nat :: !MatchesAt(s, p, m)
  {
    var start := p + |SessionMarker|;
    if start > |s| || s[p..start] != SessionMarker then None
    else
      var m := RunLength(s, start);
      MatchLengthIsRun(s, p);
      if m >= 1 && start + m + |TimeMarker| <= |s| && s[start + m..start + m + |TimeMarker|] == TimeMarker then
        Some(m)
      else
        None
  }

  /** The leftmost match at or after p: its position and group length. */
  function FindMatch(s: string, p: nat): (r: Option<(nat, nat)>)
    decreases |s| - p
    ensures r.Some? ==> p <= r.value.0 && MatchesAt(s, r.value.0, r.value.1)
    ensures r.Some? ==> forall q: nat, m: nat :: p <= q < r.value.0 ==> !MatchesAt(s, q, m)
    ensures r.None? ==> forall q: nat, m: nat :: p <= q ==> !MatchesAt(s, q, m)
  {
    if p >= |s| then None
    else
      match MatchAt(s, p)
      case Some(m) => Some((p, m))
      case None => FindMatch(s, p + 1)
  }

  /**
   * `extractProxyId`: "None" without a proxy (null or the empty string);
   * otherwise the group of the leftmost match, or "Unknown" when the
   * pattern does not occur. The result is never empty and never holds '-'.
   */
  function ExtractProxyId(proxy: Option<string>): (id: string)
    ensures proxy.None? || proxy == Some("") ==> id == "None"
    ensures id != [] && '-' !in id
  {
    if proxy.None? || proxy.value == "" then "None"
    else
      var s := proxy.value;
      match FindMatch(s, 0)
      case Some((p, m)) =>
        var group := s[p + |SessionMarker|..p + |SessionMarker| + m];
        assert forall k :: 0 <= k < |group| ==> group[k] == s[p + |SessionMarker| + k];
        group
      case None => "Unknown"
  }

  /** A proxy in which the pattern occurs gives the group of its leftmost match. */
  lemma ExtractProxyIdLeftmost(s: string, p: nat, m: nat)
    requires MatchesAt(s, p, m)
    requires forall q: nat, m': nat :: q < p ==> !MatchesAt(s, q, m')
    ensures ExtractProxyId(Some(s)) == s[p + |SessionMarker|..p + |SessionMarker| + m]
  {
    var r := FindMatch(s, 0);
    assert r.Some?;
    assert r.value.0 == p;
    MatchLengthUnique(s, p, m, r.value.1);
  }

  /** A proxy in which the pattern does not occur gives "Unknown". */
  lemma ExtractProxyIdNoMatch(s: string)
    requires s != ""
    requires forall q: nat, m: nat :: !MatchesAt(s, q, m)
    ensures ExtractProxyId(Some(s)) == "Unknown"
  {
    assert FindMatch(s, 0).None?;
  }

  /** `.filter(line => line.trim() !== '')`: the lines that are not whitespace only, untrimmed, in order. */
  function NonBlankLines(lines: seq<string>): (kept: seq<string>)
    ensures |kept| <= |lines|
  {
    if lines == [] then []
    else
      var n := |lines| - 1;
      var before := NonBlankLines(lines[..n]);
      if Trim(lines[n]) != "" then before + [lines[n]] else before
  }

  /** The filter keeps exactly the lines whose trimmed text is not empty. */
  lemma {:induction false} NonBlankLinesKept(lines: seq<string>)
    ensures var kept := NonBlankLines(lines);
            && (forall k :: 0 <= k < |kept| ==> kept[k] in lines && Trim(kept[k]) != "")
            && (forall line :: line in lines && Trim(line) != "" ==> line in kept)
  {
    if lines != [] {
      var n := |lines| - 1;
      NonBlankLinesKept(lines[..n]);
      assert lines == lines[..n] + [lines[n]];
    }
  }

  /** The filter keeps the original order: filtering two pieces is filtering each. */
  lemma {:induction false} NonBlankLinesAppend(a: seq<string>, b: seq<string>)
    ensures NonBlankLines(a + b) == NonBlankLines(a) + NonBlankLines(b)
  {
    if b == [] {
      assert a + b == a;
    } else {
      var n := |b| - 1;
      assert (a + b)[..|a + b| - 1] == a + b[..n];
      assert (a + b)[|a + b| - 1] == b[n];
      NonBlankLinesAppend(a, b[..n]);
      ConcatAssociative(NonBlankLines(a), NonBlankLines(b[..n]), [b[n]]);
    }
  }

  /** The proxy list read from the text of `proxies.txt`. */
  function ProxyList(content: string): (proxies: seq<string>)
    ensures forall k :: 0 <= k < |proxies| ==> !IsBlank(proxies[k])
  {
    var proxies := NonBlankLines(SplitLines(content));
    NonBlankLinesKept(SplitLines(content));
    forall k | 0 <= k < |proxies|
      ensures !IsBlank(proxies[k])
    {
      TrimEmptyIffBlank(proxies[k]);
    }
    proxies
  }

  /**
   * `proxies[wallet.id - 1] ? proxies[wallet.id - 1].trim() : null`: the
   * trimmed line of index id - 1 when there is one, null otherwise.
   */
  function ProxyFor(proxies: seq<string>, id: int): (proxy: Option<string>)
    ensures proxy.Some? ==> 1 <= id <= |proxies| && proxy.value == Trim(proxies[id - 1])
    ensures 1 <= id <= |proxies| && proxies[id - 1] != "" ==> proxy.Some?
  {
    var proxyIndex := id - 1;
    if 0 <= proxyIndex < |proxies| && proxies[proxyIndex] != "" then Some(Trim(proxies[proxyIndex])) else None
  }

  /**
   * With the list read from `proxies.txt`, wallet id k gets a proxy exactly
   * when there are at least k non-blank lines, and that proxy is not empty,
   * so its id is read from its text.
   */
  lemma ProxyForListed(content: string, id: int)
    ensures var proxies := ProxyList(content);
            && (ProxyFor(proxies, id).Some? <==> 1 <= id <= |proxies|)
            && (ProxyFor(proxies, id).Some? ==> ProxyFor(proxies, id).value != "")
  {
    var proxies := ProxyList(content);
    if 1 <= id <= |proxies| {
      var line := proxies[id - 1];
      assert !IsBlank(line);
      assert line != "";
      TrimEmptyIffBlank(line);
    }
  }

  /** What `processWallet` does with the chain: one claim request for the wallet's address through its proxy. */
  datatype ClaimRequest = ClaimRequest(address: string, proxy: Option<string>, proxyId: string)

  /** The request `processWallet` makes for one wallet, given the proxy list. */
  function RequestFor(wallet: Wallet, proxies: seq<string>): ClaimRequest
  {
    var proxy := ProxyFor(proxies, wallet.id);
    ClaimRequest(wallet.address, proxy, ExtractProxyId(proxy))
  }

  /**
   * `processWallets`: every wallet, in file order, sends one claim request
   * through the proxy its id selects; a failed claim request is only logged, so it
   * never keeps a later wallet from claiming.
   */
  method ProcessWallets(wallets: seq<Wallet>, proxiesContent: string) returns (requests: seq<ClaimRequest>)
    ensures |requests| == |wallets|
    ensures forall i :: 0 <= i < |wallets| ==> requests[i] == RequestFor(wallets[i], ProxyList(proxiesContent))
  {
    var proxies := ProxyList(proxiesContent);
    requests := ClaimEach(wallets, proxies);
  }

  /** The `for (const wallet of wallets)` loop of `processWallets`. */
  method ClaimEach(wallets: seq<Wallet>, proxies: seq<string>) returns (requests: seq<ClaimRequest>)
    ensures |requests| == |wallets|
    ensures forall i :: 0 <= i < |wallets| ==> requests[i] == RequestFor(wallets[i], proxies)
  {
    requests := [];
    for i := 0 to |wallets|
      invariant |requests| == i
      invariant forall k :: 0 <= k < i ==> requests[k] == RequestFor(wallets[k], proxies)
    {
      var wallet := wallets[i];
      var proxyIndex := wallet.id - 1;
      var proxy: Option<string> := None;
      if 0 <= proxyIndex < |proxies| && proxies[proxyIndex] != "" {
        proxy := Some(Trim(proxies[proxyIndex]));
      }
      var proxyId := ExtractProxyId(proxy);
      var request := ClaimRequest(wallet.address, proxy, proxyId);
      assert request == RequestFor(wallets[i], proxies);
      requests := requests + [request];
    }
  }

  /** The pause before the next run, and its `${hours}h ${minutes}m` split. */
  datatype Delay = Delay(totalMinutes: nat, ms: nat, hours: nat, minutes: nat)

  /**
   * `claimLoop`'s pause: between 1470 and 1560 minutes (24 h 30 min to 26 h),
   * shown as whole hours and the remaining minutes, waited in milliseconds.
   */
  function NextClaimDelay(r: Draw): (d: Delay)
    ensures 1470 <= d.totalMinutes <= 1560
    ensures d.hours * 60 + d.minutes == d.totalMinutes && d.minutes < 60
    ensures 24 <= d.hours <= 26 && (d.hours == 24 ==> d.minutes >= 30) && (d.hours == 26 ==> d.minutes == 0)
    ensures d.ms == d.totalMinutes * 60000
  {
    var randomMinutes := RandomInt(r, 1470, 1560);
    Delay(randomMinutes, randomMinutes * 60 * 1000, randomMinutes / 60, randomMinutes % 60)
  }

  /** After a run, the next one is scheduled exactly when the first answer was "y" or "Y". */
  function ScheduleNext(keep: string, r: Draw): (next: Option<Delay>)
    ensures next.Some? <==> keep == "y" || keep == "Y"
    ensures next.Some? ==> next.value == NextClaimDelay(r)
  {
    var lowered := Lower(keep);
    assert lowered == "y" <==> keep == "y" || keep == "Y" by {
      if lowered == "y" {
        assert LowerChar(keep[0]) == 'y';
      }
    }
    if lowered == "y" then Some(NextClaimDelay(r)) else None
  }
}
