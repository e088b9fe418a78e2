/** The content filter of a search session (main.js:247-298): whether a
    detected sponsored result may be engaged, decided by a blacklist and an
    optional whitelist of case-insensitive substrings. */
module ContentFilter {
  import opened Text

  /** A detected sponsored result: the title shown and the link it points to. */
  datatype Ad = Ad(title: string, href: string)

  /** The `blacklist` and `whitelist` sections of the session configuration. */
  datatype FilterConfig = FilterConfig(
    blacklistUrls: seq<string>,
    blacklistTitles: seq<string>,
    blacklistDomains: seq<string>,
    whitelistEnabled: bool,
    whitelistUrls: seq<string>,
    whitelistTitles: seq<string>)

  /** The configuration as shipped: one empty URL entry, one empty title
      entry, no domains, whitelist disabled (main.js:23-37). */
  const ShippedFilter := FilterConfig([""], [""], [], false, [], [])

  datatype Reason = Blacklist | Whitelist | Ok

  /** The `{ click, reason }` record `shouldClickAd` returns. */
  datatype Decision = Decision(click: bool, reason: Reason)

  /** The shape of the search engine's ad-redirect links, which every
      sponsored result carries; it is exempt from the blacklist. */
  predicate IsAdRedirect(urlLower: string) {
    Contains(urlLower, "/aclk?") || Contains(urlLower, "/url?")
  }

  /** Some non-empty entry, lowercased, occurs in `text` (a blacklist loop:
      an empty entry is falsy and skipped). */
  function BlockedBy(entries: seq<string>, text: string): (b: bool)
    ensures b <==> SomeEntryIn(entries, text)
    decreases |entries|
  {
    if entries == [] then false
    else if entries[0] != "" && Contains(text, Lower(entries[0])) then true
    else
      var b := BlockedBy(entries[1..], text);
      assert forall k :: 1 <= k < |entries| ==> entries[k] == entries[1..][k - 1];
      b
  }

  /** Some entry, lowercased, occurs in `text` (a whitelist loop: an empty
      entry is not skipped and matches everything). */
  function AllowedBy(entries: seq<string>, text: string): (b: bool)
    ensures b <==> AnyEntryIn(entries, text)
    decreases |entries|
  {
    if entries == [] then false
    else if Contains(text, Lower(entries[0])) then true
    else
      var b := AllowedBy(entries[1..], text);
      assert forall k :: 1 <= k < |entries| ==> entries[k] == entries[1..][k - 1];
      b
  }

  /** Some non-empty entry of `entries`, lowercased, occurs in `text`. */
  ghost predicate SomeEntryIn(entries: seq<string>, text: string) {
    exists k :: 0 <= k < |entries| && entries[k] != "" && Contains(text, Lower(entries[k]))
  }

  /** Some entry of `entries`, empty or not, lowercased, occurs in `text`. */
  ghost predicate AnyEntryIn(entries: seq<string>, text: string) {
    exists k :: 0 <= k < |entries| && Contains(text, Lower(entries[k]))
  }

  /** `isBlacklisted`: a redirect-shaped link is never blacklisted; otherwise
      the ad is blacklisted iff a non-empty URL or domain entry occurs in the
      lowercased link or a non-empty title entry occurs in the lowercased title. */
  function IsBlacklisted(ad: Ad, cfg: FilterConfig): (b: bool)
    ensures IsAdRedirect(Lower(ad.href)) ==> !b
    ensures !IsAdRedirect(Lower(ad.href)) ==>
              (b <==> SomeEntryIn(cfg.blacklistUrls, Lower(ad.href))
                      || SomeEntryIn(cfg.blacklistTitles, Lower(ad.title))
                      || SomeEntryIn(cfg.blacklistDomains, Lower(ad.href)))
  {
    var urlLower := Lower(ad.href);
    var titleLower := Lower(ad.title);
    if IsAdRedirect(urlLower) then false
    else (BlockedBy(cfg.blacklistUrls, urlLower)
          || BlockedBy(cfg.blacklistTitles, titleLower)
          || BlockedBy(cfg.blacklistDomains, urlLower))
  }

  /** `isWhitelisted`: everything passes while the whitelist is disabled;
      otherwise some URL entry must occur in the lowercased link or some title
      entry in the lowercased title. */
  function IsWhitelisted(ad: Ad, cfg: FilterConfig): (b: bool)
    ensures !cfg.whitelistEnabled ==> b
    ensures cfg.whitelistEnabled ==>
              (b <==> AnyEntryIn(cfg.whitelistUrls, Lower(ad.href))
                      || AnyEntryIn(cfg.whitelistTitles, Lower(ad.title)))
  {
    !cfg.whitelistEnabled
    || AllowedBy(cfg.whitelistUrls, Lower(ad.href))
    || AllowedBy(cfg.whitelistTitles, Lower(ad.title))
  }

  /** `shouldClickAd`: the blacklist is consulted first, then the whitelist;
      the first rule that rejects gives the reason. */
  function ShouldClickAd(ad: Ad, cfg: FilterConfig): (d: Decision)
    ensures d.reason == Blacklist <==> IsBlacklisted(ad, cfg)
    ensures d.reason == Whitelist <==> !IsBlacklisted(ad, cfg) && !IsWhitelisted(ad, cfg)
    ensures d.reason == Ok <==> !IsBlacklisted(ad, cfg) && IsWhitelisted(ad, cfg)
    ensures d.click <==> d.reason == Ok
  {
    if IsBlacklisted(ad, cfg) then Decision(false, Blacklist)
    else if !IsWhitelisted(ad, cfg) then Decision(false, Whitelist)
    else Decision(true, Ok)
  }

  /** A blacklist made only of empty entries rejects nothing. */
  lemma EmptyEntriesBlockNothing(ad: Ad, cfg: FilterConfig)
    requires forall k :: 0 <= k < |cfg.blacklistUrls| ==> cfg.blacklistUrls[k] == ""
    requires forall k :: 0 <= k < |cfg.blacklistTitles| ==> cfg.blacklistTitles[k] == ""
    requires forall k :: 0 <= k < |cfg.blacklistDomains| ==> cfg.blacklistDomains[k] == ""
    ensures !IsBlacklisted(ad, cfg)
  {
  }

  /** With the shipped configuration every detected ad is engaged. */
  lemma ShippedFilterAcceptsAll(ad: Ad)
    ensures ShouldClickAd(ad, ShippedFilter) == Decision(true, Ok)
  {
    EmptyEntriesBlockNothing(ad, ShippedFilter);
  }

  /** Matching looks only at the lowercased link and title: an ad and its
      lowercased copy are classified alike. */
  lemma ClassificationIgnoresCase(ad: Ad, cfg: FilterConfig)
    ensures ShouldClickAd(Ad(Lower(ad.title), Lower(ad.href)), cfg) == ShouldClickAd(ad, cfg)
  {
    LowerIdempotent(ad.title);
    LowerIdempotent(ad.href);
  }

  /** A link of the ad-redirect shape is rejected, if at all, only by the
      whitelist, whatever the blacklist holds. */
  lemma RedirectNeverBlacklisted(ad: Ad, cfg: FilterConfig)
    requires Contains(Lower(ad.href), "/aclk?") || Contains(Lower(ad.href), "/url?")
    ensures ShouldClickAd(ad, cfg).reason != Blacklist
    ensures ShouldClickAd(ad, cfg).click == IsWhitelisted(ad, cfg)
  {
  }
}
