/** The candidate ads of one results page (main.js:226-229, 669-724,
    804-818): their identifier, the de-duplicated union of the four page
    heuristics, and the keyword scan of a landing page. */
module Candidates {
  import opened Text
  import opened ContentFilter

  // ---------------------------------------------------------------------
  // Ad identifier
  // ---------------------------------------------------------------------

  /** The character class `[a-zA-Z0-9]`. */
  predicate IsAlnum(c: char) {
    ('a' <= c <= 'z') || ('A' <= c <= 'Z') || ('0' <= c <= '9')
  }

  /** `replace(/[^a-zA-Z0-9]/g, '')`: the alphanumeric characters, in order. */
  function KeepAlnum(s: string): (r: string)
    ensures |r| <= |s|
    ensures forall k :: 0 <= k < |r| ==> IsAlnum(r[k])
    ensures forall c :: c in r <==> c in s && IsAlnum(c)
    decreases |s|
  {
    if s == [] then []
    else
      var rest := KeepAlnum(s[1..]);
      assert forall c :: c in s <==> c == s[0] || c in s[1..];
      if IsAlnum(s[0]) then [s[0]] + rest else rest
  }

  /** Stripping works character by character and keeps order and repeats:
      with the one-character case fixed by `KeepAlnum`'s contract, this
      determines the result. */
  lemma {:induction false} KeepAlnumAppend(a: string, b: string)
    ensures KeepAlnum(a + b) == KeepAlnum(a) + KeepAlnum(b)
    decreases |a|
  {
    if a == [] {
      assert a + b == b;
    } else {
      assert (a + b)[0] == a[0] && (a + b)[1..] == a[1..] + b;
      KeepAlnumAppend(a[1..], b);
    }
  }

  /** `getAdIdentifier`: the position, an underscore, and the alphanumeric
      characters of the first 30 characters of the title. */
  function AdIdentifier(ad: Ad, index: nat): string {
    var head := if |ad.title| <= 30 then ad.title else ad.title[..30];
    NatToString(index) + "_" + KeepAlnum(head)
  }

  /** The identifier starts with the decimal position and its first
      underscore-separated field gives the position back. */
  lemma AdIdentifierIndex(ad: Ad, index: nat)
    ensures Split(AdIdentifier(ad, index), '_')[0] == NatToString(index)
    ensures ParseDigits(Split(AdIdentifier(ad, index), '_')[0]) == index
  {
    var head := if |ad.title| <= 30 then ad.title else ad.title[..30];
    var digits := NatToString(index);
    assert '_' !in digits by {
      forall k | 0 <= k < |digits| ensures digits[k] != '_' {
        assert IsDigit(digits[k]);
      }
    }
    assert AdIdentifier(ad, index) == digits + ['_'] + KeepAlnum(head);
    SplitAtFirst(digits, KeepAlnum(head), '_');
    ParseNatToString(index);
  }

  /** Ads at different positions never share an identifier, whatever their titles. */
  lemma AdIdentifierSeparatesPositions(a: Ad, i: nat, b: Ad, j: nat)
    requires i != j
    ensures AdIdentifier(a, i) != AdIdentifier(b, j)
  {
    AdIdentifierIndex(a, i);
    AdIdentifierIndex(b, j);
  }

  // ---------------------------------------------------------------------
  // De-duplicated union of the page heuristics
  // ---------------------------------------------------------------------

  predicate Distinct(s: seq<Ad>) {
    forall i, j :: 0 <= i < j < |s| ==> s[i] != s[j]
  }

  /** Insertion into a JavaScript `Set` of `{title, href}` keys, read back in
      insertion order: each ad at its first occurrence. */
  function Dedup(xs: seq<Ad>): (d: seq<Ad>)
    ensures forall x :: x in d <==> x in xs
    ensures Distinct(d)
    ensures |d| <= |xs|
    decreases |xs|
  {
    if xs == [] then []
    else
      var init := xs[..|xs| - 1];
      var x := xs[|xs| - 1];
      assert xs == init + [x];
      var d := Dedup(init);
      if x in d then d else d + [x]
  }

  /** Position of the first occurrence of `x`. */
  function FirstIndex(xs: seq<Ad>, x: Ad): (k: nat)
    requires x in xs
    ensures k < |xs| && xs[k] == x && x !in xs[..k]
    decreases |xs|
  {
    if xs[0] == x then 0
    else
      var k := FirstIndex(xs[1..], x);
      assert xs[..k + 1] == [xs[0]] + xs[1..][..k];
      k + 1
  }

  lemma FirstIndexUnique(xs: seq<Ad>, x: Ad, k: nat)
    requires k < |xs| && xs[k] == x && x !in xs[..k]
    ensures FirstIndex(xs, x) == k
  {
  }

  lemma FirstIndexAppend(p: seq<Ad>, x: Ad, y: Ad)
    requires y in p
    ensures FirstIndex(p + [x], y) == FirstIndex(p, y)
  {
    var k := FirstIndex(p, y);
    assert (p + [x])[..k] == p[..k];
    FirstIndexUnique(p + [x], y, k);
  }

  /** The union keeps the order in which the ads were first found. */
  lemma {:induction false} DedupKeepsFirstSeenOrder(xs: seq<Ad>)
    ensures forall i, j :: 0 <= i < j < |Dedup(xs)| ==>
      FirstIndex(xs, Dedup(xs)[i]) < FirstIndex(xs, Dedup(xs)[j])
    decreases |xs|
  {
    if xs != [] {
      var init := xs[..|xs| - 1];
      var x := xs[|xs| - 1];
      assert xs == init + [x];
      var d := Dedup(init);
      DedupKeepsFirstSeenOrder(init);
      forall y | y in init ensures FirstIndex(xs, y) == FirstIndex(init, y) {
        FirstIndexAppend(init, x, y);
      }
      if x !in d {
        assert x !in init;
        assert xs[..|xs| - 1] == init;
        FirstIndexUnique(xs, x, |xs| - 1);
      }
    }
  }

  /** An ad list that is already free of repeats passes through unchanged. */
  lemma {:induction false} DedupOfDistinct(xs: seq<Ad>)
    requires Distinct(xs)
    ensures Dedup(xs) == xs
    decreases |xs|
  {
    if xs != [] {
      var init := xs[..|xs| - 1];
      assert Distinct(init);
      DedupOfDistinct(init);
      assert xs == init + [xs[|xs| - 1]];
    }
  }

  /** The collection step of `_collectSponsoredLinks`: the ads found by the
      labelled-container, top-block, redirect-link and ad-block heuristics,
      inserted in that order into a set of keys. */
  method CollectSponsoredLinks(labelled: seq<Ad>, topBlock: seq<Ad>, redirects: seq<Ad>, adBlocks: seq<Ad>)
    returns (ads: seq<Ad>)
    ensures ads == Dedup(labelled + topBlock + redirects + adBlocks)
  {
    var found := labelled + topBlock + redirects + adBlocks;
    var results: set<Ad> := {};
    ads := [];
    for i := 0 to |found|
      invariant ads == Dedup(found[..i])
      invariant forall x :: x in results <==> x in ads
    {
      assert found[..i + 1][..i] == found[..i];
      if found[i] !in results {
        results := results + {found[i]};
        ads := ads + [found[i]];
      }
    }
    assert found[..|found|] == found;
  }

  // ---------------------------------------------------------------------
  // Keyword scan of a landing page
  // ---------------------------------------------------------------------

  /** `CONFIG.target.detectKeywords`. */
  const TargetKeywords: seq<string> := ["Banco santiago del estero", "santafe online"]

  /** `keywords.filter(kw => bodyText.toLowerCase().includes(kw.toLowerCase()))`. */
  function DetectKeywords(body: string, keywords: seq<string>): (found: seq<string>)
    ensures |found| <= |keywords|
    ensures forall kw :: kw in found <==> kw in keywords && Contains(Lower(body), Lower(kw))
    decreases |keywords|
  {
    if keywords == [] then []
    else
      var rest := DetectKeywords(body, keywords[1..]);
      assert forall kw :: kw in keywords <==> kw == keywords[0] || kw in keywords[1..];
      if Contains(Lower(body), Lower(keywords[0])) then [keywords[0]] + rest else rest
  }

  /** `filter` keeps the keywords in their order, repeats included: with
      the one-keyword case fixed by `DetectKeywords`' contract, this
      determines the result. */
  lemma {:induction false} DetectKeywordsAppend(body: string, a: seq<string>, b: seq<string>)
    ensures DetectKeywords(body, a + b) == DetectKeywords(body, a) + DetectKeywords(body, b)
    decreases |a|
  {
    if a == [] {
      assert a + b == b;
    } else {
      assert (a + b)[0] == a[0] && (a + b)[1..] == a[1..] + b;
      DetectKeywordsAppend(body, a[1..], b);
    }
  }

  /** The scan does not depend on the case of the page text. */
  lemma {:induction false} DetectionIgnoresCase(body: string, keywords: seq<string>)
    ensures DetectKeywords(Lower(body), keywords) == DetectKeywords(body, keywords)
    decreases |keywords|
  {
    LowerIdempotent(body);
    if keywords != [] {
      DetectionIgnoresCase(body, keywords[1..]);
    }
  }
}
