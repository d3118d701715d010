/**
 * What the three link transducers of cdf/features/links/streams.py share: the
 * dispatch on the `link_type` column, the nofollow combination key, the
 * `defaultdict`-style counters, URL references, errors, and the foreign helpers.
 */
module LinkStreams {
  import opened Wrappers
  import opened Text

  /** Cap of the `urls` samples of links, redirects and canonicals. */
  const UrlsCap: nat := 300

  /**
   * The foreign helpers `list_to_mask` (labels to bitmask) and
   * `is_link_internal` (labels and destination id to internal or not),
   * left uninterpreted: any pair of total functions.
   */
  datatype Helpers = Helpers(listToMask: seq<string> -> int, isLinkInternal: (seq<string>, int) -> bool)

  /** A URL as a document stores it: `{'url_id': id}` or `{'url_str': url}`. */
  datatype UrlRef = UrlId(id: int) | UrlStr(url: string)

  /** The exceptions `process_document` can raise. */
  datatype DocError =
    | MissingSection            // the document lacks the stream's section (KeyError)
    | InvalidHttpCode(code: string)  // `int(link_type[1:])` raises ValueError
    | NoErrorBucket(httpCode: int)   // `errors[None]` for an error code below 300 (KeyError)

  /** The branch of `process_document` taken for a `link_type`. */
  datatype LinkKind = Anchor | Redirect(code: string) | Canonical | Ignored

  /** The `if`/`elif` chain on `link_type`: "a", then any "r..." (its code after the r), then "canonical". */
  function Classify(linkType: string): (k: LinkKind)
    ensures k == Anchor <==> linkType == "a"
    ensures k.Redirect? <==> linkType != "a" && |linkType| > 0 && linkType[0] == 'r'
    ensures k.Redirect? ==> k.code == linkType[1..]
    ensures k == Canonical <==> linkType == "canonical"
  {
    if linkType == "a" then Anchor
    else if StartsWith(linkType, "r") then Redirect(linkType[1..])
    else if linkType == "canonical" then Canonical
    else Ignored
  }

  /** A link is follow when its only follow key is "follow". */
  predicate IsFollow(keys: seq<string>)
  {
    |keys| == 1 && keys[0] == "follow"
  }

  /** `_get_nofollow_combination_key`: the labels sorted, joined with `_`. */
  function CombinationKey(keys: seq<string>): string
  {
    Join(SortStrings(keys), "_")
  }

  /** The combination key does not depend on the order of the labels. */
  lemma CombinationKeyOrderIndependent(a: seq<string>, b: seq<string>)
    requires multiset(a) == multiset(b)
    ensures CombinationKey(a) == CombinationKey(b)
  {
    SortStringsOrderIndependent(a, b);
  }

  /** A combination counter read with a default of 0. */
  function Count(m: map<string, nat>, key: string): nat
  {
    if key in m then m[key] else 0
  }

  /** One more link under `key`, in a counter whose missing keys count 0. */
  function Bump(m: map<string, nat>, key: string): (r: map<string, nat>)
    ensures Count(r, key) == Count(m, key) + 1
    ensures forall k :: k != key ==> Count(r, k) == Count(m, k)
    ensures r.Keys == m.Keys + {key}
  {
    m[key := Count(m, key) + 1]
  }

  /** Appends `x` while the sample holds fewer than `cap` entries. */
  function Capped<T>(s: seq<T>, x: T, cap: nat): seq<T>
  {
    if |s| < cap then s + [x] else s
  }

  /** The first `n` entries of `s`, or all of them when there are fewer. */
  function Take<T>(s: seq<T>, n: nat): (r: seq<T>)
    ensures |r| == if |s| <= n then |s| else n
    ensures r == s[..|r|]
  {
    if |s| <= n then s else s[..n]
  }

  /** Appending under a cap keeps the first `cap` entries of everything appended. */
  lemma CappedTake<T>(s: seq<T>, x: T, rest: seq<T>, cap: nat)
    requires |s| <= cap
    ensures Take(Capped(s, x, cap) + rest, cap) == Take(s + [x] + rest, cap)
  {
    if |s| == cap {
      assert (s + rest)[..cap] == s;
      assert (s + [x] + rest)[..cap] == s;
    } else {
      assert Capped(s, x, cap) + rest == s + [x] + rest;
    }
  }

  predicate NoDuplicates<T(==)>(s: seq<T>)
  {
    forall i, j :: 0 <= i < j < |s| ==> s[i] != s[j]
  }

  /** Appending an element the sample lacks keeps it free of duplicates. */
  lemma NoDuplicatesAppend<T>(s: seq<T>, x: T)
    requires NoDuplicates(s) && x !in s
    ensures NoDuplicates(s + [x])
  {
  }

  // ---------------------------------------------------------------------------
  // The `<stream>_internal` / `<stream>_external` section of a document

  datatype FollowStats = FollowStats(total: nat, unique: nat)
  datatype NofollowStats = NofollowStats(total: nat, combinations: map<string, nat>)

  /** `outlinks_internal`, `outlinks_external` or `inlinks_internal`: the `nb` counters, the `urls` sample and its flag. */
  datatype Section = Section(
    total: nat,
    follow: FollowStats,
    nofollow: NofollowStats,
    unique: nat,
    urls: seq<(int, int)>,
    urlsExists: bool)

  const EmptySection := Section(0, FollowStats(0, 0), NofollowStats(0, map[]), 0, [], false)

  /** The `nb` counters agree: every link is follow or nofollow, and no unique count exceeds its total. */
  predicate CountsAgree(s: Section)
  {
    && s.follow.total + s.nofollow.total == s.total
    && s.follow.unique <= s.follow.total
    && s.unique <= s.total
  }

  /**
   * The `urls` sample against the transient sets `processed_*_link` and
   * `processed_*_url`: the sample is drawn from the recorded `(url, mask)` pairs,
   * every recorded pair's URL is recorded, and both sets are bounded by `nb.total`.
   */
  predicate SampleAgrees(urls: seq<(int, int)>, links: set<(int, int)>, dsts: set<int>, total: nat)
  {
    && (forall k :: 0 <= k < |urls| ==> urls[k] in links)
    && (forall l :: l in links ==> l.0 in dsts)
    && |urls| <= |links|
    && (links == {} <==> urls == [])
    && |dsts| <= |links| <= total
  }

  /** Recording one more link keeps the sample in agreement, free of duplicates and within the cap. */
  lemma SampleRecord(urls: seq<(int, int)>, links: set<(int, int)>, dsts: set<int>, total: nat, link: (int, int))
    requires SampleAgrees(urls, links, dsts, total) && NoDuplicates(urls) && |urls| <= UrlsCap
    ensures var urls' := if |urls| < UrlsCap && link !in links then urls + [link] else urls;
            && SampleAgrees(urls', links + {link}, dsts + {link.0}, total + 1)
            && NoDuplicates(urls') && |urls'| <= UrlsCap && urls' != []
  {
    if link in links {
      assert link.0 in dsts;
      assert links + {link} == links;
      assert dsts + {link.0} == dsts;
    } else {
      assert |links + {link}| == |links| + 1;
      if |urls| < UrlsCap {
        assert link !in urls;
        NoDuplicatesAppend(urls, link);
      }
    }
  }
}
