/**
 * `OutlinksStreamDef` (cdf/features/links/streams.py): folds the outgoing link
 * edges of one source URL into that URL's document.
 *
 * The document is a `Doc` value; `Step` is `process_document` on one edge,
 * `Run` is the stream of edges of one source, `PreProcess` and `PostProcess`
 * are `pre_process_document` and `post_process_document`. The class
 * `OutlinksDocument` is the mutable document these calls update in place.
 */
module Outlinks {
  import opened Wrappers
  import opened Text
  import opened LinkStreams

  /** `redirect.to.url`; `httpCode` is None when `int()` failed after the URL was written. */
  datatype RedirectUrl = RedirectUrl(target: UrlRef, httpCode: Option<int>)

  /** `canonical.to`: `equal` and `url`, written together by the first canonical edge. */
  datatype CanonicalUrl = CanonicalUrl(equal: bool, url: UrlRef)

  /**
   * One document. `present` says whether the document holds this stream's
   * sections at all; `working` whether the two transient sets
   * `processed_outlink_link` and `processed_outlink_url` exist.
   */
  datatype Doc = Doc(
    present: bool,
    internal: Section,
    external: Section,
    redirectTo: Option<RedirectUrl>,
    redirectExists: bool,
    canonicalTo: Option<CanonicalUrl>,
    canonicalExists: bool,
    working: bool,
    processedLink: set<(int, int)>,
    processedUrl: set<int>)

  /** A record of the `urllinks` stream: `(id, link_type, follow, dst_url_id, external_url)`. */
  datatype Edge = Edge(src: int, linkType: string, followKeys: seq<string>, dst: int, externalUrl: string)

  /** The document after a call, and the exception the call raised, if any. */
  datatype Outcome = Outcome(doc: Doc, error: Option<DocError>)

  // ---------------------------------------------------------------------------
  // Invariant of a document

  predicate WorkingSetsAgree(d: Doc)
  {
    SampleAgrees(d.internal.urls, d.processedLink, d.processedUrl, d.internal.total)
  }

  predicate Valid(d: Doc)
  {
    && CountsAgree(d.internal)
    && CountsAgree(d.external)
    && |d.internal.urls| <= UrlsCap
    && NoDuplicates(d.internal.urls)
    && (d.internal.urlsExists <==> d.internal.urls != [])
    && d.external.urls == [] && !d.external.urlsExists
    && (d.redirectExists ==> d.redirectTo.Some?)
    && (d.canonicalExists <==> d.canonicalTo.Some?)
    && (d.working ==> WorkingSetsAgree(d))
  }

  // ---------------------------------------------------------------------------
  // The calls

  /** The zero-filled document the stream framework hands over. */
  function Zeroed(present: bool): Doc
  {
    Doc(present, EmptySection, EmptySection, None, false, None, false, false, {}, {})
  }

  /** The zero-filled document is valid, and has no transient sets yet. */
  lemma ZeroedValid(present: bool)
    ensures Valid(Zeroed(present)) && !Zeroed(present).working
  {
  }

  /** `pre_process_document`: fresh, empty transient sets. */
  function PreProcess(d: Doc): (r: Doc)
    ensures r.working && r.processedLink == {} && r.processedUrl == {}
  {
    d.(working := true, processedLink := {}, processedUrl := {})
  }

  /**
   * Pre-processing keeps a document valid while its sample is empty, the state the
   * stream framework calls it in; it touches nothing but the transient sets.
   */
  lemma PreProcessValid(d: Doc)
    requires Valid(d) && d.internal.urls == []
    ensures var r := PreProcess(d);
            && Valid(r)
            && r.(working := d.working, processedLink := d.processedLink, processedUrl := d.processedUrl) == d
  {
    var r := PreProcess(d);
    assert WorkingSetsAgree(r);
  }

  /** The `nb` counters of one anchor edge: `total`, then `follow` or `nofollow`. */
  function CountAnchor(s: Section, follow: bool, newUnique: bool, key: string): Section
  {
    var s1 := s.(total := s.total + 1);
    if follow then
      s1.(follow := FollowStats(s.follow.total + 1, s.follow.unique + (if newUnique then 1 else 0)))
    else
      s1.(nofollow := NofollowStats(s.nofollow.total + 1, Bump(s.nofollow.combinations, key)))
  }

  /** The anchor branch, lines 347-382. */
  function AnchorStep(d: Doc, e: Edge, h: Helpers): Doc
  {
    var internal := h.isLinkInternal(e.followKeys, e.dst);
    var follow := IsFollow(e.followKeys);
    var link := (e.dst, h.listToMask(e.followKeys));
    var seen := link in d.processedLink;
    var key := CombinationKey(e.followKeys);
    if internal then
      var s := CountAnchor(d.internal, follow, !seen, key);
      if e.dst > 0 then
        d.(internal := s.(urls := if |s.urls| < UrlsCap && !seen then s.urls + [link] else s.urls,
                          urlsExists := true),
           processedUrl := d.processedUrl + {e.dst},
           processedLink := d.processedLink + {link})
      else
        d.(internal := s)
    else
      d.(external := CountAnchor(d.external, follow, false, key))
  }

  /** Where a redirect points: the external URL when the destination id is -1. */
  function RedirectTarget(e: Edge): UrlRef
  {
    if e.dst == -1 then UrlStr(e.externalUrl) else UrlId(e.dst)
  }

  /**
   * The redirect branch, lines 384-393: `url` is replaced before `int()` runs,
   * so a code that does not parse leaves the new URL without `http_code`.
   */
  function RedirectStep(d: Doc, e: Edge, code: string): Outcome
  {
    match ParseInt(code)
    case None => Outcome(d.(redirectTo := Some(RedirectUrl(RedirectTarget(e), None))), Some(InvalidHttpCode(code)))
    case Some(c) => Outcome(d.(redirectTo := Some(RedirectUrl(RedirectTarget(e), Some(c))), redirectExists := true), None)
  }

  /** What the first canonical edge records. */
  function CanonicalOf(e: Edge): CanonicalUrl
  {
    CanonicalUrl(e.src == e.dst, if e.dst > 0 then UrlId(e.dst) else UrlStr(e.externalUrl))
  }

  /** The canonical branch, lines 395-405: only the first canonical edge is kept. */
  function CanonicalStep(d: Doc, e: Edge): Doc
  {
    if d.canonicalTo.Some? then d
    else d.(canonicalTo := Some(CanonicalOf(e)), canonicalExists := true)
  }

  /** `process_document` on one edge. */
  function Step(d: Doc, e: Edge, h: Helpers): Outcome
  {
    var k := Classify(e.linkType);
    if k == Ignored then Outcome(d, None)
    else if !d.present then Outcome(d, Some(MissingSection))
    else match k
      case Anchor => Outcome(AnchorStep(d, e, h), None)
      case Redirect(code) => RedirectStep(d, e, code)
      case Canonical => Outcome(CanonicalStep(d, e), None)
      case Ignored => Outcome(d, None)
  }

  /** `post_process_document`: `nb.unique` from the destination set, then both sets deleted. */
  function PostProcess(d: Doc): Doc
  {
    if !d.present then d
    else d.(internal := d.internal.(unique := |d.processedUrl|), working := false, processedLink := {}, processedUrl := {})
  }

  /** The edges of one source, in stream order; the first exception stops the stream. */
  function Run(d: Doc, es: seq<Edge>, h: Helpers): Outcome
    decreases |es|
  {
    if es == [] then Outcome(d, None)
    else
      var o := Step(d, es[0], h);
      if o.error.Some? then o else Run(o.doc, es[1..], h)
  }

  // ---------------------------------------------------------------------------
  // Edge classes used by the properties

  predicate IsRedirectEdge(e: Edge)
  {
    Classify(e.linkType).Redirect?
  }

  predicate IsCanonicalEdge(e: Edge)
  {
    Classify(e.linkType) == Canonical
  }

  /** An edge no call can fail on: every redirect code is an integer. */
  predicate WellFormed(e: Edge)
  {
    IsRedirectEdge(e) ==> ParseInt(Classify(e.linkType).code).Some?
  }

  predicate AllWellFormed(es: seq<Edge>)
  {
    forall k :: 0 <= k < |es| ==> WellFormed(es[k])
  }

  /** What a well-formed redirect edge records. */
  function RedirectOf(e: Edge): RedirectUrl
    requires IsRedirectEdge(e)
  {
    RedirectUrl(RedirectTarget(e), ParseInt(Classify(e.linkType).code))
  }

  /** An anchor edge the helper classifies as internal (`internal`) or external. */
  predicate IsAnchorOf(e: Edge, h: Helpers, internal: bool)
  {
    Classify(e.linkType) == Anchor && h.isLinkInternal(e.followKeys, e.dst) == internal
  }

  function AnchorCount(es: seq<Edge>, h: Helpers, internal: bool): nat
  {
    if es == [] then 0 else (if IsAnchorOf(es[0], h, internal) then 1 else 0) + AnchorCount(es[1..], h, internal)
  }

  /** An internal anchor edge with a resolved destination id: the ones that reach `urls`. */
  predicate IsSampledEdge(e: Edge, h: Helpers)
  {
    IsAnchorOf(e, h, true) && e.dst > 0
  }

  // ---------------------------------------------------------------------------
  // Properties of one call

  lemma AnchorStepValid(d: Doc, e: Edge, h: Helpers)
    requires Valid(d) && d.working
    ensures Valid(AnchorStep(d, e, h)) && AnchorStep(d, e, h).working
  {
    var internal := h.isLinkInternal(e.followKeys, e.dst);
    var link := (e.dst, h.listToMask(e.followKeys));
    if internal && e.dst > 0 {
      SampleRecord(d.internal.urls, d.processedLink, d.processedUrl, d.internal.total, link);
    }
  }

  /** Every call keeps the document valid and its transient sets alive. */
  lemma StepValid(d: Doc, e: Edge, h: Helpers)
    requires Valid(d) && d.working
    ensures Valid(Step(d, e, h).doc) && Step(d, e, h).doc.working
  {
    if Classify(e.linkType) == Anchor && d.present {
      AnchorStepValid(d, e, h);
    }
  }

  /**
   * Which calls fail, and on what: any of the three kinds on a document without
   * the sections (nothing written), and a redirect whose code is not an integer,
   * after `redirect.to.url` was already replaced; other link types are skipped.
   */
  lemma StepErrors(d: Doc, e: Edge, h: Helpers)
    ensures var o := Step(d, e, h);
            var k := Classify(e.linkType);
            && (o.error == Some(MissingSection) <==> !d.present && k != Ignored)
            && (o.error == Some(MissingSection) ==> o.doc == d)
            && (o.error.Some? && o.error.value.InvalidHttpCode? <==> d.present && k.Redirect? && ParseInt(k.code).None?)
            && (d.present && k.Redirect? && ParseInt(k.code).None? ==>
                  o.error == Some(InvalidHttpCode(k.code))
                  && o.doc == d.(redirectTo := Some(RedirectUrl(RedirectTarget(e), None))))
            && (o.error.Some? <==> k != Ignored && (!d.present || !WellFormed(e)))
  {
  }

  /**
   * One anchor edge raises `nb.total` of its section by exactly one, and exactly
   * one of `follow.total` and `nofollow.total`; the other section is untouched.
   */
  lemma AnchorStepCounts(d: Doc, e: Edge, h: Helpers)
    requires d.present && Classify(e.linkType) == Anchor
    ensures var internal := h.isLinkInternal(e.followKeys, e.dst);
            var s := if internal then d.internal else d.external;
            var r := Step(d, e, h);
            var s' := if internal then r.doc.internal else r.doc.external;
            && r.error == None
            && s'.total == s.total + 1
            && (IsFollow(e.followKeys) ==> s'.follow.total == s.follow.total + 1 && s'.nofollow == s.nofollow)
            && (!IsFollow(e.followKeys) ==>
                  s'.nofollow.total == s.nofollow.total + 1 && s'.follow == s.follow
                  && Count(s'.nofollow.combinations, CombinationKey(e.followKeys))
                     == Count(s.nofollow.combinations, CombinationKey(e.followKeys)) + 1)
            && (if internal then r.doc.external == d.external else r.doc.internal == d.internal)
  {
  }

  /**
   * `follow.unique` rises only for an internal follow edge whose `(dst, mask)`
   * has not been recorded yet.
   */
  lemma AnchorStepFollowUnique(d: Doc, e: Edge, h: Helpers)
    requires d.present && Classify(e.linkType) == Anchor
    ensures var r := Step(d, e, h).doc;
            var internal := h.isLinkInternal(e.followKeys, e.dst);
            && r.internal.follow.unique
               == d.internal.follow.unique
                  + (if internal && IsFollow(e.followKeys) && (e.dst, h.listToMask(e.followKeys)) !in d.processedLink
                     then 1 else 0)
            && r.external.follow.unique == d.external.follow.unique
  {
  }

  /** `urls_exists` is set by every sampled edge, even when the sample is full. */
  lemma AnchorStepUrlsExists(d: Doc, e: Edge, h: Helpers)
    requires d.present && IsSampledEdge(e, h)
    ensures var r := Step(d, e, h).doc;
            && r.internal.urlsExists
            && (|d.internal.urls| >= UrlsCap ==> r.internal.urls == d.internal.urls)
  {
  }

  /** A redirect edge replaces `redirect.to.url` wholesale, whatever was there. */
  lemma RedirectStepReplaces(d: Doc, e: Edge, h: Helpers)
    requires d.present && IsRedirectEdge(e)
    ensures var o := Step(d, e, h);
            && o.doc.redirectTo.Some?
            && o.doc.redirectTo.value.target == (if e.dst == -1 then UrlStr(e.externalUrl) else UrlId(e.dst))
            && o.doc.redirectTo.value.httpCode == ParseInt(e.linkType[1..])
            && (o.error == None <==> ParseInt(e.linkType[1..]).Some?)
            && (o.error == None ==> o.doc.redirectExists)
  {
  }

  /** Canonical edges after the first change nothing. */
  lemma CanonicalStepFirstOnly(d: Doc, e: Edge, h: Helpers)
    requires d.present && IsCanonicalEdge(e)
    ensures var r := Step(d, e, h).doc;
            && r.canonicalTo.Some?
            && (d.canonicalTo.Some? ==> r == d)
            && (d.canonicalTo.None? ==>
                  r.canonicalExists
                  && r.canonicalTo.value.equal == (e.src == e.dst)
                  && r.canonicalTo.value.url == (if e.dst > 0 then UrlId(e.dst) else UrlStr(e.externalUrl)))
  {
  }

  /**
   * Post-processing sets `nb.unique` to the number of distinct destinations,
   * which never exceeds `nb.total`, and deletes the transient sets; it does
   * nothing to a document without the stream's sections.
   */
  lemma PostProcessFinalises(d: Doc)
    requires Valid(d) && d.working
    ensures var r := PostProcess(d);
            && Valid(r)
            && (!d.present ==> r == d)
            && (d.present ==>
                  && r.internal.unique == |d.processedUrl| <= r.internal.total
                  && !r.working && r.processedLink == {} && r.processedUrl == {}
                  && r.internal.urls == d.internal.urls && r.external == d.external)
  {
  }

  // ---------------------------------------------------------------------------
  // Properties of a whole stream of edges

  lemma {:induction false} RunValid(d: Doc, es: seq<Edge>, h: Helpers)
    requires Valid(d) && d.working
    ensures Valid(Run(d, es, h).doc) && Run(d, es, h).doc.working
    decreases |es|
  {
    if es != [] {
      StepValid(d, es[0], h);
      RunValid(Step(d, es[0], h).doc, es[1..], h);
    }
  }

  lemma {:induction false} RunNoError(d: Doc, es: seq<Edge>, h: Helpers)
    requires d.present && AllWellFormed(es)
    ensures Run(d, es, h).error == None && Run(d, es, h).doc.present
    decreases |es|
  {
    if es != [] {
      assert WellFormed(es[0]);
      StepTotals(d, es[0], h);
      var o := Step(d, es[0], h);
      RunNoError(o.doc, es[1..], h);
      assert Run(d, es, h) == Run(o.doc, es[1..], h);
    }
  }

  /** One well-formed edge: a redirect edge sets `redirect.to`, any other edge leaves it. */
  lemma StepRedirect(d: Doc, e: Edge, h: Helpers)
    requires d.present && WellFormed(e)
    ensures var o := Step(d, e, h);
            && o.error == None && o.doc.present
            && (IsRedirectEdge(e) ==> o.doc.redirectTo == Some(RedirectOf(e)) && o.doc.redirectExists)
            && (!IsRedirectEdge(e) ==> o.doc.redirectTo == d.redirectTo && o.doc.redirectExists == d.redirectExists)
  {
  }

  /** A stream without redirect edges leaves `redirect.to` as it was. */
  lemma {:induction false} RunNoRedirect(d: Doc, es: seq<Edge>, h: Helpers)
    requires d.present && AllWellFormed(es)
    requires forall k :: 0 <= k < |es| ==> !IsRedirectEdge(es[k])
    ensures Run(d, es, h).doc.redirectTo == d.redirectTo
    ensures Run(d, es, h).doc.redirectExists == d.redirectExists
    decreases |es|
  {
    if es != [] {
      assert WellFormed(es[0]) && !IsRedirectEdge(es[0]);
      StepRedirect(d, es[0], h);
      var d1 := Step(d, es[0], h).doc;
      forall j | 0 <= j < |es[1..]|
        ensures WellFormed(es[1..][j]) && !IsRedirectEdge(es[1..][j])
      {
        assert es[1..][j] == es[j + 1];
      }
      RunNoRedirect(d1, es[1..], h);
      assert Run(d, es, h) == Run(d1, es[1..], h);
    }
  }

  /** The last redirect edge of the stream decides `redirect.to`. */
  lemma {:induction false} RunLastRedirectWins(d: Doc, es: seq<Edge>, h: Helpers, k: int)
    requires d.present && AllWellFormed(es)
    requires 0 <= k < |es| && IsRedirectEdge(es[k])
    requires forall j :: k < j < |es| ==> !IsRedirectEdge(es[j])
    ensures Run(d, es, h).doc.redirectTo == Some(RedirectOf(es[k]))
    ensures Run(d, es, h).doc.redirectExists
    decreases |es|
  {
    assert WellFormed(es[0]);
    StepRedirect(d, es[0], h);
    var d1 := Step(d, es[0], h).doc;
    assert AllWellFormed(es[1..]) by {
      forall j | 0 <= j < |es[1..]| ensures WellFormed(es[1..][j]) {
        assert es[1..][j] == es[j + 1];
      }
    }
    assert Run(d, es, h) == Run(d1, es[1..], h);
    forall j | k - 1 < j < |es[1..]| ensures !IsRedirectEdge(es[1..][j]) {
      assert es[1..][j] == es[j + 1];
    }
    if k == 0 {
      RunNoRedirect(d1, es[1..], h);
    } else {
      assert es[1..][k - 1] == es[k];
      RunLastRedirectWins(d1, es[1..], h, k - 1);
    }
  }

  /** One well-formed edge: the first canonical edge sets `canonical.to`, nothing else changes it. */
  lemma StepCanonical(d: Doc, e: Edge, h: Helpers)
    requires d.present && WellFormed(e)
    ensures var o := Step(d, e, h);
            && o.error == None && o.doc.present
            && (d.canonicalTo.Some? || !IsCanonicalEdge(e) ==> o.doc.canonicalTo == d.canonicalTo)
            && (d.canonicalTo.None? && IsCanonicalEdge(e) ==> o.doc.canonicalTo == Some(CanonicalOf(e)))
  {
  }

  /** The first canonical edge of the stream decides `canonical.to`, unless one was already recorded. */
  lemma {:induction false} RunFirstCanonicalWins(d: Doc, es: seq<Edge>, h: Helpers)
    requires d.present && AllWellFormed(es)
    ensures var r := Run(d, es, h).doc;
            d.canonicalTo.Some? ==> r.canonicalTo == d.canonicalTo
    ensures var r := Run(d, es, h).doc;
            d.canonicalTo.None? && (forall k :: 0 <= k < |es| ==> !IsCanonicalEdge(es[k])) ==> r.canonicalTo == None
    ensures var r := Run(d, es, h).doc;
            forall k :: d.canonicalTo.None? && 0 <= k < |es| && IsCanonicalEdge(es[k])
                        && (forall j :: 0 <= j < k ==> !IsCanonicalEdge(es[j])) ==>
              r.canonicalTo == Some(CanonicalOf(es[k]))
    decreases |es|
  {
    if es != [] {
      assert WellFormed(es[0]);
      StepCanonical(d, es[0], h);
      var d1 := Step(d, es[0], h).doc;
      assert AllWellFormed(es[1..]) by {
        forall j | 0 <= j < |es[1..]| ensures WellFormed(es[1..][j]) {
          assert es[1..][j] == es[j + 1];
        }
      }
      RunFirstCanonicalWins(d1, es[1..], h);
      var r := Run(d, es, h).doc;
      assert r == Run(d1, es[1..], h).doc;
      if d.canonicalTo.None? && !IsCanonicalEdge(es[0]) {
        forall k | 0 < k < |es| && IsCanonicalEdge(es[k]) && (forall j :: 0 <= j < k ==> !IsCanonicalEdge(es[j]))
          ensures r.canonicalTo == Some(CanonicalOf(es[k]))
        {
          assert es[1..][k - 1] == es[k];
          assert forall j :: 0 <= j < k - 1 ==> !IsCanonicalEdge(es[1..][j]) by {
            forall j | 0 <= j < k - 1 ensures !IsCanonicalEdge(es[1..][j]) {
              assert es[1..][j] == es[j + 1];
            }
          }
        }
        if forall k :: 0 <= k < |es| ==> !IsCanonicalEdge(es[k]) {
          assert forall j :: 0 <= j < |es[1..]| ==> !IsCanonicalEdge(es[1..][j]) by {
            forall j | 0 <= j < |es[1..]| ensures !IsCanonicalEdge(es[1..][j]) {
              assert es[1..][j] == es[j + 1];
            }
          }
        }
      }
    }
  }

  /** `nb.total` of each section counts exactly the anchor edges classified into it. */
  lemma {:induction false} RunAnchorTotals(d: Doc, es: seq<Edge>, h: Helpers)
    requires d.present && AllWellFormed(es)
    ensures Run(d, es, h).doc.internal.total == d.internal.total + AnchorCount(es, h, true)
    ensures Run(d, es, h).doc.external.total == d.external.total + AnchorCount(es, h, false)
    decreases |es|
  {
    if es != [] {
      assert WellFormed(es[0]);
      StepTotals(d, es[0], h);
      var o := Step(d, es[0], h);
      RunAnchorTotals(o.doc, es[1..], h);
      assert Run(d, es, h) == Run(o.doc, es[1..], h);
      assert AnchorCount(es, h, true) == (if IsAnchorOf(es[0], h, true) then 1 else 0) + AnchorCount(es[1..], h, true);
    }
  }

  /** One call on a well-formed edge raises each section's `nb.total` by the anchor edges it receives. */
  lemma StepTotals(d: Doc, e: Edge, h: Helpers)
    requires d.present && WellFormed(e)
    ensures var o := Step(d, e, h);
            && o.error == None && o.doc.present
            && o.doc.internal.total == d.internal.total + (if IsAnchorOf(e, h, true) then 1 else 0)
            && o.doc.external.total == d.external.total + (if IsAnchorOf(e, h, false) then 1 else 0)
  {
  }

  /** One well-formed edge sets `urls_exists` exactly when it is a sampled edge, and never clears it. */
  lemma StepUrlsExists(d: Doc, e: Edge, h: Helpers)
    requires d.present && WellFormed(e)
    ensures var o := Step(d, e, h);
            && o.error == None && o.doc.present
            && o.doc.internal.urlsExists == (d.internal.urlsExists || IsSampledEdge(e, h))
  {
  }

  /** `urls_exists` ends up true exactly when some internal edge with a destination id was seen. */
  lemma {:induction false} RunUrlsExists(d: Doc, es: seq<Edge>, h: Helpers)
    requires d.present && AllWellFormed(es)
    ensures Run(d, es, h).doc.internal.urlsExists
            <==> d.internal.urlsExists || exists k :: 0 <= k < |es| && IsSampledEdge(es[k], h)
    decreases |es|
  {
    if es != [] {
      assert WellFormed(es[0]);
      StepUrlsExists(d, es[0], h);
      var d1 := Step(d, es[0], h).doc;
      assert AllWellFormed(es[1..]) by {
        forall j | 0 <= j < |es[1..]| ensures WellFormed(es[1..][j]) {
          assert es[1..][j] == es[j + 1];
        }
      }
      RunUrlsExists(d1, es[1..], h);
      assert Run(d, es, h) == Run(d1, es[1..], h);
      if exists k :: 0 <= k < |es| && IsSampledEdge(es[k], h) {
        var k :| 0 <= k < |es| && IsSampledEdge(es[k], h);
        if k > 0 {
          assert es[1..][k - 1] == es[k];
        }
      }
      if exists k :: 0 <= k < |es[1..]| && IsSampledEdge(es[1..][k], h) {
        var k :| 0 <= k < |es[1..]| && IsSampledEdge(es[1..][k], h);
        assert es[k + 1] == es[1..][k];
      }
    }
  }

  // ---------------------------------------------------------------------------
  // The mutable document

  class OutlinksDocument {
    const helpers: Helpers
    var present: bool
    var internal: Section
    var external: Section
    var redirectTo: Option<RedirectUrl>
    var redirectExists: bool
    var canonicalTo: Option<CanonicalUrl>
    var canonicalExists: bool
    var working: bool
    var processedLink: set<(int, int)>
    var processedUrl: set<int>

    function Model(): Doc
      reads this
    {
      Doc(present, internal, external, redirectTo, redirectExists, canonicalTo, canonicalExists,
          working, processedLink, processedUrl)
    }

    /** The zero-filled document, with or without the stream's sections. */
    constructor (present: bool, helpers: Helpers)
      ensures Model() == Zeroed(present) && this.helpers == helpers
    {
      this.helpers := helpers;
      this.present := present;
      internal, external := EmptySection, EmptySection;
      redirectTo, redirectExists := None, false;
      canonicalTo, canonicalExists := None, false;
      working, processedLink, processedUrl := false, {}, {};
    }

    method PreProcessDocument()
      requires Valid(Model()) && internal.urls == []
      modifies this
      ensures Model() == PreProcess(old(Model())) && Valid(Model())
    {
      PreProcessValid(Model());
      processedLink := {};
      processedUrl := {};
      working := true;
    }

    /** `process_document` on one edge of the stream. */
    method ProcessDocument(e: Edge) returns (error: Option<DocError>)
      requires Valid(Model()) && working
      modifies this
      ensures Model() == Step(old(Model()), e, helpers).doc
      ensures error == Step(old(Model()), e, helpers).error
      ensures Valid(Model()) && working
    {
      StepValid(Model(), e, helpers);
      var kind := Classify(e.linkType);
      if kind == Ignored {
        return None;
      }
      if !present {
        return Some(MissingSection);
      }
      match kind {
        case Anchor =>
          ProcessAnchor(e);
          error := None;
        case Redirect(code) =>
          error := ProcessRedirect(e, code);
        case Canonical =>
          ProcessCanonical(e);
          error := None;
        case Ignored =>
          error := None;
      }
    }

    method ProcessAnchor(e: Edge)
      modifies this
      ensures Model() == AnchorStep(old(Model()), e, helpers)
    {
      var isInternal := helpers.isLinkInternal(e.followKeys, e.dst);
      var key := CombinationKey(e.followKeys);
      if isInternal {
        ProcessInternalAnchor(e);
      } else {
        external := CountAnchor(external, IsFollow(e.followKeys), false, key);
      }
    }

    /** The anchor branch for an internal link: counters, then, for a crawled destination, the sample and the transient sets. */
    method ProcessInternalAnchor(e: Edge)
      requires helpers.isLinkInternal(e.followKeys, e.dst)
      modifies this
      ensures Model() == AnchorStep(old(Model()), e, helpers)
    {
      if e.dst > 0 {
        ProcessSampledAnchor(e);
      } else {
        var seen := (e.dst, helpers.listToMask(e.followKeys)) in processedLink;
        internal := CountAnchor(internal, IsFollow(e.followKeys), !seen, CombinationKey(e.followKeys));
      }
    }

    method ProcessSampledAnchor(e: Edge)
      requires helpers.isLinkInternal(e.followKeys, e.dst) && e.dst > 0
      modifies this
      ensures Model() == AnchorStep(old(Model()), e, helpers)
    {
      var mask := helpers.listToMask(e.followKeys);
      var seen := (e.dst, mask) in processedLink;
      var s := CountAnchor(internal, IsFollow(e.followKeys), !seen, CombinationKey(e.followKeys));
      var urls := if |s.urls| < UrlsCap && !seen then s.urls + [(e.dst, mask)] else s.urls;
      internal := s.(urls := urls, urlsExists := true);
      processedUrl := processedUrl + {e.dst};
      processedLink := processedLink + {(e.dst, mask)};
    }

    method ProcessRedirect(e: Edge, code: string) returns (error: Option<DocError>)
      modifies this
      ensures Model() == RedirectStep(old(Model()), e, code).doc
      ensures error == RedirectStep(old(Model()), e, code).error
    {
      redirectTo := Some(RedirectUrl(RedirectTarget(e), None));
      var parsed := ParseInt(code);
      if parsed.None? {
        return Some(InvalidHttpCode(code));
      }
      redirectTo := Some(RedirectUrl(RedirectTarget(e), parsed));
      redirectExists := true;
      error := None;
    }

    method ProcessCanonical(e: Edge)
      modifies this
      ensures Model() == CanonicalStep(old(Model()), e)
    {
      if canonicalTo.None? {
        canonicalTo := Some(CanonicalOf(e));
        canonicalExists := true;
      }
    }

    method PostProcessDocument()
      requires Valid(Model()) && working
      modifies this
      ensures Model() == PostProcess(old(Model()))
      ensures Valid(Model())
      ensures present ==> internal.unique <= internal.total && !working
    {
      PostProcessFinalises(Model());
      if !present {
        return;
      }
      internal := internal.(unique := |processedUrl|);
      processedUrl := {};
      processedLink := {};
      working := false;
    }
  }
}
