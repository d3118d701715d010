/**
 * `InlinksStreamDef` (cdf/features/links/streams.py): folds the incoming link
 * edges of one destination URL into that URL's document.
 *
 * As for the outgoing links, the document is a `Doc` value, `Step` is
 * `process_document` on one edge and `Run` the stream of edges of one
 * destination; the class `InlinksDocument` is the mutable document.
 */
module Inlinks {
  import opened Wrappers
  import opened Text
  import opened LinkStreams

  /** `redirect.from` or `canonical.from`: a counter, a capped sample and its flag. */
  datatype From<T> = From(nb: nat, urls: seq<T>, urlsExists: bool)

  /**
   * One document. `present` says whether the document holds this stream's
   * sections; `working` whether the transient sets `processed_inlink_link`
   * and `processed_inlink_url` exist.
   */
  datatype Doc = Doc(
    present: bool,
    internal: Section,
    redirectFrom: From<(int, int)>,
    canonicalFrom: From<int>,
    working: bool,
    processedLink: set<(int, int)>,
    processedUrl: set<int>)

  /**
   * A record of the `urlinlinks` stream: `(id, link_type, follow, src_url_id, ...)`;
   * the text columns are not read by this stream.
   */
  datatype Edge = Edge(dst: int, linkType: string, followKeys: seq<string>, src: int)

  /** The document after a call, and the exception the call raised, if any. */
  datatype Outcome = Outcome(doc: Doc, error: Option<DocError>)

  // ---------------------------------------------------------------------------
  // Invariant of a document

  /** The sample has `min(nb, 300)` entries, and the flag says whether any came. */
  predicate FromAgrees<T>(f: From<T>)
  {
    && |f.urls| == (if f.nb < UrlsCap then f.nb else UrlsCap)
    && (f.urlsExists <==> f.nb > 0)
  }

  predicate WorkingSetsAgree(d: Doc)
  {
    SampleAgrees(d.internal.urls, d.processedLink, d.processedUrl, d.internal.total)
  }

  predicate Valid(d: Doc)
  {
    && CountsAgree(d.internal)
    && |d.internal.urls| <= UrlsCap
    && NoDuplicates(d.internal.urls)
    && (d.internal.urlsExists <==> d.internal.urls != [])
    && FromAgrees(d.redirectFrom)
    && FromAgrees(d.canonicalFrom)
    && (d.working ==> WorkingSetsAgree(d))
  }

  // ---------------------------------------------------------------------------
  // The calls

  /** The zero-filled document the stream framework hands over. */
  function Zeroed(present: bool): Doc
  {
    Doc(present, EmptySection, From(0, [], false), From(0, [], false), false, {}, {})
  }

  /** The zero-filled document is valid, and has no transient sets yet. */
  lemma ZeroedValid(present: bool)
    ensures Valid(Zeroed(present)) && !Zeroed(present).working
  {
  }

  /** `pre_process_document`: fresh, empty transient sets. */
  function PreProcess(d: Doc): (r: Doc)
    ensures r.working && r.processedLink == {} && r.processedUrl == {}
  {
    d.(working := true, processedLink := {}, processedUrl := {})
  }

  /**
   * Pre-processing keeps a document valid while its sample is empty, the state the
   * stream framework calls it in; it touches nothing but the transient sets.
   */
  lemma PreProcessValid(d: Doc)
    requires Valid(d) && d.internal.urls == []
    ensures var r := PreProcess(d);
            && Valid(r)
            && r.(working := d.working, processedLink := d.processedLink, processedUrl := d.processedUrl) == d
  {
    var r := PreProcess(d);
    assert WorkingSetsAgree(r);
  }

  /** A nofollow combination key holding `robots` is logged and never counted. */
  predicate IsRobotsKey(key: string)
  {
    Contains(key, "robots")
  }

  /** The `nb` counters of one incoming anchor. */
  function CountInlink(s: Section, follow: bool, newUnique: bool, key: string): Section
  {
    var s1 := s.(total := s.total + 1);
    if follow then
      s1.(follow := FollowStats(s.follow.total + 1, s.follow.unique + (if newUnique then 1 else 0)))
    else
      s1.(nofollow := NofollowStats(s.nofollow.total + 1,
                                    if IsRobotsKey(key) then s.nofollow.combinations
                                    else Bump(s.nofollow.combinations, key)))
  }

  /** The anchor branch, lines 541-570. */
  function AnchorStep(d: Doc, e: Edge, h: Helpers): Doc
  {
    var link := (e.src, h.listToMask(e.followKeys));
    var seen := link in d.processedLink;
    var s := CountInlink(d.internal, IsFollow(e.followKeys), !seen, CombinationKey(e.followKeys));
    d.(internal := s.(urls := if |s.urls| < UrlsCap && !seen then s.urls + [link] else s.urls,
                      urlsExists := true),
       processedUrl := d.processedUrl + {e.src},
       processedLink := d.processedLink + {link})
  }

  /** One more entry for `redirect.from` or `canonical.from`. */
  function Push<T>(f: From<T>, x: T): From<T>
  {
    From(f.nb + 1, Capped(f.urls, x, UrlsCap), true)
  }

  /**
   * The redirect branch, lines 572-579: the code is parsed before the document
   * is touched, so a bad code fails even on a document without the sections.
   */
  function RedirectStep(d: Doc, e: Edge, code: string): Outcome
  {
    match ParseInt(code)
    case None => Outcome(d, Some(InvalidHttpCode(code)))
    case Some(c) =>
      if !d.present then Outcome(d, Some(MissingSection))
      else Outcome(d.(redirectFrom := Push(d.redirectFrom, (e.src, c))), None)
  }

  /** The canonical branch, lines 581-589: a page's canonical to itself is not counted. */
  function CanonicalStep(d: Doc, e: Edge): Doc
  {
    if e.dst != e.src then d.(canonicalFrom := Push(d.canonicalFrom, e.src)) else d
  }

  /** `process_document` on one edge. */
  function Step(d: Doc, e: Edge, h: Helpers): Outcome
  {
    match Classify(e.linkType)
    case Ignored => Outcome(d, None)
    case Redirect(code) => RedirectStep(d, e, code)
    case Anchor => if d.present then Outcome(AnchorStep(d, e, h), None) else Outcome(d, Some(MissingSection))
    case Canonical => if d.present then Outcome(CanonicalStep(d, e), None) else Outcome(d, Some(MissingSection))
  }

  /** `post_process_document`: `nb.unique` from the source set, then both sets deleted. */
  function PostProcess(d: Doc): Doc
  {
    if !d.present then d
    else d.(internal := d.internal.(unique := |d.processedUrl|), working := false, processedLink := {}, processedUrl := {})
  }

  /** The edges of one destination, in stream order; the first exception stops the stream. */
  function Run(d: Doc, es: seq<Edge>, h: Helpers): Outcome
    decreases |es|
  {
    if es == [] then Outcome(d, None)
    else
      var o := Step(d, es[0], h);
      if o.error.Some? then o else Run(o.doc, es[1..], h)
  }

  // ---------------------------------------------------------------------------
  // Edge classes used by the properties

  predicate IsAnchorEdge(e: Edge)
  {
    Classify(e.linkType) == Anchor
  }

  predicate IsRedirectEdge(e: Edge)
  {
    Classify(e.linkType).Redirect?
  }

  /** A canonical edge from another page: the ones `canonical.from` counts. */
  predicate IsCountedCanonical(e: Edge)
  {
    Classify(e.linkType) == Canonical && e.dst != e.src
  }

  /** An edge no call can fail on: every redirect code is an integer. */
  predicate WellFormed(e: Edge)
  {
    IsRedirectEdge(e) ==> ParseInt(e.linkType[1..]).Some?
  }

  predicate AllWellFormed(es: seq<Edge>)
  {
    forall k :: 0 <= k < |es| ==> WellFormed(es[k])
  }

  /** What `redirect.from` would record of every redirect edge, in stream order. */
  function Redirects(es: seq<Edge>): seq<(int, int)>
  {
    if es == [] then []
    else
      var here := if IsRedirectEdge(es[0]) && ParseInt(es[0].linkType[1..]).Some?
                  then [(es[0].src, ParseInt(es[0].linkType[1..]).value)] else [];
      here + Redirects(es[1..])
  }

  /** The sources of the counted canonical edges, in stream order. */
  function CanonicalSources(es: seq<Edge>): seq<int>
  {
    if es == [] then []
    else (if IsCountedCanonical(es[0]) then [es[0].src] else []) + CanonicalSources(es[1..])
  }

  function AnchorCount(es: seq<Edge>): nat
  {
    if es == [] then 0 else (if IsAnchorEdge(es[0]) then 1 else 0) + AnchorCount(es[1..])
  }

  lemma AllWellFormedTail(es: seq<Edge>)
    requires es != [] && AllWellFormed(es)
    ensures WellFormed(es[0]) && AllWellFormed(es[1..])
  {
    assert WellFormed(es[0]);
    forall j | 0 <= j < |es[1..]| ensures WellFormed(es[1..][j]) {
      assert es[1..][j] == es[j + 1];
    }
  }

  // ---------------------------------------------------------------------------
  // Properties of one call

  lemma AnchorStepValid(d: Doc, e: Edge, h: Helpers)
    requires Valid(d) && d.working
    ensures Valid(AnchorStep(d, e, h)) && AnchorStep(d, e, h).working
  {
    var link := (e.src, h.listToMask(e.followKeys));
    SampleRecord(d.internal.urls, d.processedLink, d.processedUrl, d.internal.total, link);
  }

  lemma PushAgrees<T>(f: From<T>, x: T)
    requires FromAgrees(f)
    ensures FromAgrees(Push(f, x))
  {
  }

  /** Every call keeps the document valid and its transient sets alive. */
  lemma StepValid(d: Doc, e: Edge, h: Helpers)
    requires Valid(d) && d.working
    ensures Valid(Step(d, e, h).doc) && Step(d, e, h).doc.working
  {
    match Classify(e.linkType)
    case Anchor =>
      if d.present {
        AnchorStepValid(d, e, h);
      }
    case Redirect(code) =>
      if d.present && ParseInt(code).Some? {
        PushAgrees(d.redirectFrom, (e.src, ParseInt(code).value));
      }
    case Canonical =>
      if d.present {
        PushAgrees(d.canonicalFrom, e.src);
      }
    case Ignored =>
  }

  /**
   * Which calls fail, and on what: a redirect code that is not an integer
   * (checked first), then a document without the sections; a failed call
   * leaves the document as it was, and a link type outside the four kinds is
   * skipped without error.
   */
  lemma StepErrors(d: Doc, e: Edge, h: Helpers)
    ensures var o := Step(d, e, h);
            var k := Classify(e.linkType);
            && (o.error.Some? ==> o.doc == d)
            && (o.error.Some? && o.error.value.InvalidHttpCode? <==> k.Redirect? && ParseInt(k.code).None?)
            && (k.Redirect? && ParseInt(k.code).None? ==> o.error == Some(InvalidHttpCode(k.code)))
            && (o.error == Some(MissingSection) <==> !d.present && k != Ignored && WellFormed(e))
            && (o.error.Some? <==> !WellFormed(e) || (!d.present && k != Ignored))
  {
  }

  /**
   * One anchor edge raises `nb.total` by one and exactly one of `follow.total`
   * and `nofollow.total`; a nofollow edge bumps its combination key unless the
   * key holds `robots`; `follow.unique` rises only for a follow edge whose
   * `(src, mask)` is new.
   */
  lemma AnchorStepCounts(d: Doc, e: Edge, h: Helpers)
    requires d.present && IsAnchorEdge(e)
    ensures var o := Step(d, e, h);
            var s := d.internal;
            var s' := o.doc.internal;
            var key := CombinationKey(e.followKeys);
            && o.error == None
            && s'.total == s.total + 1
            && (IsFollow(e.followKeys) ==>
                  && s'.follow.total == s.follow.total + 1 && s'.nofollow == s.nofollow
                  && s'.follow.unique == s.follow.unique
                     + (if (e.src, h.listToMask(e.followKeys)) in d.processedLink then 0 else 1))
            && (!IsFollow(e.followKeys) ==>
                  && s'.nofollow.total == s.nofollow.total + 1 && s'.follow == s.follow
                  && Count(s'.nofollow.combinations, key)
                     == Count(s.nofollow.combinations, key) + (if IsRobotsKey(key) then 0 else 1))
            && s'.urlsExists
            && o.doc.redirectFrom == d.redirectFrom && o.doc.canonicalFrom == d.canonicalFrom
  {
  }

  /**
   * Post-processing sets `nb.unique` to the number of distinct sources, which
   * never exceeds `nb.total`, and deletes the transient sets; it does nothing
   * to a document without the stream's sections.
   */
  lemma PostProcessFinalises(d: Doc)
    requires Valid(d) && d.working
    ensures var r := PostProcess(d);
            && Valid(r)
            && (!d.present ==> r == d)
            && (d.present ==>
                  && r.internal.unique == |d.processedUrl| <= r.internal.total
                  && !r.working && r.processedLink == {} && r.processedUrl == {}
                  && r.internal.urls == d.internal.urls
                  && r.redirectFrom == d.redirectFrom && r.canonicalFrom == d.canonicalFrom)
  {
  }

  /** What one well-formed edge does to the parts the stream lemmas follow. */
  lemma StepEffect(d: Doc, e: Edge, h: Helpers)
    requires d.present && WellFormed(e)
    ensures var o := Step(d, e, h);
            && o.error == None && o.doc.present
            && o.doc.internal.total == d.internal.total + (if IsAnchorEdge(e) then 1 else 0)
            && o.doc.internal.urlsExists == (d.internal.urlsExists || IsAnchorEdge(e))
            && (forall key :: IsRobotsKey(key) ==>
                  Count(o.doc.internal.nofollow.combinations, key) == Count(d.internal.nofollow.combinations, key))
            && o.doc.redirectFrom
               == (if IsRedirectEdge(e) then Push(d.redirectFrom, (e.src, ParseInt(e.linkType[1..]).value))
                   else d.redirectFrom)
            && o.doc.canonicalFrom
               == (if IsCountedCanonical(e) then Push(d.canonicalFrom, e.src) else d.canonicalFrom)
  {
  }

  /** Pushing onto a sample within the cap and then taking the first `cap` entries of the rest. */
  lemma PushTake<T>(f: From<T>, x: T, rest: seq<T>)
    requires |f.urls| <= UrlsCap
    ensures Take(Push(f, x).urls + rest, UrlsCap) == Take(f.urls + ([x] + rest), UrlsCap)
    ensures |Push(f, x).urls| <= UrlsCap
  {
    CappedTake(f.urls, x, rest, UrlsCap);
    assert f.urls + [x] + rest == f.urls + ([x] + rest);
  }

  // ---------------------------------------------------------------------------
  // Properties of a whole stream of edges

  lemma {:induction false} RunValid(d: Doc, es: seq<Edge>, h: Helpers)
    requires Valid(d) && d.working
    ensures Valid(Run(d, es, h).doc) && Run(d, es, h).doc.working
    decreases |es|
  {
    if es != [] {
      StepValid(d, es[0], h);
      RunValid(Step(d, es[0], h).doc, es[1..], h);
    }
  }

  /**
   * On a document with the sections and integer redirect codes, the stream
   * raises nothing; it counts every anchor edge in `nb.total`, sets
   * `urls_exists` exactly when an anchor edge came, and never counts a
   * combination key holding `robots`.
   */
  lemma {:induction false} RunAnchors(d: Doc, es: seq<Edge>, h: Helpers)
    requires d.present && AllWellFormed(es)
    ensures var r := Run(d, es, h);
            && r.error == None && r.doc.present
            && r.doc.internal.total == d.internal.total + AnchorCount(es)
            && (r.doc.internal.urlsExists <==> d.internal.urlsExists || exists k :: 0 <= k < |es| && IsAnchorEdge(es[k]))
            && (forall key :: IsRobotsKey(key) ==>
                  Count(r.doc.internal.nofollow.combinations, key) == Count(d.internal.nofollow.combinations, key))
    decreases |es|
  {
    if es != [] {
      AllWellFormedTail(es);
      StepEffect(d, es[0], h);
      var d1 := Step(d, es[0], h).doc;
      RunAnchors(d1, es[1..], h);
      assert Run(d, es, h) == Run(d1, es[1..], h);
      if exists k :: 0 <= k < |es| && IsAnchorEdge(es[k]) {
        var k :| 0 <= k < |es| && IsAnchorEdge(es[k]);
        if k > 0 {
          assert es[1..][k - 1] == es[k];
        }
      }
      if exists k :: 0 <= k < |es[1..]| && IsAnchorEdge(es[1..][k]) {
        var k :| 0 <= k < |es[1..]| && IsAnchorEdge(es[1..][k]);
        assert es[k + 1] == es[1..][k];
      }
    }
  }

  /**
   * `redirect.from` counts every redirect edge and samples the first 300
   * `[src, http_code]` pairs in stream order.
   */
  lemma {:induction false} RunRedirectsFrom(d: Doc, es: seq<Edge>, h: Helpers)
    requires d.present && AllWellFormed(es) && |d.redirectFrom.urls| <= UrlsCap
    ensures var f := Run(d, es, h).doc.redirectFrom;
            && f.nb == d.redirectFrom.nb + |Redirects(es)|
            && f.urls == Take(d.redirectFrom.urls + Redirects(es), UrlsCap)
            && f.urlsExists == (d.redirectFrom.urlsExists || Redirects(es) != [])
    decreases |es|
  {
    if es == [] {
      assert d.redirectFrom.urls + [] == d.redirectFrom.urls;
    } else {
      AllWellFormedTail(es);
      StepEffect(d, es[0], h);
      var d1 := Step(d, es[0], h).doc;
      assert Run(d, es, h) == Run(d1, es[1..], h);
      if IsRedirectEdge(es[0]) {
        var x := (es[0].src, ParseInt(es[0].linkType[1..]).value);
        assert Redirects(es) == [x] + Redirects(es[1..]);
        PushTake(d.redirectFrom, x, Redirects(es[1..]));
      } else {
        assert Redirects(es) == Redirects(es[1..]);
      }
      RunRedirectsFrom(d1, es[1..], h);
    }
  }

  /**
   * `canonical.from` counts every canonical edge from another page and samples
   * the first 300 sources in stream order.
   */
  lemma {:induction false} RunCanonicalsFrom(d: Doc, es: seq<Edge>, h: Helpers)
    requires d.present && AllWellFormed(es) && |d.canonicalFrom.urls| <= UrlsCap
    ensures var f := Run(d, es, h).doc.canonicalFrom;
            && f.nb == d.canonicalFrom.nb + |CanonicalSources(es)|
            && f.urls == Take(d.canonicalFrom.urls + CanonicalSources(es), UrlsCap)
            && f.urlsExists == (d.canonicalFrom.urlsExists || CanonicalSources(es) != [])
    decreases |es|
  {
    if es == [] {
      assert d.canonicalFrom.urls + [] == d.canonicalFrom.urls;
    } else {
      AllWellFormedTail(es);
      StepEffect(d, es[0], h);
      var d1 := Step(d, es[0], h).doc;
      assert Run(d, es, h) == Run(d1, es[1..], h);
      if IsCountedCanonical(es[0]) {
        assert CanonicalSources(es) == [es[0].src] + CanonicalSources(es[1..]);
        PushTake(d.canonicalFrom, es[0].src, CanonicalSources(es[1..]));
      } else {
        assert CanonicalSources(es) == CanonicalSources(es[1..]);
      }
      RunCanonicalsFrom(d1, es[1..], h);
    }
  }

  // ---------------------------------------------------------------------------
  // The mutable document

  class InlinksDocument {
    const helpers: Helpers
    var present: bool
    var internal: Section
    var redirectFrom: From<(int, int)>
    var canonicalFrom: From<int>
    var working: bool
    var processedLink: set<(int, int)>
    var processedUrl: set<int>

    function Model(): Doc
      reads this
    {
      Doc(present, internal, redirectFrom, canonicalFrom, working, processedLink, processedUrl)
    }

    /** The zero-filled document, with or without the stream's sections. */
    constructor (present: bool, helpers: Helpers)
      ensures Model() == Zeroed(present) && this.helpers == helpers
    {
      this.helpers := helpers;
      this.present := present;
      internal := EmptySection;
      redirectFrom := From(0, [], false);
      canonicalFrom := From(0, [], false);
      working, processedLink, processedUrl := false, {}, {};
    }

    method PreProcessDocument()
      requires Valid(Model()) && internal.urls == []
      modifies this
      ensures Model() == PreProcess(old(Model())) && Valid(Model())
    {
      PreProcessValid(Model());
      processedLink := {};
      processedUrl := {};
      working := true;
    }

    /** `process_document` on one edge of the stream. */
    method ProcessDocument(e: Edge) returns (error: Option<DocError>)
      requires Valid(Model()) && working
      modifies this
      ensures Model() == Step(old(Model()), e, helpers).doc
      ensures error == Step(old(Model()), e, helpers).error
      ensures Valid(Model()) && working
    {
      StepValid(Model(), e, helpers);
      match Classify(e.linkType) {
        case Ignored =>
          error := None;
        case Redirect(code) =>
          error := ProcessRedirect(e, code);
        case Anchor =>
          if !present {
            return Some(MissingSection);
          }
          ProcessAnchor(e);
          error := None;
        case Canonical =>
          if !present {
            return Some(MissingSection);
          }
          if e.dst != e.src {
            canonicalFrom := Push(canonicalFrom, e.src);
          }
          error := None;
      }
    }

    method ProcessAnchor(e: Edge)
      modifies this
      ensures Model() == AnchorStep(old(Model()), e, helpers)
    {
      var mask := helpers.listToMask(e.followKeys);
      var seen := (e.src, mask) in processedLink;
      var s := CountInlink(internal, IsFollow(e.followKeys), !seen, CombinationKey(e.followKeys));
      var urls := if |s.urls| < UrlsCap && !seen then s.urls + [(e.src, mask)] else s.urls;
      internal := s.(urls := urls, urlsExists := true);
      processedUrl := processedUrl + {e.src};
      processedLink := processedLink + {(e.src, mask)};
    }

    method ProcessRedirect(e: Edge, code: string) returns (error: Option<DocError>)
      modifies this
      ensures Model() == RedirectStep(old(Model()), e, code).doc
      ensures error == RedirectStep(old(Model()), e, code).error
    {
      var parsed := ParseInt(code);
      if parsed.None? {
        return Some(InvalidHttpCode(code));
      }
      if !present {
        return Some(MissingSection);
      }
      redirectFrom := Push(redirectFrom, (e.src, parsed.value));
      error := None;
    }

    method PostProcessDocument()
      requires Valid(Model()) && working
      modifies this
      ensures Model() == PostProcess(old(Model()))
      ensures Valid(Model())
      ensures present ==> internal.unique <= internal.total && !working
    {
      PostProcessFinalises(Model());
      if !present {
        return;
      }
      internal := internal.(unique := |processedUrl|);
      processedUrl := {};
      processedLink := {};
      working := false;
    }
  }
}
