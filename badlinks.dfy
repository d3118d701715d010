/**
 * `BadLinksStreamDef` (cdf/features/links/streams.py): counts the outgoing
 * internal links of one source URL that point to an error page, bucketed by
 * HTTP status class, with a sample of at most ten destinations per bucket.
 */
module BadLinks {
  import opened Wrappers
  import opened LinkStreams

  /** Cap of each bucket's `urls` sample. */
  const ErrorUrlsCap: nat := 10

  datatype ErrorKind = Kind3xx | Kind4xx | Kind5xx

  /** `outlinks_errors.<kind>`: `nb`, the `urls` sample and `urls_exists`. */
  datatype Bucket = Bucket(nb: nat, urls: seq<int>, urlsExists: bool)

  /** `outlinks_errors`; `present` says whether the document holds the section. */
  datatype Doc = Doc(present: bool, b3xx: Bucket, b4xx: Bucket, b5xx: Bucket, total: nat)

  /** A record of the `urlbadlinks` stream: `(id, dst_url_id, http_code)`. */
  datatype BadLink = BadLink(src: int, dst: int, httpCode: int)

  datatype Outcome = Outcome(doc: Doc, error: Option<DocError>)

  /** The bucket of a status code; no bucket below 300. */
  function KindOf(httpCode: int): (k: Option<ErrorKind>)
    ensures k == Some(Kind3xx) <==> 300 <= httpCode < 400
    ensures k == Some(Kind4xx) <==> 400 <= httpCode < 500
    ensures k == Some(Kind5xx) <==> 500 <= httpCode
    ensures k == None <==> httpCode < 300
  {
    if 300 <= httpCode < 400 then Some(Kind3xx)
    else if 400 <= httpCode < 500 then Some(Kind4xx)
    else if httpCode >= 500 then Some(Kind5xx)
    else None
  }

  function BucketOf(d: Doc, k: ErrorKind): Bucket
  {
    match k
    case Kind3xx => d.b3xx
    case Kind4xx => d.b4xx
    case Kind5xx => d.b5xx
  }

  function WithBucket(d: Doc, k: ErrorKind, b: Bucket): Doc
  {
    match k
    case Kind3xx => d.(b3xx := b)
    case Kind4xx => d.(b4xx := b)
    case Kind5xx => d.(b5xx := b)
  }

  /** The sample has `min(nb, 10)` entries, and the flag says whether any came. */
  predicate BucketAgrees(b: Bucket)
  {
    && |b.urls| == (if b.nb < ErrorUrlsCap then b.nb else ErrorUrlsCap)
    && (b.urlsExists <==> b.nb > 0)
  }

  /** `total` is the sum of the three `nb` counters. */
  predicate Valid(d: Doc)
  {
    && d.total == d.b3xx.nb + d.b4xx.nb + d.b5xx.nb
    && BucketAgrees(d.b3xx) && BucketAgrees(d.b4xx) && BucketAgrees(d.b5xx)
  }

  /** The zero-filled document the stream framework hands over. */
  function Zeroed(present: bool): Doc
  {
    var b := Bucket(0, [], false);
    Doc(present, b, b, b, 0)
  }

  lemma ZeroedValid(present: bool)
    ensures Valid(Zeroed(present)) && Zeroed(present).total == 0
  {
  }

  /** One more bad link in a bucket. */
  function Record(b: Bucket, dst: int): Bucket
  {
    Bucket(b.nb + 1, Capped(b.urls, dst, ErrorUrlsCap), true)
  }

  /**
   * `process_document` on one bad link: a missing section fails first, then a
   * code below 300, which has no bucket (`errors[None]`); both leave the document as it was.
   */
  function Step(d: Doc, r: BadLink): Outcome
  {
    if !d.present then Outcome(d, Some(MissingSection))
    else match KindOf(r.httpCode)
      case None => Outcome(d, Some(NoErrorBucket(r.httpCode)))
      case Some(k) => Outcome(WithBucket(d, k, Record(BucketOf(d, k), r.dst)).(total := d.total + 1), None)
  }

  /** The bad links of one source, in stream order; the first exception stops the stream. */
  function Run(d: Doc, rs: seq<BadLink>): Outcome
    decreases |rs|
  {
    if rs == [] then Outcome(d, None)
    else
      var o := Step(d, rs[0]);
      if o.error.Some? then o else Run(o.doc, rs[1..])
  }

  /** The destinations of the bad links that fall in bucket `k`, in stream order. */
  function DstsIn(rs: seq<BadLink>, k: ErrorKind): seq<int>
  {
    if rs == [] then []
    else (if KindOf(rs[0].httpCode) == Some(k) then [rs[0].dst] else []) + DstsIn(rs[1..], k)
  }

  predicate AllErrorCodes(rs: seq<BadLink>)
  {
    forall i :: 0 <= i < |rs| ==> rs[i].httpCode >= 300
  }

  // ---------------------------------------------------------------------------
  // Properties

  /**
   * One call: which error it raises, and otherwise that exactly the link's own
   * bucket and `total` move by one while the other buckets stay as they were.
   */
  lemma StepEffect(d: Doc, r: BadLink)
    ensures var o := Step(d, r);
            && (o.error == Some(MissingSection) <==> !d.present)
            && (o.error == Some(NoErrorBucket(r.httpCode)) <==> d.present && r.httpCode < 300)
            && (o.error.Some? ==> o.doc == d)
            && (o.error == None ==>
                  && o.doc.present
                  && o.doc.total == d.total + 1
                  && forall k :: BucketOf(o.doc, k)
                                 == if Some(k) == KindOf(r.httpCode) then Record(BucketOf(d, k), r.dst) else BucketOf(d, k))
  {
  }

  lemma StepValid(d: Doc, r: BadLink)
    requires Valid(d)
    ensures Valid(Step(d, r).doc)
  {
    StepEffect(d, r);
  }

  lemma {:induction false} RunValid(d: Doc, rs: seq<BadLink>)
    requires Valid(d)
    ensures Valid(Run(d, rs).doc)
    decreases |rs|
  {
    if rs != [] {
      StepValid(d, rs[0]);
      RunValid(Step(d, rs[0]).doc, rs[1..]);
    }
  }

  /** On a document with the section, the stream fails exactly when some code is below 300. */
  lemma {:induction false} RunError(d: Doc, rs: seq<BadLink>)
    requires d.present
    ensures Run(d, rs).error == None <==> AllErrorCodes(rs)
    decreases |rs|
  {
    if rs != [] {
      StepEffect(d, rs[0]);
      var o := Step(d, rs[0]);
      if o.error == None {
        RunError(o.doc, rs[1..]);
        assert Run(d, rs) == Run(o.doc, rs[1..]);
        assert AllErrorCodes(rs) <==> AllErrorCodes(rs[1..]) by {
          if AllErrorCodes(rs[1..]) {
            forall i | 0 <= i < |rs| ensures rs[i].httpCode >= 300 {
              if i > 0 {
                assert rs[i] == rs[1..][i - 1];
              }
            }
          }
          if AllErrorCodes(rs) {
            forall i | 0 <= i < |rs[1..]| ensures rs[1..][i].httpCode >= 300 {
              assert rs[1..][i] == rs[i + 1];
            }
          }
        }
      } else {
        assert !(rs[0].httpCode >= 300);
      }
    }
  }

  /** One bad link with an error code: the bucket `k` after it, and the stream goes on. */
  lemma BucketStep(d: Doc, rs: seq<BadLink>, k: ErrorKind)
    requires d.present && rs != [] && rs[0].httpCode >= 300
    ensures var d1 := Step(d, rs[0]).doc;
            && Step(d, rs[0]).error == None
            && Run(d, rs) == Run(d1, rs[1..])
            && d1.present && d1.total == d.total + 1
            && BucketOf(d1, k) == if KindOf(rs[0].httpCode) == Some(k) then Record(BucketOf(d, k), rs[0].dst) else BucketOf(d, k)
  {
  }

  lemma AllErrorCodesTail(rs: seq<BadLink>)
    requires rs != [] && AllErrorCodes(rs)
    ensures rs[0].httpCode >= 300 && AllErrorCodes(rs[1..])
  {
    forall i | 0 <= i < |rs[1..]| ensures rs[1..][i].httpCode >= 300 {
      assert rs[1..][i] == rs[i + 1];
    }
  }

  /** Recording `x` and then sampling the rest keeps the first ten of `x` and the rest. */
  lemma RecordTake(b: Bucket, x: int, rest: seq<int>)
    requires |b.urls| <= ErrorUrlsCap
    ensures Take(Record(b, x).urls + rest, ErrorUrlsCap) == Take(b.urls + ([x] + rest), ErrorUrlsCap)
  {
    CappedTake(b.urls, x, rest, ErrorUrlsCap);
    assert b.urls + [x] + rest == b.urls + ([x] + rest);
  }

  /**
   * With every code at least 300, `total` counts every bad link and each
   * bucket counts the links of its class and samples the first ten of their
   * destinations in stream order.
   */
  lemma {:induction false} RunBuckets(d: Doc, rs: seq<BadLink>, k: ErrorKind)
    requires d.present && AllErrorCodes(rs) && |BucketOf(d, k).urls| <= ErrorUrlsCap
    ensures var r := Run(d, rs).doc;
            && r.total == d.total + |rs|
            && BucketOf(r, k).nb == BucketOf(d, k).nb + |DstsIn(rs, k)|
            && BucketOf(r, k).urls == Take(BucketOf(d, k).urls + DstsIn(rs, k), ErrorUrlsCap)
            && BucketOf(r, k).urlsExists == (BucketOf(d, k).urlsExists || DstsIn(rs, k) != [])
    decreases |rs|
  {
    var b := BucketOf(d, k);
    if rs == [] {
      assert b.urls + [] == b.urls;
    } else {
      AllErrorCodesTail(rs);
      BucketStep(d, rs, k);
      var d1 := Step(d, rs[0]).doc;
      RunBuckets(d1, rs[1..], k);
      if KindOf(rs[0].httpCode) == Some(k) {
        assert DstsIn(rs, k) == [rs[0].dst] + DstsIn(rs[1..], k);
        RecordTake(b, rs[0].dst, DstsIn(rs[1..], k));
      } else {
        assert DstsIn(rs, k) == DstsIn(rs[1..], k);
      }
    }
  }

  // ---------------------------------------------------------------------------
  // The mutable document

  class BadLinksDocument {
    var present: bool
    var b3xx: Bucket
    var b4xx: Bucket
    var b5xx: Bucket
    var total: nat

    function Model(): Doc
      reads this
    {
      Doc(present, b3xx, b4xx, b5xx, total)
    }

    constructor (present: bool)
      ensures Model() == Zeroed(present)
    {
      this.present := present;
      b3xx, b4xx, b5xx := Bucket(0, [], false), Bucket(0, [], false), Bucket(0, [], false);
      total := 0;
    }

    /** `process_document` on one bad link. */
    method ProcessDocument(r: BadLink) returns (error: Option<DocError>)
      requires Valid(Model())
      modifies this
      ensures Model() == Step(old(Model()), r).doc
      ensures error == Step(old(Model()), r).error
      ensures Valid(Model())
    {
      StepValid(Model(), r);
      if !present {
        return Some(MissingSection);
      }
      var kind := KindOf(r.httpCode);
      if kind.None? {
        return Some(NoErrorBucket(r.httpCode));
      }
      match kind.value {
        case Kind3xx => b3xx := Record(b3xx, r.dst);
        case Kind4xx => b4xx := Record(b4xx, r.dst);
        case Kind5xx => b5xx := Record(b5xx, r.dst);
      }
      total := total + 1;
      error := None;
    }
  }
}
