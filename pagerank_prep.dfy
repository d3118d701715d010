/**
 * The sequential parts of the PageRank task in cdf/features/links/tasks.py:
 * the bounded scan of the `urlinfos` stream that feeds the node mapping and
 * collects the extra non-crawled ids, the split of the grouped links into
 * graph and virtual records, and the pairing of the ranks with external ids.
 */
module PageRankPrep {
  import opened Wrappers

  // ---------------------------------------------------------------------------
  // The id scan, `get_node_mapping_and_extra_non_crawls` / `get_stream`

  /** The two columns of a `urlinfos` record the scan reads: `id` and `http_code`. */
  datatype Info = Info(id: int, httpCode: int)

  /**
   * The length of the longest prefix whose ids are all at most `maxUid`: the
   * scan yields exactly these records before it stops.
   */
  function ScanPrefix(infos: seq<Info>, maxUid: int): (n: nat)
    ensures n <= |infos|
    ensures forall i :: 0 <= i < n ==> infos[i].id <= maxUid
    ensures n < |infos| ==> infos[n].id > maxUid
  {
    if infos == [] || infos[0].id > maxUid then 0
    else 1 + ScanPrefix(infos[1..], maxUid)
  }

  /** The records the scan reads: the prefix, and the first record beyond the bound when there is one. */
  function Examined(infos: seq<Info>, maxUid: int): nat
  {
    var n := ScanPrefix(infos, maxUid);
    if n < |infos| then n + 1 else n
  }

  function Ids(infos: seq<Info>): seq<int>
  {
    seq(|infos|, i requires 0 <= i < |infos| => infos[i].id)
  }

  /** The ids of the records with `http_code == 0`. */
  function NonCrawled(infos: seq<Info>): set<int>
  {
    set i | 0 <= i < |infos| && infos[i].httpCode == 0 :: infos[i].id
  }

  /** The `urlinfos` stream as the generator consumes it: the records and how many have been read. */
  class InfoStream {
    const records: seq<Info>
    var pos: nat

    predicate Valid()
      reads this
    {
      pos <= |records|
    }

    /** The records not read yet. */
    function Remaining(): seq<Info>
      reads this
      requires Valid()
    {
      records[pos..]
    }

    constructor (records: seq<Info>)
      ensures this.records == records && pos == 0 && Valid()
    {
      this.records := records;
      pos := 0;
    }

    /** One step of `for info in info_stream`. */
    method Next() returns (r: Option<Info>)
      requires Valid()
      modifies this
      ensures Valid()
      ensures old(pos) < |records| ==> r == Some(records[old(pos)]) && pos == old(pos) + 1
      ensures old(pos) == |records| ==> r == None && pos == old(pos)
    {
      if pos < |records| {
        r := Some(records[pos]);
        pos := pos + 1;
      } else {
        r := None;
      }
    }
  }

  /**
   * `get_node_mapping_and_extra_non_crawls`: the ids `get_stream` yields to
   * the node mapping, and `extra_non_crawls`. A record with `http_code == 0`
   * is added before the bound is checked, so the first record beyond the
   * bound is added too; no record after it is read.
   */
  method GetNodeMappingAndExtraNonCrawls(stream: InfoStream, maxUid: int) returns (ids: seq<int>, extraNonCrawls: set<int>)
    requires stream.Valid()
    modifies stream
    ensures stream.Valid()
    ensures var rest := old(stream.Remaining());
            && ids == Ids(rest[..ScanPrefix(rest, maxUid)])
            && extraNonCrawls == NonCrawled(rest[..Examined(rest, maxUid)])
            && stream.pos == old(stream.pos) + Examined(rest, maxUid)
  {
    ghost var start := stream.pos;
    ghost var rest := stream.Remaining();
    ghost var n := ScanPrefix(rest, maxUid);
    ids, extraNonCrawls := [], {};
    var done := false;
    while !done
      invariant stream.Valid() && start <= stream.pos
      invariant stream.records[start..] == rest
      invariant !done ==> stream.pos - start <= n
      invariant !done ==> ids == Ids(rest[..stream.pos - start])
      invariant !done ==> extraNonCrawls == NonCrawled(rest[..stream.pos - start])
      invariant done ==> ids == Ids(rest[..n]) && extraNonCrawls == NonCrawled(rest[..Examined(rest, maxUid)])
      invariant done ==> stream.pos - start == Examined(rest, maxUid)
      decreases if done then 0 else |stream.records| - stream.pos + 1
    {
      ghost var k := stream.pos - start;
      var next := stream.Next();
      if next.None? {
        assert k == |rest| == n;
        done := true;
      } else {
        var info := next.value;
        assert info == rest[k];
        assert rest[..k + 1] == rest[..k] + [info];
        NonCrawledAppend(rest[..k], info);
        if info.httpCode == 0 {
          extraNonCrawls := extraNonCrawls + {info.id};
        }
        if info.id > maxUid {
          assert k == n;
          done := true;
        } else {
          ids := ids + [info.id];
        }
      }
    }
  }

  lemma NonCrawledAppend(infos: seq<Info>, x: Info)
    ensures NonCrawled(infos + [x]) == NonCrawled(infos) + (if x.httpCode == 0 then {x.id} else {})
  {
    var s := infos + [x];
    forall y | y in NonCrawled(s) ensures y in NonCrawled(infos) + (if x.httpCode == 0 then {x.id} else {}) {
      var i :| 0 <= i < |s| && s[i].httpCode == 0 && s[i].id == y;
      if i < |infos| {
        assert s[i] == infos[i];
      }
    }
    forall y | y in NonCrawled(infos) ensures y in NonCrawled(s) {
      var i :| 0 <= i < |infos| && infos[i].httpCode == 0 && infos[i].id == y;
      assert s[i] == infos[i];
    }
    if x.httpCode == 0 {
      assert s[|infos|] == x;
    }
  }

  /** The prefix the scan yields is the longest one within the bound. */
  lemma ScanPrefixLongest(infos: seq<Info>, maxUid: int, m: nat)
    requires m <= |infos| && forall i :: 0 <= i < m ==> infos[i].id <= maxUid
    ensures m <= ScanPrefix(infos, maxUid)
  {
  }

  /** Records after the first one beyond the bound change nothing: the scan never reaches them. */
  lemma {:induction false} ScanStopsAtBound(infos: seq<Info>, more: seq<Info>, maxUid: int)
    requires ScanPrefix(infos, maxUid) < |infos|
    ensures ScanPrefix(infos + more, maxUid) == ScanPrefix(infos, maxUid)
    ensures Examined(infos + more, maxUid) == Examined(infos, maxUid)
    ensures var e := Examined(infos, maxUid); (infos + more)[..e] == infos[..e]
  {
    if infos[0].id <= maxUid {
      assert (infos + more)[1..] == infos[1..] + more;
      ScanStopsAtBound(infos[1..], more, maxUid);
    }
  }

  /**
   * Every non-crawled id that comes from the yielded prefix is in
   * `extra_non_crawls`, and so is the first record beyond the bound when its
   * `http_code` is 0; no other id is.
   */
  lemma ExtraNonCrawlsExact(infos: seq<Info>, maxUid: int, x: int)
    ensures var n := ScanPrefix(infos, maxUid);
            x in NonCrawled(infos[..Examined(infos, maxUid)]) <==>
              || (exists i :: 0 <= i < n && infos[i].httpCode == 0 && infos[i].id == x)
              || (n < |infos| && infos[n].httpCode == 0 && infos[n].id == x)
  {
    var n := ScanPrefix(infos, maxUid);
    var e := infos[..Examined(infos, maxUid)];
    if x in NonCrawled(e) {
      var i :| 0 <= i < |e| && e[i].httpCode == 0 && e[i].id == x;
      assert e[i] == infos[i];
    }
    if exists i :: 0 <= i < n && infos[i].httpCode == 0 && infos[i].id == x {
      var i :| 0 <= i < n && infos[i].httpCode == 0 && infos[i].id == x;
      assert e[i] == infos[i];
    }
    if n < |infos| && infos[n].httpCode == 0 && infos[n].id == x {
      assert e[n] == infos[n];
    }
  }

  // ---------------------------------------------------------------------------
  // The node mapping

  /**
   * The node mapping between external url ids and internal node ids, as the
   * two dictionaries `get_internal_id` and `get_external_id` read.
   */
  datatype NodeMapping = NodeMapping(internalOf: map<int, int>, externalOf: map<int, int>)

  /** The two directions are inverse to each other, so the mapping is one-to-one. */
  predicate Bijective(m: NodeMapping)
  {
    && (forall x :: x in m.internalOf ==> m.internalOf[x] in m.externalOf && m.externalOf[m.internalOf[x]] == x)
    && (forall i :: i in m.externalOf ==> m.externalOf[i] in m.internalOf && m.internalOf[m.externalOf[i]] == i)
  }

  lemma BijectiveInjective(m: NodeMapping, x: int, y: int)
    requires Bijective(m) && x in m.internalOf && y in m.internalOf && x != y
    ensures m.internalOf[x] != m.internalOf[y]
  {
  }

  // ---------------------------------------------------------------------------
  // The graph / virtual split of `page_rank`

  /** A record of `group_links`: `(src, outdeg, normals, virtuals)`. */
  datatype Group<V> = Group(src: int, outdeg: int, normals: seq<int>, virtuals: seq<V>)

  /** A record of the graph file: `(k, len(g), g)`. */
  datatype GraphRecord = GraphRecord(k: int, n: nat, g: seq<int>)

  /** A record of the virtuals file: `(k, outdeg, virtuals)`. */
  datatype VirtualRecord<V> = VirtualRecord(k: int, outdeg: int, virtuals: seq<V>)

  /** Every id the split looks up is in the mapping. */
  predicate Mapped<V>(g: Group<V>, m: NodeMapping)
  {
    g.src in m.internalOf && forall j :: 0 <= j < |g.normals| ==> g.normals[j] in m.internalOf
  }

  predicate AllMapped<V>(gs: seq<Group<V>>, m: NodeMapping)
  {
    forall i :: 0 <= i < |gs| ==> Mapped(gs[i], m)
  }

  /** The graph record of one group: its normal destinations, as internal ids. */
  function GraphRecordOf<V>(g: Group<V>, m: NodeMapping): GraphRecord
    requires Mapped(g, m)
  {
    var ids := seq(|g.normals|, j requires 0 <= j < |g.normals| && Mapped(g, m) => m.internalOf[g.normals[j]]);
    GraphRecord(m.internalOf[g.src], |ids|, ids)
  }

  function VirtualRecordOf<V>(g: Group<V>, m: NodeMapping): VirtualRecord<V>
    requires g.src in m.internalOf
  {
    VirtualRecord(m.internalOf[g.src], g.outdeg, g.virtuals)
  }

  /** The graph file, record after record. */
  function GraphRecords<V>(gs: seq<Group<V>>, m: NodeMapping): seq<GraphRecord>
    requires AllMapped(gs, m)
  {
    if gs == [] then []
    else
      var n := |gs| - 1;
      GraphRecords(gs[..n], m) + if gs[n].normals != [] then [GraphRecordOf(gs[n], m)] else []
  }

  /** The virtuals file, record after record. */
  function VirtualRecords<V>(gs: seq<Group<V>>, m: NodeMapping): seq<VirtualRecord<V>>
    requires AllMapped(gs, m)
  {
    if gs == [] then []
    else
      var n := |gs| - 1;
      VirtualRecords(gs[..n], m) + if gs[n].virtuals != [] then [VirtualRecordOf(gs[n], m)] else []
  }

  /** The number of groups with at least one normal destination. */
  function WithNormals<V>(gs: seq<Group<V>>): nat
  {
    if gs == [] then 0 else WithNormals(gs[..|gs| - 1]) + if gs[|gs| - 1].normals != [] then 1 else 0
  }

  /** The number of groups with at least one virtual link. */
  function WithVirtuals<V>(gs: seq<Group<V>>): nat
  {
    if gs == [] then 0 else WithVirtuals(gs[..|gs| - 1]) + if gs[|gs| - 1].virtuals != [] then 1 else 0
  }

  /** The second pass of `page_rank`, lines 435-444: the two files, as the record sequences dumped to them. */
  method SeparateLinkFiles<V>(grouped: seq<Group<V>>, m: NodeMapping) returns (graph: seq<GraphRecord>, virtuals: seq<VirtualRecord<V>>)
    requires AllMapped(grouped, m)
    ensures graph == GraphRecords(grouped, m)
    ensures virtuals == VirtualRecords(grouped, m)
  {
    graph, virtuals := [], [];
    for i := 0 to |grouped|
      invariant AllMapped(grouped[..i], m)
      invariant graph == GraphRecords(grouped[..i], m)
      invariant virtuals == VirtualRecords(grouped[..i], m)
    {
      var group := grouped[i];
      assert grouped[..i + 1][..i] == grouped[..i];
      assert grouped[..i + 1][i] == group;
      assert AllMapped(grouped[..i + 1], m);
      var k := m.internalOf[group.src];
      if |group.normals| > 0 {
        var g := [];
        for j := 0 to |group.normals|
          invariant |g| == j && forall t :: 0 <= t < j ==> g[t] == m.internalOf[group.normals[t]]
        {
          g := g + [m.internalOf[group.normals[j]]];
        }
        assert g == GraphRecordOf(group, m).g;
        graph := graph + [GraphRecord(k, |g|, g)];
      }
      if group.virtuals != [] {
        virtuals := virtuals + [VirtualRecord(k, group.outdeg, group.virtuals)];
      }
    }
    assert grouped[..|grouped|] == grouped;
  }

  lemma AllMappedPrefix<V>(gs: seq<Group<V>>, m: NodeMapping, i: nat)
    requires AllMapped(gs, m) && i <= |gs|
    ensures AllMapped(gs[..i], m)
  {
    assert forall j :: 0 <= j < i ==> gs[..i][j] == gs[j];
  }

  /**
   * A group writes a graph record exactly when it has normal destinations,
   * and the records keep the groups' order: the record of group `i` comes
   * after those of the groups before it.
   */
  lemma {:induction false} GraphRecordsExact<V>(gs: seq<Group<V>>, m: NodeMapping)
    requires AllMapped(gs, m)
    ensures |GraphRecords(gs, m)| == WithNormals(gs)
    ensures forall i :: 0 <= i < |gs| && gs[i].normals != [] ==>
              AllMapped(gs[..i], m) && WithNormals(gs[..i]) < |GraphRecords(gs, m)|
              && GraphRecords(gs, m)[WithNormals(gs[..i])] == GraphRecordOf(gs[i], m)
  {
    if gs != [] {
      var n := |gs| - 1;
      AllMappedPrefix(gs, m, n);
      GraphRecordsExact(gs[..n], m);
      forall i | 0 <= i < |gs| && gs[i].normals != []
        ensures AllMapped(gs[..i], m) && WithNormals(gs[..i]) < |GraphRecords(gs, m)|
                && GraphRecords(gs, m)[WithNormals(gs[..i])] == GraphRecordOf(gs[i], m)
      {
        AllMappedPrefix(gs, m, i);
        if i < n {
          assert gs[..n][..i] == gs[..i];
          assert gs[..n][i] == gs[i];
        } else {
          assert gs[..i] == gs[..n];
        }
      }
    }
  }

  /**
   * A group writes a virtual record exactly when it has virtual links, in
   * the groups' order.
   */
  lemma {:induction false} VirtualRecordsExact<V>(gs: seq<Group<V>>, m: NodeMapping)
    requires AllMapped(gs, m)
    ensures |VirtualRecords(gs, m)| == WithVirtuals(gs)
    ensures forall i :: 0 <= i < |gs| && gs[i].virtuals != [] ==>
              AllMapped(gs[..i], m) && WithVirtuals(gs[..i]) < |VirtualRecords(gs, m)|
              && VirtualRecords(gs, m)[WithVirtuals(gs[..i])] == VirtualRecordOf(gs[i], m)
  {
    if gs != [] {
      var n := |gs| - 1;
      AllMappedPrefix(gs, m, n);
      VirtualRecordsExact(gs[..n], m);
      forall i | 0 <= i < |gs| && gs[i].virtuals != []
        ensures AllMapped(gs[..i], m) && WithVirtuals(gs[..i]) < |VirtualRecords(gs, m)|
                && VirtualRecords(gs, m)[WithVirtuals(gs[..i])] == VirtualRecordOf(gs[i], m)
      {
        AllMappedPrefix(gs, m, i);
        if i < n {
          assert gs[..n][..i] == gs[..i];
          assert gs[..n][i] == gs[i];
        } else {
          assert gs[..i] == gs[..n];
        }
      }
    }
  }

  /**
   * A graph record under a one-to-one mapping: `len(g)` is the number of
   * normals, and mapping its source and destinations back gives the group's
   * source and normals, in order.
   */
  lemma GraphRecordRoundTrip<V>(g: Group<V>, m: NodeMapping)
    requires Mapped(g, m) && Bijective(m)
    ensures var r := GraphRecordOf(g, m);
            && r.n == |r.g| == |g.normals|
            && r.k in m.externalOf && m.externalOf[r.k] == g.src
            && forall j :: 0 <= j < |r.g| ==> r.g[j] in m.externalOf && m.externalOf[r.g[j]] == g.normals[j]
  {
    var r := GraphRecordOf(g, m);
    forall j | 0 <= j < |r.g| ensures r.g[j] in m.externalOf && m.externalOf[r.g[j]] == g.normals[j] {
      var x := g.normals[j];
      assert x in m.internalOf;
      assert r.g[j] == m.internalOf[x];
      assert m.internalOf[x] in m.externalOf && m.externalOf[m.internalOf[x]] == x;
    }
  }

  /** A virtual record carries the group's `outdeg` and virtual links unchanged, under the source's internal id. */
  lemma VirtualRecordRoundTrip<V>(g: Group<V>, m: NodeMapping)
    requires g.src in m.internalOf && Bijective(m)
    ensures var r := VirtualRecordOf(g, m);
            && r.outdeg == g.outdeg && r.virtuals == g.virtuals
            && r.k in m.externalOf && m.externalOf[r.k] == g.src
  {
  }

  // ---------------------------------------------------------------------------
  // The result pairing, line 458

  /** Each page-rank value, paired with the external id of its index. */
  function PairResult<R>(m: NodeMapping, pr: seq<R>): (r: seq<(int, R)>)
    requires forall i :: 0 <= i < |pr| ==> i in m.externalOf
  {
    seq(|pr|, i requires 0 <= i < |pr| && i in m.externalOf => (m.externalOf[i], pr[i]))
  }

  /**
   * One pair per rank, in index order: the rank of node `i` is paired with
   * the external id that maps back to `i`.
   */
  lemma PairResultRoundTrip<R>(m: NodeMapping, pr: seq<R>)
    requires forall i :: 0 <= i < |pr| ==> i in m.externalOf
    requires Bijective(m)
    ensures var r := PairResult(m, pr);
            && |r| == |pr|
            && forall i :: 0 <= i < |pr| ==> r[i].1 == pr[i] && r[i].0 in m.internalOf && m.internalOf[r[i].0] == i
  {
  }

  /** Under a one-to-one mapping no two ranks are paired with the same external id. */
  lemma PairResultDistinct<R>(m: NodeMapping, pr: seq<R>, i: nat, j: nat)
    requires forall k :: 0 <= k < |pr| ==> k in m.externalOf
    requires Bijective(m) && i < j < |pr|
    ensures PairResult(m, pr)[i].0 != PairResult(m, pr)[j].0
  {
    PairResultRoundTrip(m, pr);
  }
}
