/**
 * The indexing service: the bulk actions built from paragraph chunks, with the
 * deterministic document id that makes re-indexing a chunk overwrite it, and the
 * reading of the checksum aggregation that tells which documents are already in
 * the index. The OpenSearch client is outside the model: the bulk call and the
 * search response are inputs.
 */
module Indexing {
  import opened Common
  import opened Strings
  import opened Json
  import opened PdfParsing

  /** `INDEX_NAME`: the value when `OPENSEARCH_INDEX` is not set in the environment. */
  const IndexName: string := "papers-index"

  /** `chunking_strategy`, the last component of every document id. */
  const ChunkingStrategy: string := "basic"

  /** The `_source` document: the nine fields of a chunk. */
  datatype Source = Source(
    title: string,
    documentChecksum: string,
    isChart: bool,
    pageNumber: Json,
    index: string,
    textContent: Json,
    embeddingModel: string,
    embedding: Option<seq<real>>,
    pdfLoader: string)

  /** One entry of the bulk request. */
  datatype Action = Action(opType: string, index: string, id: string, source: Source)

  /** The statistics `helpers.bulk(..., stats_only=True)` returns. */
  datatype BulkStats = BulkStats(indexed: nat, errors: nat)

  /** What `index_chunks` did: the bulk calls it made, and what it returned or raised. */
  datatype Indexed = Indexed(calls: seq<seq<Action>>, result: Result<Option<BulkStats>, Exception>)

  /** The chunk a stored document describes. */
  function ChunkOf(s: Source): Chunk
  {
    Chunk(s.title, s.documentChecksum, s.isChart, s.pageNumber, s.index, s.textContent,
          s.embeddingModel, s.pdfLoader, s.embedding)
  }

  /** The `_source` of a chunk; it gives the chunk back. */
  function SourceOf(c: Chunk): (s: Source)
    ensures ChunkOf(s) == c
  {
    Source(c.title, c.documentChecksum, c.isChart, c.pageNumber, c.index, c.textContent,
           c.embeddingModel, c.embedding, c.pdfLoader)
  }

  /**
   * The `_id`: checksum, model, page number, paragraph or chart index, loader and
   * chunking strategy, joined by dashes. `pyStr` is Python's `str` on the page number.
   */
  function DocId(c: Chunk, pyStr: Json -> string): string
  {
    Join([c.documentChecksum, c.embeddingModel, pyStr(c.pageNumber), c.index, c.pdfLoader, ChunkingStrategy], "-")
  }

  function ActionFor(c: Chunk, pyStr: Json -> string): (a: Action)
    ensures a.opType == "index" && a.index == IndexName && a.id == DocId(c, pyStr)
    ensures ChunkOf(a.source) == c
  {
    Action("index", IndexName, DocId(c, pyStr), SourceOf(c))
  }

  /** The bulk actions: one per chunk, in chunk order. */
  function Actions(chunks: seq<Chunk>, pyStr: Json -> string): (r: seq<Action>)
    ensures |r| == |chunks|
    ensures forall i :: 0 <= i < |chunks| ==> r[i] == ActionFor(chunks[i], pyStr)
  {
    seq(|chunks|, i requires 0 <= i < |chunks| => ActionFor(chunks[i], pyStr))
  }

  /** The chunks the documents of a bulk request describe. */
  function ChunksOf(actions: seq<Action>): (r: seq<Chunk>)
    ensures |r| == |actions|
  {
    if |actions| == 0 then [] else [ChunkOf(actions[0].source)] + ChunksOf(actions[1..])
  }

  /** The bulk request carries every chunk unchanged and in order. */
  lemma {:induction false} ActionsKeepChunks(chunks: seq<Chunk>, pyStr: Json -> string)
    ensures ChunksOf(Actions(chunks, pyStr)) == chunks
  {
    if |chunks| > 0 {
      ActionsKeepChunks(chunks[1..], pyStr);
      assert Actions(chunks, pyStr)[1..] == Actions(chunks[1..], pyStr);
      assert chunks == [chunks[0]] + chunks[1..];
    }
  }

  /** The six fields the id is made from. */
  predicate SameKey(c1: Chunk, c2: Chunk, pyStr: Json -> string)
  {
    && c1.documentChecksum == c2.documentChecksum && c1.embeddingModel == c2.embeddingModel
    && pyStr(c1.pageNumber) == pyStr(c2.pageNumber) && c1.index == c2.index && c1.pdfLoader == c2.pdfLoader
  }

  /** Chunks that agree on the id's fields get the same `_id`, wherever they sit in the request. */
  lemma ActionsDeduplicate(chunks: seq<Chunk>, pyStr: Json -> string, i: nat, j: nat)
    requires i < |chunks| && j < |chunks| && SameKey(chunks[i], chunks[j], pyStr)
    ensures Actions(chunks, pyStr)[i].id == Actions(chunks, pyStr)[j].id
  {
    var c1, c2 := chunks[i], chunks[j];
    assert [c1.documentChecksum, c1.embeddingModel, pyStr(c1.pageNumber), c1.index, c1.pdfLoader, ChunkingStrategy]
        == [c2.documentChecksum, c2.embeddingModel, pyStr(c2.pageNumber), c2.index, c2.pdfLoader, ChunkingStrategy];
  }

  /** A dash-free first component is split off a dashed string unambiguously. */
  lemma DashCancel(a1: string, r1: string, a2: string, r2: string)
    requires '-' !in a1 && '-' !in a2
    requires a1 + "-" + r1 == a2 + "-" + r2
    ensures a1 == a2 && r1 == r2
  {
    var s := a1 + "-" + r1;
    assert |a1| == |a2| by {
      IndexOfDash(a1, r1);
      IndexOfDash(a2, r2);
    }
    assert a1 == s[..|a1|] == a2;
    assert r1 == s[|a1| + 1..] == r2;
  }

  lemma IndexOfDash(a: string, r: string)
    requires '-' !in a
    ensures IndexOf(a + "-" + r, '-') == |a|
  {
    NoSepPrefix(a, '-', r);
  }

  /** The common suffix `-basic` comes off both sides. */
  lemma StrategyCancel(l1: string, l2: string)
    requires l1 + "-" + ChunkingStrategy == l2 + "-" + ChunkingStrategy
    ensures l1 == l2
  {
    var s := l1 + "-" + ChunkingStrategy;
    assert |l1| == |l2|;
    assert l1 == s[..|l1|] == l2;
  }

  lemma DocIdShape(c: Chunk, pyStr: Json -> string)
    ensures DocId(c, pyStr)
         == c.documentChecksum + "-" + (c.embeddingModel + "-" + (pyStr(c.pageNumber) + "-" + (c.index + "-" + (c.pdfLoader + "-" + ChunkingStrategy))))
  {
    var p := pyStr(c.pageNumber);
    JoinCons(c.documentChecksum, [c.embeddingModel, p, c.index, c.pdfLoader, ChunkingStrategy], "-");
    JoinCons(c.embeddingModel, [p, c.index, c.pdfLoader, ChunkingStrategy], "-");
    JoinCons(p, [c.index, c.pdfLoader, ChunkingStrategy], "-");
    JoinCons(c.index, [c.pdfLoader, ChunkingStrategy], "-");
    JoinCons(c.pdfLoader, [ChunkingStrategy], "-");
  }

  /** The embedding model sits between the checksum and the page number; it is the part that may hold dashes. */
  lemma ModelCancel(m: string, r1: string, r2: string)
    requires m + "-" + r1 == m + "-" + r2
    ensures r1 == r2
  {
    var s := m + "-" + r1;
    assert r1 == s[|m| + 1..] == r2;
  }

  /**
   * Under one embedding model, equal ids mean equal checksum, page, index and
   * loader, when checksum, page text and index hold no dash (an MD5 checksum never
   * does, while model names such as `text-embedding-3-small` do).
   */
  lemma DocIdInjective(c1: Chunk, c2: Chunk, pyStr: Json -> string)
    requires c1.embeddingModel == c2.embeddingModel
    requires '-' !in c1.documentChecksum && '-' !in c2.documentChecksum
    requires '-' !in pyStr(c1.pageNumber) && '-' !in pyStr(c2.pageNumber)
    requires '-' !in c1.index && '-' !in c2.index
    requires DocId(c1, pyStr) == DocId(c2, pyStr)
    ensures SameKey(c1, c2, pyStr)
  {
    var p1, p2 := pyStr(c1.pageNumber), pyStr(c2.pageNumber);
    DocIdShape(c1, pyStr);
    DocIdShape(c2, pyStr);
    var t1 := p1 + "-" + (c1.index + "-" + (c1.pdfLoader + "-" + ChunkingStrategy));
    var t2 := p2 + "-" + (c2.index + "-" + (c2.pdfLoader + "-" + ChunkingStrategy));
    DashCancel(c1.documentChecksum, c1.embeddingModel + "-" + t1, c2.documentChecksum, c2.embeddingModel + "-" + t2);
    ModelCancel(c1.embeddingModel, t1, t2);
    DashCancel(p1, c1.index + "-" + (c1.pdfLoader + "-" + ChunkingStrategy), p2, c2.index + "-" + (c2.pdfLoader + "-" + ChunkingStrategy));
    DashCancel(c1.index, c1.pdfLoader + "-" + ChunkingStrategy, c2.index, c2.pdfLoader + "-" + ChunkingStrategy);
    StrategyCancel(c1.pdfLoader, c2.pdfLoader);
  }

  /**
   * `index_chunks`: with no chunks, no bulk call and nothing returned; otherwise
   * one bulk call with every action, whose statistics are returned and whose
   * exception is raised again.
   */
  function IndexChunks(chunks: seq<Chunk>, pyStr: Json -> string, bulk: seq<Action> -> Result<BulkStats, Exception>): (r: Indexed)
    ensures |chunks| == 0 ==> r == Indexed([], Ok(None))
    ensures |chunks| > 0 ==> r.calls == [Actions(chunks, pyStr)]
    ensures |chunks| > 0 ==> (r.result.Err? <==> bulk(Actions(chunks, pyStr)).Err?)
    ensures r.result.Ok? && r.result.value.Some? ==> |chunks| > 0 && bulk(Actions(chunks, pyStr)) == Ok(r.result.value.value)
  {
    var actions := Actions(chunks, pyStr);
    if |actions| == 0 then Indexed([], Ok(None))
    else
      match bulk(actions)
      case Ok(stats) => Indexed([actions], Ok(Some(stats)))
      case Err(e) => Indexed([actions], Err(e))
  }

  // ---------------------------------------------------------------------------
  // `check_existing_checksums`
  // ---------------------------------------------------------------------------

  /** Python's `v[key]` on a parsed JSON value: only a `dict` can be indexed by a string. */
  function Subscript(v: Json, key: string): (r: Result<Json, Exception>)
    ensures r.Ok? <==> v.JObject? && Lookup(v.fields, key).Some?
    ensures r.Ok? ==> r.value == Lookup(v.fields, key).value
    ensures v.JObject? && Lookup(v.fields, key).None? ==> r == Err(KeyError)
    ensures !v.JObject? ==> r == Err(TypeError)
  {
    if !v.JObject? then Err(TypeError)
    else
      match Lookup(v.fields, key)
      case Some(x) => Ok(x)
      case None => Err(KeyError)
  }

  /** Only scalars can go into a Python `set`; lists and dicts are unhashable. */
  predicate Hashable(v: Json)
  {
    !v.JArray? && !v.JObject?
  }

  /** A bucket the set comprehension takes without raising. */
  predicate GoodBucket(b: Json)
  {
    b.JObject? && Lookup(b.fields, "key").Some? && Hashable(Lookup(b.fields, "key").value)
  }

  function BucketKey(b: Json): (r: Result<Json, Exception>)
    ensures r.Ok? <==> GoodBucket(b)
    ensures r.Ok? ==> r.value == Lookup(b.fields, "key").value
  {
    match Subscript(b, "key")
    case Err(e) => Err(e)
    case Ok(k) => if Hashable(k) then Ok(k) else Err(TypeError)
  }

  /** `{bucket['key'] for bucket in buckets}`. */
  function BucketKeys(buckets: seq<Json>): Result<set<Json>, Exception>
  {
    if |buckets| == 0 then Ok({})
    else
      match BucketKey(buckets[0])
      case Err(e) => Err(e)
      case Ok(k) =>
        match BucketKeys(buckets[1..])
        case Err(e) => Err(e)
        case Ok(ks) => Ok({k} + ks)
  }

  /** The keys of a list of well-formed buckets. */
  ghost function KeysOf(buckets: seq<Json>): set<Json>
  {
    set b | b in buckets && GoodBucket(b) :: Lookup(b.fields, "key").value
  }

  /** The comprehension succeeds exactly when every bucket is good, and then gives every bucket's key. */
  lemma {:induction false} BucketKeysIff(buckets: seq<Json>)
    ensures BucketKeys(buckets).Ok? <==> forall i :: 0 <= i < |buckets| ==> GoodBucket(buckets[i])
    ensures BucketKeys(buckets).Ok? ==> BucketKeys(buckets).value == KeysOf(buckets)
  {
    if |buckets| > 0 {
      var b, rest := buckets[0], buckets[1..];
      BucketKeysIff(rest);
      assert forall i :: 1 <= i < |buckets| ==> buckets[i] == rest[i - 1];
      assert buckets == [b] + rest;
      if BucketKeys(buckets).Ok? {
        assert KeysOf(buckets) == {Lookup(b.fields, "key").value} + KeysOf(rest);
      }
    }
  }

  /** `response['aggregations']['existing_checksums']['buckets']`, iterated. */
  function ResponseBuckets(response: Json): Result<seq<Json>, Exception>
  {
    match Subscript(response, "aggregations")
    case Err(e) => Err(e)
    case Ok(aggs) =>
      match Subscript(aggs, "existing_checksums")
      case Err(e) => Err(e)
      case Ok(agg) =>
        match Subscript(agg, "buckets")
        case Err(e) => Err(e)
        case Ok(buckets) => Iterate(buckets)
  }

  /**
   * `check_existing_checksums`: `search` is the client's answer or the exception
   * it raised; every exception, from the client or from reading its answer, gives
   * the empty set.
   */
  function ExistingChecksums(search: Result<Json, Exception>): (r: set<Json>)
    ensures search.Err? ==> r == {}
  {
    match search
    case Err(_) => {}
    case Ok(response) =>
      match ResponseBuckets(response)
      case Err(_) => {}
      case Ok(buckets) =>
        match BucketKeys(buckets)
        case Err(_) => {}
        case Ok(keys) => keys
  }

  /** A well-formed answer gives exactly its bucket keys. */
  lemma ExistingChecksumsOfBuckets(search: Result<Json, Exception>, buckets: seq<Json>)
    requires search.Ok? && ResponseBuckets(search.value) == Ok(buckets)
    requires forall i :: 0 <= i < |buckets| ==> GoodBucket(buckets[i])
    ensures ExistingChecksums(search) == KeysOf(buckets)
  {
    BucketKeysIff(buckets);
  }

  /** A malformed answer, or one with a single bad bucket, gives nothing at all. */
  lemma ExistingChecksumsMalformed(search: Result<Json, Exception>)
    requires search.Ok?
    requires ResponseBuckets(search.value).Err?
          || exists i :: 0 <= i < |ResponseBuckets(search.value).value| && !GoodBucket(ResponseBuckets(search.value).value[i])
    ensures ExistingChecksums(search) == {}
  {
    if ResponseBuckets(search.value).Ok? {
      BucketKeysIff(ResponseBuckets(search.value).value);
    }
  }

  /** Whatever is reported as existing is the key of some bucket of the answer. */
  lemma ExistingChecksumsSound(search: Result<Json, Exception>, k: Json)
    requires k in ExistingChecksums(search)
    ensures search.Ok? && ResponseBuckets(search.value).Ok?
    ensures exists b :: b in ResponseBuckets(search.value).value && GoodBucket(b) && Lookup(b.fields, "key").value == k
  {
    BucketKeysIff(ResponseBuckets(search.value).value);
  }
}
