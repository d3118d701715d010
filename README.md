# Links analytics core of the crawl data pipeline, in Dafny

This project models the parts of the crawl data pipeline (`cdf`) that turn link
streams into per-URL link analytics. It also models the resource-type settings
and page-rank preparation code that sits beside them.

- **Link documents** (`cdf/features/links/streams.py`). Three stream definitions
  fill one document per URL, record by record:
  - `OutlinksStreamDef` counts the URL's outgoing links: internal/external,
    follow/nofollow, unique follow links, nofollow combinations, and a sample of
    at most 300 internal destinations. It also records the redirect target and
    the first canonical.
  - `InlinksStreamDef` counts the incoming links in the same way, skipping
    `robots` masks in the combinations. It also samples redirect and canonical
    sources.
  - `BadLinksStreamDef` buckets the outgoing links to error pages by HTTP status
    class (3xx/4xx/5xx), each with a sample of at most ten destinations.

  Each document is a pure datatype (`Doc`). The three hooks are functions on it
  (`PreProcess`, `Step`, `PostProcess`); `Run` folds `Step` over a stream and
  stops at the first exception. The dictionary the Python code updates in place
  is modelled by a class per stream (`OutlinksDocument`, `InlinksDocument`,
  `BadLinksDocument`) whose fields are the document's sections. Each method is
  proved to move `Model()` exactly as the pure function does.
- **Resource-type settings** (`cdf/collections/url_properties/resource_type.py`):
  - `validate_resource_type_settings` checks host wildcards, rule field names,
    mandatory fields and query grammar. It collects host, query and field errors
    and raises them together.
  - `compile_resource_type_settings` validates first, then joins each rule's
    query with its host's query.
  - The exception's accessors are modelled too.
- **Page-rank preparation and counter files** (`cdf/features/links/tasks.py`):
  - the scan of the `urlinfo` stream that yields the URL ids up to the crawl's
    maximum id and collects the non-crawled ids as a side effect;
  - the loop that writes the graph and virtual-link records through the node
    mapping;
  - the pairing of page-rank values with external ids;
  - `make_links_counter_file`, which routes each counter entry to a lazily
    opened file per link type.

Modules: `Wrappers` (Option), `Text` (string helpers: sorting, join/split, Python
`int()` and `str()` on integers), `LinkStreams` (types shared by the three
streams), `Outlinks`, `Inlinks`, `BadLinks`, `ResourceType`, `PageRankPrep`,
`CounterFiles`.

Foreign calls become parameters:
- `list_to_mask` and `is_link_internal` are the fields of a `Helpers` value.
- `validate_query_grammar` is a `Grammar` function.
- `query_to_python` is a function `Value -> Q`.
- The page-rank vector is a sequence parameter.

## Model

| member | source | states |
|---|---|---|
| LinkStreams.Classify | cdf/features/links/streams.py:347-395 | the `if`/`elif` chain on `link_type`: anchor exactly for "a"; redirect exactly for any other type starting with `r`, with the code after the `r`; canonical exactly for "canonical" |
| LinkStreams.CombinationKeyOrderIndependent | cdf/features/links/streams.py:19-20 | the nofollow combination key depends only on the multiset of follow keys, not on their order |
| LinkStreams.Bump | cdf/features/links/streams.py:367 | `combinations[key] += 1` on a defaultdict: that key goes up by one, every other count is unchanged, and the key becomes present |
| LinkStreams.Take | cdf/features/links/streams.py:375-376 | the first `n` elements in order: exactly the prefix of `s` of length `n`, or all of `s` when it is shorter |
| LinkStreams.CappedTake | cdf/features/links/streams.py:577-578 | appending only while below the cap, then more, keeps the same first `cap` elements as appending everything |
| LinkStreams.NoDuplicatesAppend | cdf/features/links/streams.py:374-376 | appending an element not yet in a duplicate-free sample keeps it duplicate-free |
| LinkStreams.SampleRecord | cdf/features/links/streams.py:372-382 | recording one sampled internal link keeps the sample a duplicate-free, non-empty prefix of the distinct links seen, capped at 300 |
| Outlinks.ZeroedValid | cdf/features/links/streams.py:338-342 | the zero-filled document satisfies the document invariant, without the working sets |
| Outlinks.PreProcess | cdf/features/links/streams.py:338-342 | `pre_process_document` creates both working sets empty |
| Outlinks.PreProcessValid | cdf/features/links/streams.py:338-342 | pre-processing keeps the invariant and changes nothing but the two working sets |
| Outlinks.AnchorStepValid | cdf/features/links/streams.py:347-382 | the anchor branch keeps the invariant: counts agree, the sample has no duplicates and at most 300 entries, and `urls_exists` is exactly "the sample is non-empty" |
| Outlinks.StepValid | cdf/features/links/streams.py:344-405 | every `process_document` call keeps the document invariant |
| Outlinks.StepErrors | cdf/features/links/streams.py:344-405 | which exception a record raises: a missing section for every handled link type; a `ValueError` for a redirect whose code does not parse, which leaves the already-written target without a code. Ignored link types never raise |
| Outlinks.AnchorStepCounts | cdf/features/links/streams.py:354-367 | an anchor adds one to the total of its internal or external section, and one to follow or to nofollow and its combination key. The other section is unchanged |
| Outlinks.AnchorStepFollowUnique | cdf/features/links/streams.py:360-363 | `follow.unique` grows by one only for an internal follow link whose (destination, mask) was not seen before; external `follow.unique` never moves |
| Outlinks.AnchorStepUrlsExists | cdf/features/links/streams.py:372-382 | an internal anchor with a positive destination sets `urls_exists`, and a full sample of 300 is not extended |
| Outlinks.RedirectStepReplaces | cdf/features/links/streams.py:384-393 | a redirect replaces `redirect.to`: an external URL when the destination is -1, else the id, with the parsed code; it raises exactly when the code does not parse, and otherwise sets `url_exists` |
| Outlinks.CanonicalStepFirstOnly | cdf/features/links/streams.py:395-405 | only the first canonical is stored (`equal` is src == dst, the url is an id when positive, else the string); later ones leave the document unchanged |
| Outlinks.PostProcessFinalises | cdf/features/links/streams.py:407-416 | post-processing sets `nb.unique` to the number of distinct destinations (at most the total) and drops the working sets; a document without the section is untouched |
| Outlinks.RunValid | cdf/features/links/streams.py:344-405 | a whole stream of records keeps the document invariant |
| Outlinks.RunNoError | cdf/features/links/streams.py:344-405 | a stream of well-formed records on a document with the sections raises nothing |
| Outlinks.StepRedirect | cdf/features/links/streams.py:384-393 | one well-formed record sets `redirect.to` when it is a redirect and leaves it alone otherwise |
| Outlinks.RunNoRedirect | cdf/features/links/streams.py:384-393 | a stream without redirects leaves `redirect.to` as it was |
| Outlinks.RunLastRedirectWins | cdf/features/links/streams.py:384-393 | after a stream, `redirect.to` is the last redirect's target and code |
| Outlinks.StepCanonical | cdf/features/links/streams.py:395-405 | one well-formed record sets `canonical.to` only if it is a canonical and none was stored yet |
| Outlinks.RunFirstCanonicalWins | cdf/features/links/streams.py:395-405 | after a stream, `canonical.to` is the one stored before it, otherwise the first canonical of the stream, otherwise absent |
| Outlinks.RunAnchorTotals | cdf/features/links/streams.py:354-355 | after a stream, each section's `nb.total` has grown by the number of anchors classified into it |
| Outlinks.StepTotals | cdf/features/links/streams.py:349-355 | one record adds one to exactly the section its anchor is classified into |
| Outlinks.StepUrlsExists | cdf/features/links/streams.py:372-382 | one record sets `outlinks_internal.urls_exists` exactly when it is an internal anchor with a positive destination |
| Outlinks.RunUrlsExists | cdf/features/links/streams.py:372-382 | after a stream, `urls_exists` holds iff it held before or some record was a sampled internal anchor |
| Outlinks.OutlinksDocument.constructor | cdf/features/links/streams.py:338-342 | the new document is the zero-filled one |
| Outlinks.OutlinksDocument.PreProcessDocument | cdf/features/links/streams.py:338-342 | in-place `pre_process_document`, as `PreProcess` |
| Outlinks.OutlinksDocument.ProcessDocument | cdf/features/links/streams.py:344-405 | in-place `process_document`: the new document and the exception are those of `Step`, and the invariant is kept |
| Outlinks.OutlinksDocument.ProcessAnchor | cdf/features/links/streams.py:347-382 | in-place anchor branch, as `AnchorStep` |
| Outlinks.OutlinksDocument.ProcessInternalAnchor | cdf/features/links/streams.py:349-382 | the anchor branch for an internal link, as `AnchorStep` |
| Outlinks.OutlinksDocument.ProcessSampledAnchor | cdf/features/links/streams.py:372-382 | the anchor branch for an internal link with a positive destination, as `AnchorStep` |
| Outlinks.OutlinksDocument.ProcessRedirect | cdf/features/links/streams.py:384-393 | in-place redirect branch, including the partial write before `int()` raises |
| Outlinks.OutlinksDocument.ProcessCanonical | cdf/features/links/streams.py:395-405 | in-place canonical branch, as `CanonicalStep` |
| Outlinks.OutlinksDocument.PostProcessDocument | cdf/features/links/streams.py:407-416 | in-place `post_process_document`: unique is at most the total and the working sets are gone |
| Inlinks.ZeroedValid | cdf/features/links/streams.py:532-536 | the zero-filled document satisfies the document invariant |
| Inlinks.PreProcess | cdf/features/links/streams.py:532-536 | both working sets are created empty |
| Inlinks.PreProcessValid | cdf/features/links/streams.py:532-536 | pre-processing keeps the invariant and changes nothing but the working sets |
| Inlinks.AnchorStepValid | cdf/features/links/streams.py:541-570 | the anchor branch keeps the invariant: the sample has no duplicates and at most 300 entries, and the counts agree |
| Inlinks.PushAgrees | cdf/features/links/streams.py:575-579 | recording a redirect or canonical source keeps the `from` sample's length at `min(nb, 300)` and `urls_exists` true exactly when `nb > 0`; which sources it holds is stated by `RunRedirectsFrom` and `RunCanonicalsFrom` |
| Inlinks.StepValid | cdf/features/links/streams.py:538-589 | every `process_document` call keeps the invariant |
| Inlinks.StepErrors | cdf/features/links/streams.py:538-589 | a `ValueError` exactly for a redirect whose code does not parse (raised before anything is written); a missing section for the other handled types; any exception leaves the document unchanged |
| Inlinks.AnchorStepCounts | cdf/features/links/streams.py:545-570 | an anchor adds one to the total and to follow or nofollow. Follow unique grows only for an unseen (source, mask). A combination key containing `robots` is not counted |
| Inlinks.PostProcessFinalises | cdf/features/links/streams.py:591-600 | `nb.unique` becomes the number of distinct sources, at most the total, and the working sets are dropped |
| Inlinks.StepEffect | cdf/features/links/streams.py:538-589 | one well-formed record: one more total per anchor; no `robots` combination ever counted; the redirect (source, code) and the non-self canonical source appended to their `from` sections |
| Inlinks.RunValid | cdf/features/links/streams.py:538-589 | a whole stream keeps the invariant |
| Inlinks.RunAnchors | cdf/features/links/streams.py:545-570 | after a stream: no exception, the total grows by the number of anchors, `urls_exists` holds iff some anchor came, and `robots` keys keep their count |
| Inlinks.RunRedirectsFrom | cdf/features/links/streams.py:572-579 | after a stream, `redirect.from` counts every redirect and samples the first 300 (source, code) pairs in stream order |
| Inlinks.RunCanonicalsFrom | cdf/features/links/streams.py:581-589 | after a stream, `canonical.from` counts every non-self canonical and samples the first 300 sources in stream order |
| Inlinks.InlinksDocument.constructor | cdf/features/links/streams.py:532-536 | the new document is the zero-filled one |
| Inlinks.InlinksDocument.PreProcessDocument | cdf/features/links/streams.py:532-536 | in-place `pre_process_document`, as `PreProcess` |
| Inlinks.InlinksDocument.ProcessDocument | cdf/features/links/streams.py:538-589 | in-place `process_document`: document and exception as `Step`, invariant kept |
| Inlinks.InlinksDocument.ProcessAnchor | cdf/features/links/streams.py:541-570 | in-place anchor branch, as `AnchorStep` |
| Inlinks.InlinksDocument.ProcessRedirect | cdf/features/links/streams.py:572-579 | in-place redirect branch: `int()` is evaluated before any write |
| Inlinks.InlinksDocument.PostProcessDocument | cdf/features/links/streams.py:591-600 | in-place `post_process_document` |
| BadLinks.KindOf | cdf/features/links/streams.py:742-748 | the 3xx, 4xx and 5xx buckets are exactly the ranges [300,400), [400,500) and 500 and above, and no bucket below 300 |
| BadLinks.ZeroedValid | cdf/features/links/streams.py:737-758 | the zero-filled document satisfies the invariant: total is the sum of the buckets, each sample holds `min(nb, 10)` entries |
| BadLinks.StepEffect | cdf/features/links/streams.py:737-758 | a missing section or a code below 300 raises and changes nothing; otherwise exactly the link's bucket is recorded and the total grows by one |
| BadLinks.StepValid | cdf/features/links/streams.py:737-758 | one bad link keeps the invariant |
| BadLinks.RunValid | cdf/features/links/streams.py:737-758 | a stream keeps the invariant |
| BadLinks.RunError | cdf/features/links/streams.py:742-750 | on a document with the section, a stream raises iff some code is below 300 |
| BadLinks.RunBuckets | cdf/features/links/streams.py:750-758 | after a stream, each bucket counts its links and samples the first ten of their destinations in stream order; the total counts every link |
| BadLinks.BadLinksDocument.constructor | cdf/features/links/streams.py:737-740 | the new document is the zero-filled one |
| BadLinks.BadLinksDocument.ProcessDocument | cdf/features/links/streams.py:737-758 | in-place `process_document`, as `Step`, invariant kept |
| Text.SortStringsSorted | cdf/features/links/streams.py:20 | `sorted(keys)` is ordered and a permutation of its input |
| Text.SortStringsOrderIndependent | cdf/features/links/streams.py:20 | `sorted` gives the same result for any two inputs with the same multiset |
| Text.IntToStringParses | cdf/features/links/tasks.py:96 | `int(str(n)) == n` |
| Text.SplitJoin | cdf/features/links/tasks.py:96 | splitting a tab-joined line of tab-free fields gives the fields back |
| ResourceType.LookupFinds | cdf/collections/url_properties/resource_type.py:39-44 | `rule[field]` is found iff the key is present, and it is the value of the key's first occurrence |
| ResourceType.ErrorsChained | cdf/collections/url_properties/resource_type.py:117-119 | the `errors` property chains the host, query and field messages in that order; it is empty iff all three are |
| ResourceType.HostAccepted | cdf/collections/url_properties/resource_type.py:85-88 | a host (without newline) raises no host error iff no `*` occurs after its first character and a leading `*` is followed by `.` |
| ResourceType.UnknownFieldErrorsEmpty | cdf/collections/url_properties/resource_type.py:92-94 | no unknown-field error iff every key is an allowed field |
| ResourceType.UnknownFieldErrorsExact | cdf/collections/url_properties/resource_type.py:92-94 | an unknown-field error is reported exactly for each key of the rule outside the allowed fields, with its host and rule index |
| ResourceType.MissingFieldsSpelled | cdf/collections/url_properties/resource_type.py:97-99 | a missing `query` and then a missing `value` are reported, in that order |
| ResourceType.RuleFieldErrorsExact | cdf/collections/url_properties/resource_type.py:92-99 | each field error of a rule is an unknown key or a missing mandatory field, and every such one is reported |
| ResourceType.RuleFieldErrorsEmpty | cdf/collections/url_properties/resource_type.py:92-99 | no field error iff all keys are allowed and both `query` and `value` are present |
| ResourceType.RuleErrorsEmpty | cdf/collections/url_properties/resource_type.py:90-105 | a rule has no field and no query error iff it is well-formed with a grammatical query |
| ResourceType.RulesErrorsEmpty | cdf/collections/url_properties/resource_type.py:90-105 | the rules of a host give no errors iff every rule is well-formed |
| ResourceType.SettingsErrorsEmpty | cdf/collections/url_properties/resource_type.py:84-105 | settings give no host, field or query errors iff every host and every rule is well-formed |
| ResourceType.ValidationAcceptsIff | cdf/collections/url_properties/resource_type.py:107-109 | validation returns True iff the settings are well-formed; when it raises, the exception carries at least one error |
| ResourceType.HostErrorsPerHost | cdf/collections/url_properties/resource_type.py:84-88 | at most one host error per host, each the error of some host of the settings |
| ResourceType.QueryErrorOnlyForBadQuery | cdf/collections/url_properties/resource_type.py:102-105 | a query error is reported iff the rule has a query the grammar rejects, and it carries the grammar's message |
| ResourceType.HostQueryRoundTrip | cdf/collections/url_properties/resource_type.py:33-36 | the host can be read back from the generated host query, for wildcard and plain hosts alike |
| ResourceType.CompileValidatesFirst | cdf/collections/url_properties/resource_type.py:29 | compilation raises the validation exception iff the settings are not well-formed |
| ResourceType.CompiledRuleFields | cdf/collections/url_properties/resource_type.py:39-44 | a compiled rule carries the value and any inherits_from, rule_id and abstract fields. Its query is the rule's own query if it inherits, else the host query joined with ` AND ` |
| ResourceType.ValidRuleCompiles | cdf/collections/url_properties/resource_type.py:39 | a well-formed rule fails to compile only when it must be joined and its query is not a string |
| ResourceType.CompileRulesOk | cdf/collections/url_properties/resource_type.py:32-45 | a host's rules compile iff each rule does |
| ResourceType.CompileRulesList | cdf/collections/url_properties/resource_type.py:32-45 | the compiled list holds one compiled rule per rule, in order |
| ResourceType.CompileRulesStopped | cdf/collections/url_properties/resource_type.py:32-45 | when compilation stops, it is at the first rule that raises |
| ResourceType.CompileHostsOk | cdf/collections/url_properties/resource_type.py:31-45 | all settings compile iff every (host, rule) pair does |
| ResourceType.CompileHostsRules | cdf/collections/url_properties/resource_type.py:31-47 | the result lists the compiled rules host by host, rule by rule |
| ResourceType.ValidateResourceTypeSettings | cdf/collections/url_properties/resource_type.py:79-109 | the loop computes exactly the validation answer |
| ResourceType.ValidateRules | cdf/collections/url_properties/resource_type.py:90-105 | the loop over one host's rules collects exactly its query and field errors |
| ResourceType.ValidateFields | cdf/collections/url_properties/resource_type.py:92-99 | the field loops of one rule collect exactly its field errors |
| ResourceType.CompileResourceTypeSettings | cdf/collections/url_properties/resource_type.py:12-47 | the nested loops compute exactly the compilation, including the exception raised mid-way |
| PageRankPrep.ScanPrefix | cdf/features/links/tasks.py:383-390 | the scan yields the longest prefix with ids at most `max_uid`, and stops at the first larger id |
| PageRankPrep.InfoStream.constructor | cdf/features/links/tasks.py:383 | a stream positioned at its first record |
| PageRankPrep.InfoStream.Next | cdf/features/links/tasks.py:383 | the next record and one step forward, or None at the end |
| PageRankPrep.GetNodeMappingAndExtraNonCrawls | cdf/features/links/tasks.py:368-397 | the yielded ids are those of the scanned prefix; the non-crawled set also includes the record that stops the scan; the stream is consumed by exactly the records examined |
| PageRankPrep.NonCrawledAppend | cdf/features/links/tasks.py:386-387 | a record adds its id to the non-crawled set iff its http_code is 0 |
| PageRankPrep.ScanPrefixLongest | cdf/features/links/tasks.py:388-389 | no longer prefix is within the bound |
| PageRankPrep.ScanStopsAtBound | cdf/features/links/tasks.py:388-389 | once a record exceeds the bound, records after it change neither the ids nor the non-crawled set |
| PageRankPrep.ExtraNonCrawlsExact | cdf/features/links/tasks.py:383-389 | an id is non-crawled iff a yielded record or the stopping record has it with http_code 0 |
| PageRankPrep.BijectiveInjective | cdf/features/links/tasks.py:436-439 | distinct external ids get distinct internal ids |
| PageRankPrep.SeparateLinkFiles | cdf/features/links/tasks.py:435-444 | the loop writes exactly the graph records and the virtual records of the groups |
| PageRankPrep.GraphRecordsExact | cdf/features/links/tasks.py:438-440 | one graph record per group with normal links, in group order |
| PageRankPrep.VirtualRecordsExact | cdf/features/links/tasks.py:443-444 | one virtual record per group with virtual links, in group order |
| PageRankPrep.GraphRecordRoundTrip | cdf/features/links/tasks.py:436-440 | a graph record's length is its number of links, and its ids map back to the source and the destinations |
| PageRankPrep.VirtualRecordRoundTrip | cdf/features/links/tasks.py:436-444 | a virtual record keeps outdeg and virtuals, and its id maps back to the source |
| PageRankPrep.PairResultRoundTrip | cdf/features/links/tasks.py:458 | each result pair carries the i-th page-rank value with the external id whose internal id is i |
| PageRankPrep.PairResultDistinct | cdf/features/links/tasks.py:458 | no external id appears twice in the result |
| CounterFiles.Strs | cdf/features/links/tasks.py:96 | each count is written with `str` |
| CounterFiles.MakeLinksCounterFile | cdf/features/links/tasks.py:83-115 | the loop computes exactly the files written and the return value, or the `KeyError` |
| CounterFiles.WriteCounterLine | cdf/features/links/tasks.py:93-96 | one entry: open the type's file if needed, then append the line |
| CounterFiles.WriteStopped | cdf/features/links/tasks.py:94-95 | once a `KeyError` is raised, later entries change nothing |
| CounterFiles.RoutedAppend | cdf/features/links/tasks.py:96 | an entry adds its line only to its own type's file |
| CounterFiles.FileNameKnown | cdf/features/links/tasks.py:83-87 | a file name exists exactly for `links`, `canonical` and `redirect` |
| CounterFiles.WriteEntryEffect | cdf/features/links/tasks.py:93-96 | a known entry opens its file once, under its type's name, appends its line there and leaves the other files alone |
| CounterFiles.TypesOfAppend | cdf/features/links/tasks.py:94 | the opened types grow by the entry's type |
| CounterFiles.WriteRoutes | cdf/features/links/tasks.py:90-96 | with known types, one file per type seen, under its name, holding exactly that type's lines in stream order |
| CounterFiles.RoutedAbsent | cdf/features/links/tasks.py:96 | a type not seen gets no lines |
| CounterFiles.WriteRaises | cdf/features/links/tasks.py:94-95 | the loop raises iff some entry has an unknown type, namely the first such one |
| CounterFiles.WriteKeysKnown | cdf/features/links/tasks.py:94-95 | only known link types get files |
| CounterFiles.PartIdIffCreated | cdf/features/links/tasks.py:113-115 | `part_id` is returned iff some file was created, and None iff the stream was empty |
| CounterFiles.FileNamesDistinct | cdf/features/links/tasks.py:83-87 | the three link types get three different file names |
| CounterFiles.LineFields | cdf/features/links/tasks.py:96 | a line ends in a newline, its tab-separated fields are the id and then the counts, and each field parses back to its number |

## Left out

- I/O: loading streams, S3 fetch and push, gzip, `marshal`, `os.path`, logging and timing. File contents are sequences of records or lines, and the pushed files are the map of created files.
- The stream framework around the hooks: `StreamDefBase`, the transducers, `URL_DOCUMENT_MAPPING` and the zero-filled document it builds. The model starts from `Zeroed`.
- `list_to_mask`, `is_link_internal`, `validate_query_grammar`, `query_to_python` and `compute_page_rank` are not part of this model. They are parameters, and their results are taken as given.
- `DictMapping` is not part of this model. `GetNodeMappingAndExtraNonCrawls` returns the sequence of ids the mapping is built from. The node mapping is a pair of maps with a bijection predicate.
- `group_links` and `pagerank_filter` are not part of this model. The groups are an input sequence.
- PageRankPrep.SeparateLinkFiles: requires every source and normal destination to be in the mapping, because `get_internal_id` on a missing id is not visible here.
- The page-rank values are arbitrary values paired by index; no floating point is modelled.
- `InfosStreamDef.field_idx('http_code')`: a record is the pair (id, http_code).
- Inlinks: the text hash and anchor text columns are read but not used by the counters, and are not modelled.
- Python `int()` is modelled on an optional sign followed by ASCII digits. Surrounding whitespace, which Python also accepts, is not modelled.
- Dictionary iteration order in Python 2 is not determined. Settings and rules are sequences in a given order, and the `errors` accessor chains host, query and field errors in that order.
- Outlinks.StepErrors, Inlinks.StepErrors: `process_document` before `pre_process_document` is not modelled. Without the working sets, an internal follow anchor raises `KeyError` in the code, after the totals were incremented. `Step` treats the missing sets as empty. The document classes require the working sets.
- Logging of the skipped `robots` combinations in inlinks has no effect on the document and is left out.
- The exception message formats are modelled as structured errors with a message function. `%d` and `%s` formatting of non-string values is not modelled beyond integers.
