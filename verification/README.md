# topik input readers in Dafny

This project models the input-ingestion layer of topik, a text-analysis toolkit. That layer turns a source into a sequence of `(identifier, content)` records. It has two parts:

- **`read_input`** picks a reader for a source. An explicit source type selects the reader directly. With `"auto"`, rules are tried in a fixed order and the first match wins:
  1. `8983` in the string means Solr.
  2. `9200` means Elasticsearch.
  3. A `.js`/`.json` extension means the JSON-lines reader, which is probed by pulling one element. The large-JSON reader is used if that probe raises `ValueError`.
  4. No extension means a folder.
  5. Anything else is refused with a `ValueError`.
- **The readers.**
  - The JSON-lines reader yields one document per parsed line, with identifier `file/field[n]`.
  - The large-JSON reader yields the values of the selected parser events.
  - The Elasticsearch scroll reader pulls a field or subfield out of every hit. Hits that lack it are skipped, with at most ten warnings counted.
  - The random-sample reader repeats searches at random offsets until enough tuples have been yielded.

A Python generator pulled to its end is represented by what it yields plus the exception it ends with (`Generators.Run`). Things outside the code are inputs to the model:

- the file's lines, already parsed;
- the parser's events;
- the search responses;
- the random draws;
- the outcome of the probe.

Modules:

- `Wrappers`: `Option`, `Min` and `Max`.
- `Values`: JSON values and exceptions.
- `Generators`: generator runs, and the first index satisfying a predicate.
- `Text`: substrings and `"%d"`.
- `Paths`: `os.path.splitext`.
- `Resolver`: `read_input`.
- `StreamReaders`: the JSON-lines and large-JSON readers.
- `QueryReaders`: hit extraction and the scroll reader.
- `Sampling`: the random-sample reader.

## Model

| member | source | states |
|---|---|---|
| Values.Get | topik/readers.py:40 | `dict.get(field)` gives the stored value when the key is present and `None` when it is absent |
| Generators.ProbeOf | topik/fileio/reader.py:71 | Pulling one element succeeds iff the generator yields something. A generator that ends silently raises `StopIteration`. Any other failure is the exception the generator ends with. |
| Text.Decimal | topik/readers.py:41 | `"%d" % n` is a non-empty string of digits with no leading zero |
| Text.ParseDecimalOfDecimal | topik/readers.py:41 | The number in an identifier can be read back: parsing `"%d" % n` gives `n` |
| Text.DecimalInjective | topik/readers.py:41 | Distinct line numbers render as distinct digit strings |
| Paths.Splitext | topik/fileio/reader.py:67 | `root + ext` is the path. The extension is empty or starts with `.`, and contains no further `.` or `/`. |
| Paths.ExtMatchesExtensionAt | topik/fileio/reader.py:67 | The computed extension agrees with an independent description, in both directions: the last dot of the last path component, with a non-dot character before it in that component |
| Paths.ExtExamples | topik/fileio/reader.py:79-80 | A trailing `/`, a dot in a directory name and a leading dot all give no extension, so `dir/` is detected as a folder; `data/docs.json` has extension `.json` |
| Resolver.JsonBranch | topik/fileio/reader.py:67-76 | A successful probe gives a fresh JSON-lines reader. A probe that raises `ValueError` gives the large-JSON reader. Any other exception escapes. |
| Resolver.ReadInput | topik/fileio/reader.py:56-87 | Each explicit type selects its reader. Detection goes in order: Solr port, Elasticsearch port, JSON extension, no extension. An unrecognized source gets the exact `ValueError` message. A recognized source fails only with a probe exception that is not a `ValueError`. The folder reader gets `content_field` and never the kwargs. |
| Resolver.AutoLargeJsonOnlyByFallback | topik/fileio/reader.py:61-81 | Under detection, the large-JSON reader is chosen only for a JSON extension whose probe raised `ValueError` |
| Resolver.SolrPortWinsExample | topik/fileio/reader.py:61-67 | `localhost:8983/9200.json` is a Solr source: the first rule wins over the port and the extension |
| Resolver.FolderExamples | topik/fileio/reader.py:64-81 | An explicit `folder` wins over a `9200` in the source. `docs/` is detected as a folder. |
| Resolver.UnrecognizedExtensionExample | topik/fileio/reader.py:80-84 | `notes.txt` with `auto` is refused with the `ValueError` that names it |
| Resolver.UnrecognizedTypeExample | topik/fileio/reader.py:82-84 | An unknown explicit type is refused |
| Resolver.UnparsableStreamEscapes | topik/fileio/reader.py:68-76 | If no line of a JSON-lines file parses, the probe's `StopIteration` escapes `read_input` and the large-JSON fallback is not taken |
| StreamReaders.JsonStreamIndexOfId | topik/readers.py:41 | The line number can be read back from every JSON-lines identifier |
| StreamReaders.ParsedIndices | topik/readers.py:37-40 | The numbers of parsed lines are in range, point at parsed lines and strictly increase |
| StreamReaders.ParsedIndicesComplete | topik/readers.py:37-45 | Every parsed line before the stop point is listed, so no good line is lost |
| StreamReaders.NoParsedIndices | topik/readers.py:37-45 | A file in which no line parses lists no line |
| StreamReaders.IterDocumentJsonStream | topik/readers.py:36-45 | The loop yields one document per parsed object line, in file order. Each identifier is `file/field[n]` with the line's own number `n`, and the content is `dict.get(field)`. Unparsable lines are skipped. The first parsed non-object ends the run with `AttributeError`. |
| StreamReaders.JsonStreamIdsUnique | topik/readers.py:37-42 | Within one run, all identifiers are pairwise distinct |
| StreamReaders.JsonStreamLength | topik/readers.py:37-45 | With no non-object line, the run ends normally and yields exactly one document per parsed line |
| StreamReaders.ParsedIndicesCount | topik/readers.py:37-45 | The number of listed lines equals the number of parsed lines before the stop point |
| StreamReaders.JsonStreamGapExample | topik/readers.py:37-45 | A skipped line still uses up its number (`f/text[0]`, then `f/text[2]`). An object without the field yields `None`. |
| StreamReaders.JsonStreamProbeNeverValueError | topik/readers.py:38-45 | The reader catches every parse `ValueError`, so pulling from it never raises `ValueError` |
| StreamReaders.SelectedValues | topik/readers.py:81-83 | A value is selected iff some event with exactly the requested prefix and event type carries it |
| StreamReaders.IterLargeJson | topik/readers.py:76-84 | The reader yields the selected events' values in stream order, each under identifier `prefix/event`, and ends as the parser does |
| QueryReaders.ExtractHitFollowsSubscript | topik/readers.py:109-123 | Extraction agrees with Python's nested-subscript semantics. A missing `_source` raises `KeyError`. Subscripting a non-dict raises `TypeError`. A missing key, or a missing `_id` when one is wanted, is skipped. Otherwise the subscripted value is yielded under `field` or `field/subfield`. |
| QueryReaders.Warn | topik/readers.py:120-121 | The warning counter steps only below 10 |
| QueryReaders.Fold | topik/readers.py:109-123 | A pass yields at most one tuple per hit. Its warning counter never shrinks and, started within the cap, stays within it. |
| QueryReaders.FoldClosedForm | topik/readers.py:109-123 | A pass yields the tuples of the hits before the first raising hit, ends with that hit's exception, and leaves the counter at min(10, start + skips), never below the start |
| QueryReaders.FoldIgnoresWarnings | topik/readers.py:109-123 | What a pass yields, and how it ends, does not depend on the starting counter |
| QueryReaders.PassIgnoresWarnings | topik/readers.py:109-123 | The same, stated over the hits |
| QueryReaders.ProcessHits | topik/readers.py:109-123 | The `for hit in hits` loop computes exactly the pass |
| QueryReaders.IterElasticQuery | topik/readers.py:102-128 | No cursor: nothing is yielded and the reader ends. An empty first page ends after one pass. A raising first page ends the reader with its earlier tuples and that exception. |
| QueryReaders.ScrollRepeatsFirstPage | topik/readers.py:108-128 | As written, a non-empty first page with a cursor is yielded again on every pass. The reader never ends, and only the counter is capped. |
| QueryReaders.IterElasticScroll | topik/readers.py:102-104 | The corrected scroll reader also ends at once without a cursor |
| QueryReaders.ScrollEndsAtEndOfScroll | topik/readers.py:125-128 | The corrected scroll reader ends at the first page with no cursor or no hits, having yielded the tuples of every page up to it, in order |
| QueryReaders.PagesItemsCons | topik/readers.py:108-124 | The tuples of a sequence of pages are the first page's tuples followed by the rest's |
| QueryReaders.ScrollAgreesOnSinglePage | topik/readers.py:125-128 | When the first page already ends the scroll, the loop as written and the corrected loop agree |
| QueryReaders.ScrollDefectExample | topik/readers.py:108-128 | One good hit with a cursor, then an empty page: the corrected reader yields the hit once and ends, while the reader as written yields it once per pass and never ends |
| Sampling.RandomInRange | topik/readers.py:135-142 | The offset is never negative and the window's end is `draw + batch_size`. A non-negative draw is used as is; a negative one is clamped to 0. |
| Sampling.InRangeDrawNeverClamps | topik/readers.py:136-142 | A draw from `randint(0, count)` is never clamped: the offset lies in `[0, count]` and the size is `batch_size` |
| Sampling.SearchBatch | topik/readers.py:151-169 | One batch adds exactly its reply's tuples and ends as that reply's pass does. It continues the call's warning counter from where the previous batch left it, which keeps it within 10. |
| Sampling.BatchItemsSnoc | topik/readers.py:152-169 | The tuples of the first `b+1` batches are those of the first `b` plus batch `b`'s |
| Sampling.RandomElasticQuery | topik/readers.py:150-169 | `sampled` counts exactly the yielded tuples. There is one in-range, full-size search per batch. The target is checked only before a batch. A run ending normally before the replies run out has reached the target. The tuples are those of the searched batches in order. No batch before the last one raised. When a batch raises, the run ends with it and carries that batch's exception. The single warning counter runs through all batches of the call and is capped at 10 for the whole call, not per batch. |
| Sampling.BatchItemsBound | topik/readers.py:152-164 | With replies of at most `batch_size` hits, `b` batches yield at most `b * batch_size` tuples |
| Sampling.BatchesNeeded | topik/readers.py:152-164 | Reaching `n_samples` tuples with such replies takes at least `n_samples / batch_size` searches, rounded up |
| Sampling.DefaultSearchesNeeded | topik/readers.py:129-130 | With the defaults (`batch_size=400`, `n_samples=1000000`) and at most a batch of hits per reply, reaching the target takes at least 2500 searches |

## Left out

- The folder reader (`iter_documents_folder`) is left out: it walks a directory, opens and decompresses files and decodes UTF-8, which is all I/O. `read_input` is modelled only as far as handing it the source and `content_field`.
- The Solr reader is left out. It delegates to a client library and to `batch_concat`, and `batch_concat` is not part of this model.
- The reader registry is left out. `read_input` returns a tag naming the reader and its arguments, and the outcome of the JSON-lines probe is an input.
- Logging is left out: the warning text and the logging calls are dropped. Only the capped warning counter of the query readers is kept.
- `json.loads` and `ijson.parse` are replaced by their results: each line is parsed or malformed, and the events arrive as a stream that may end with an exception.
- A line that cannot be decoded from the file, and a failing `open`, are I/O errors. They are not modelled, so in the model the JSON-lines reader never raises `ValueError`.
- Floating-point JSON numbers are not modelled.
- Network calls are left out:
  - The cursor request, count request and search request become supplied responses, counts and replies.
  - `doc_type="article"` and the `scroll='5m'` window have no effect in the model.
  - Transport errors are not modelled.
- `randint` is replaced by a supplied sequence of draws.
- QueryReaders.IterElasticQuery: the reader as written loops forever on a non-empty first page that has a cursor and on which no hit raises. It is modelled for a given number of passes, and `finished` records whether it ended within them.
- Sampling.RandomElasticQuery: the replies are a finite sequence, so a run that never reaches `n_samples` stops when they run out. The Python loop would keep searching.
- QueryReaders.ExtractHitFollowsSubscript: one might expect a hit that cannot be indexed to be skipped like any other bad record. The code catches only `ValueError` and `KeyError`, so a missing `_source` (read before the `try`) and a `TypeError` from subscripting a non-dict end the reader. The model follows the code.
- StreamReaders.IterLargeJson: one might expect every reader to give each document its own identifier. The large-JSON reader gives every document the same identifier, `prefix/event`. The model follows the code.

## Findings

| source | as written | input that shows it | evidently intended | confidence | as-written member | corrected member |
|---|---|---|---|---|---|---|
| topik/readers.py:108-128 | The `while True` loop never assigns `resp` and never requests the next scroll page. Every pass re-reads the first response, and the loop exits only when that response has no cursor or no hits. | A first response with cursor `c1` and one hit with `_source = {"text": "a"}`: the reader yields `("text", "a")` over and over and never ends | After each page, request the next page with the scroll cursor, and stop at the first page with no cursor or no hits | high, not executed | QueryReaders.ScrollRepeatsFirstPage | QueryReaders.ScrollEndsAtEndOfScroll |
