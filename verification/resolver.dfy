/** `read_input`: classifies a source by an ordered list of rules, first match
    wins, and picks the reader that services it. The readers themselves are
    represented by tags carrying the arguments they are built with. */
module Resolver {
  import opened Values
  import opened Text
  import opened Generators
  import Paths
  import StreamReaders

  /** The keyword arguments passed through to a reader. */
  type Kwargs = map<string, Value>

  const Auto := "auto"
  const SolrType := "solr"
  const ElasticType := "elastic"
  const JsonStreamType := "json_stream"
  const LargeJsonType := "large_json"
  const FolderType := "folder"

  /** Solr's default port and Elasticsearch's default port, as substrings. */
  const SolrPort := "8983"
  const ElasticPort := "9200"

  const JsonExtensions: seq<string> := [".js", ".json"]

  const UnrecognizedPrefix := "Unrecognized source type: "
  const UnrecognizedSuffix :=
    ".  Please either manually specify the type, or convert your input to a supported type."

  /** The reader `read_input` hands back, with the arguments it was built
      with. The folder reader gets only the content field, never the
      keyword arguments. */
  datatype Reader =
    | SolrReader(source: string, kwargs: Kwargs)
    | ElasticReader(source: string, kwargs: Kwargs)
    | JsonStreamReader(source: string, kwargs: Kwargs)
    | LargeJsonReader(source: string, kwargs: Kwargs)
    | FolderReader(source: string, contentField: string)

  /** The source types `read_input` accepts, directly or by detection. */
  predicate Recognized(source: string, sourceType: string) {
    || sourceType in {SolrType, ElasticType, JsonStreamType, LargeJsonType, FolderType}
    || (sourceType == Auto
        && (|| Contains(source, SolrPort)
            || Contains(source, ElasticPort)
            || Paths.Ext(source) in JsonExtensions
            || Paths.Ext(source) == []))
  }

  /** The JSON branch: the json-stream reader is probed by pulling one element
      from a copy of it; on success a freshly built json-stream reader is
      returned (so the caller still starts at document 0), on `ValueError` the
      large-JSON reader is used instead, and any other exception escapes. */
  function JsonBranch(source: string, kwargs: Kwargs, probe: Probe): (r: Result)
    ensures probe == Produced ==> r == Ok(JsonStreamReader(source, kwargs))
    ensures probe.Failed? && probe.exc.ValueError? ==> r == Ok(LargeJsonReader(source, kwargs))
    ensures probe.Failed? && !probe.exc.ValueError? ==> r == Err(probe.exc)
  {
    match probe
    case Produced => Ok(JsonStreamReader(source, kwargs))
    case Failed(e) => if e.ValueError? then Ok(LargeJsonReader(source, kwargs)) else Err(e)
  }

  datatype Result = Ok(reader: Reader) | Err(exc: Exc)

  /** `read_input(source, source_type, content_field, **kwargs)`, with the
      outcome of the json-stream probe supplied as `probe` (it is only
      consulted on the JSON branch). */
  function ReadInput(source: string, sourceType: string, contentField: string,
                     kwargs: Kwargs, probe: Probe): (r: Result)
    // An explicit source type selects its own reader, whatever the source says.
    ensures sourceType == SolrType ==> r == Ok(SolrReader(source, kwargs))
    ensures sourceType == ElasticType ==> r == Ok(ElasticReader(source, kwargs))
    ensures sourceType == JsonStreamType ==> r == JsonBranch(source, kwargs, probe)
    ensures sourceType == LargeJsonType ==> r == Ok(LargeJsonReader(source, kwargs))
    ensures sourceType == FolderType ==> r == Ok(FolderReader(source, contentField))
    // Detection order: Solr port, then Elasticsearch port, then JSON extension, then no extension.
    ensures sourceType == Auto && Contains(source, SolrPort) ==> r == Ok(SolrReader(source, kwargs))
    ensures sourceType == Auto && !Contains(source, SolrPort) && Contains(source, ElasticPort)
            ==> r == Ok(ElasticReader(source, kwargs))
    ensures sourceType == Auto && !Contains(source, SolrPort) && !Contains(source, ElasticPort)
            && Paths.Ext(source) in JsonExtensions
            ==> r == JsonBranch(source, kwargs, probe)
    ensures sourceType == Auto && !Contains(source, SolrPort) && !Contains(source, ElasticPort)
            && Paths.Ext(source) == []
            ==> r == Ok(FolderReader(source, contentField))
    // Everything else is refused with a ValueError naming the source.
    ensures !Recognized(source, sourceType)
            ==> r == Err(ValueError(UnrecognizedPrefix + source + UnrecognizedSuffix))
    // A recognized source fails only when the probe raises something other than ValueError.
    ensures Recognized(source, sourceType) && r.Err?
            ==> probe.Failed? && !probe.exc.ValueError? && r.exc == probe.exc
  {
    if (sourceType == Auto && Contains(source, SolrPort)) || sourceType == SolrType then
      Ok(SolrReader(source, kwargs))
    else if (sourceType == Auto && Contains(source, ElasticPort)) || sourceType == ElasticType then
      Ok(ElasticReader(source, kwargs))
    else if (sourceType == Auto && Paths.Ext(source) in JsonExtensions) || sourceType == JsonStreamType then
      JsonBranch(source, kwargs, probe)
    else if sourceType == LargeJsonType then
      Ok(LargeJsonReader(source, kwargs))
    else if (sourceType == Auto && Paths.Ext(source) == []) || sourceType == FolderType then
      Ok(FolderReader(source, contentField))
    else
      Err(ValueError(UnrecognizedPrefix + source + UnrecognizedSuffix))
  }

  /** Under detection the large-JSON reader is never chosen directly: it is
      reached only as the fallback of a probe that raised `ValueError`. */
  lemma AutoLargeJsonOnlyByFallback(source: string, contentField: string, kwargs: Kwargs, probe: Probe)
    requires ReadInput(source, Auto, contentField, kwargs, probe) == Ok(LargeJsonReader(source, kwargs))
    ensures probe.Failed? && probe.exc.ValueError?
    ensures Paths.Ext(source) in JsonExtensions
  {
  }

  /** The Solr port wins over the Elasticsearch port and over a JSON extension. */
  lemma SolrPortWinsExample(kwargs: Kwargs, probe: Probe)
    ensures ReadInput("localhost:8983/9200.json", Auto, "text", kwargs, probe)
            == Ok(SolrReader("localhost:8983/9200.json", kwargs))
  {
    var s := "localhost:8983/9200.json";
    assert SolrPort <= s[10..];
  }

  /** An explicit type wins over a port in the source, and a path ending in
      a separator is detected as a folder. */
  lemma FolderExamples(kwargs: Kwargs, probe: Probe)
    ensures ReadInput("localhost:9200", FolderType, "text", kwargs, probe)
            == Ok(FolderReader("localhost:9200", "text"))
    ensures ReadInput("docs/", Auto, "text", kwargs, probe) == Ok(FolderReader("docs/", "text"))
  {
    NotContainsFirstCharAbsent("docs/", SolrPort);
    NotContainsFirstCharAbsent("docs/", ElasticPort);
    Paths.ExtMatchesExtensionAt("docs/");
  }

  /** A `.txt` file is refused when the type is detected. */
  lemma UnrecognizedExtensionExample(kwargs: Kwargs, probe: Probe)
    ensures ReadInput("notes.txt", Auto, "text", kwargs, probe)
            == Err(ValueError(UnrecognizedPrefix + "notes.txt" + UnrecognizedSuffix))
  {
    var t := "notes.txt";
    NotContainsFirstCharAbsent(t, SolrPort);
    NotContainsFirstCharAbsent(t, ElasticPort);
    TxtExtension();
    assert !Recognized(t, Auto);
  }

  lemma TxtExtension()
    ensures Paths.Ext("notes.txt") == ".txt"
  {
    var t := "notes.txt";
    assert t[0] != '.' && t[0] != '/' && forall j :: 0 < j < 5 ==> t[j] != '/';
    assert Paths.ExtensionAt(t, 5);
    Paths.ExtMatchesExtensionAt(t);
  }

  /** An unknown explicit type is refused whatever the source. */
  lemma UnrecognizedTypeExample(kwargs: Kwargs, probe: Probe)
    ensures ReadInput("docs/", "csv", "text", kwargs, probe)
            == Err(ValueError(UnrecognizedPrefix + "docs/" + UnrecognizedSuffix))
  {
  }

  /** A JSON-lines file none of whose lines parses gives a reader that ends
      without yielding, so the probe's `StopIteration` is not a `ValueError`
      and escapes `read_input` instead of selecting the large-JSON reader. */
  lemma UnparsableStreamEscapes(source: string, field: string, contentField: string,
                                kwargs: Kwargs, lines: seq<StreamReaders.Line>)
    requires forall n :: 0 <= n < |lines| ==> lines[n].Malformed?
    ensures var probe := ProbeOf(StreamReaders.JsonStreamReference(source, field, lines));
            ReadInput(source, JsonStreamType, contentField, kwargs, probe) == Err(StopIteration)
  {
  }
}
