/** The two file-based readers whose records come from parsing:
    `iter_document_json_stream` (one JSON object per line) and
    `iter_large_json` (an event stream from an incremental parser). The file
    and the parsers are replaced by their outputs, supplied as input. */
module StreamReaders {
  import opened Wrappers
  import opened Values
  import opened Text
  import opened Generators

  /** The outcome of `json.loads(line)` for one line of the file. */
  datatype Line = Parsed(value: Value) | Malformed

  /** A yielded `(identifier, content)` pair. */
  datatype Document = Document(id: string, content: Value)

  // ---------------------------------------------------------------------
  // JSON-lines reader
  // ---------------------------------------------------------------------

  /** The identifier `"<filename>/<field>[<n>]"` of the document on line `n`. */
  function JsonStreamId(filename: string, field: string, n: nat): string {
    filename + "/" + field + "[" + Decimal(n) + "]"
  }

  /** Reads the line number back out of an identifier for the given file and
      field, if it has that shape. */
  function JsonStreamIndex(filename: string, field: string, id: string): Option<nat> {
    var pre := filename + "/" + field + "[";
    if |id| >= |pre| + 2 && id[..|pre|] == pre && id[|id| - 1] == ']'
       && AllDigits(id[|pre|..|id| - 1])
    then Some(ParseDecimal(id[|pre|..|id| - 1]))
    else None
  }

  /** The line number can always be recovered from an identifier. */
  lemma JsonStreamIndexOfId(filename: string, field: string, n: nat)
    ensures JsonStreamIndex(filename, field, JsonStreamId(filename, field, n)) == Some(n)
  {
    var pre := filename + "/" + field + "[";
    var id := JsonStreamId(filename, field, n);
    assert id == pre + Decimal(n) + "]";
    assert id[|pre|..|id| - 1] == Decimal(n);
    ParseDecimalOfDecimal(n);
  }

  /** A parsed line that is not a JSON object: `.get` on it raises
      `AttributeError`, which the reader does not catch. */
  predicate Fatal(line: Line) {
    line.Parsed? && !line.value.Obj?
  }

  /** The content of a parsed object line: `dictionary.get(field)`. */
  function ContentOf(line: Line, field: string): Value {
    if line.Parsed? && line.value.Obj? then Get(line.value.fields, field) else Null
  }

  /** The numbers, in increasing order, of the lines before `stop` that parse. */
  function ParsedIndices(lines: seq<Line>, stop: nat): (idx: seq<nat>)
    requires stop <= |lines|
    ensures forall k :: 0 <= k < |idx| ==> idx[k] < stop && lines[idx[k]].Parsed?
    ensures forall i, j :: 0 <= i < j < |idx| ==> idx[i] < idx[j]
  {
    if stop == 0 then []
    else ParsedIndices(lines, stop - 1) + (if lines[stop - 1].Parsed? then [stop - 1] else [])
  }

  /** Every parsed line before `stop` is listed. */
  lemma {:induction false} ParsedIndicesComplete(lines: seq<Line>, stop: nat, n: nat)
    requires stop <= |lines|
    requires n < stop && lines[n].Parsed?
    ensures n in ParsedIndices(lines, stop)
  {
    if n < stop - 1 {
      ParsedIndicesComplete(lines, stop - 1, n);
    }
  }

  /** When no line parses, no line is listed. */
  lemma {:induction false} NoParsedIndices(lines: seq<Line>, stop: nat)
    requires stop <= |lines|
    requires forall n :: 0 <= n < |lines| ==> lines[n].Malformed?
    ensures ParsedIndices(lines, stop) == []
  {
    if stop > 0 {
      NoParsedIndices(lines, stop - 1);
    }
  }

  /** The documents of the given lines, in the given order. */
  function DocumentsAt(filename: string, field: string, lines: seq<Line>, idx: seq<nat>): (docs: seq<Document>)
    requires forall k :: 0 <= k < |idx| ==> idx[k] < |lines|
    ensures |docs| == |idx|
    ensures forall k :: 0 <= k < |idx| ==>
              docs[k] == Document(JsonStreamId(filename, field, idx[k]), ContentOf(lines[idx[k]], field))
  {
    if |idx| == 0 then []
    else
      var last := idx[|idx| - 1];
      DocumentsAt(filename, field, lines, idx[..|idx| - 1])
        + [Document(JsonStreamId(filename, field, last), ContentOf(lines[last], field))]
  }

  /** What the JSON-lines reader yields, described without a loop: one
      document per parsed line before the first non-object line, in file
      order, ending with `AttributeError` if such a line exists. */
  function JsonStreamReference(filename: string, field: string, lines: seq<Line>): Run<Document> {
    var stop := FirstIndex(lines, Fatal);
    Run(DocumentsAt(filename, field, lines, ParsedIndices(lines, stop)),
        if stop < |lines| then Some(AttributeError) else None)
  }

  /** `iter_document_json_stream(filename, field)` over the parse outcome of
      each line of the file. */
  method IterDocumentJsonStream(filename: string, field: string, lines: seq<Line>)
    returns (run: Run<Document>)
    ensures run == JsonStreamReference(filename, field, lines)
  {
    var docs: seq<Document> := [];
    var n := 0;
    while n < |lines|
      invariant n <= FirstIndex(lines, Fatal)
      invariant docs == DocumentsAt(filename, field, lines, ParsedIndices(lines, n))
      decreases |lines| - n
    {
      if lines[n].Malformed? {
        // json.loads raised ValueError: the line is logged and skipped
        assert ParsedIndices(lines, n + 1) == ParsedIndices(lines, n);
      } else {
        var v := lines[n].value;
        if !v.Obj? {
          return Run(docs, Some(AttributeError));
        }
        DocumentsAtSnoc(filename, field, lines, ParsedIndices(lines, n), n);
        docs := docs + [Document(JsonStreamId(filename, field, n), Get(v.fields, field))];
      }
      n := n + 1;
    }
    return Run(docs, None);
  }

  lemma DocumentsAtSnoc(filename: string, field: string, lines: seq<Line>, idx: seq<nat>, n: nat)
    requires forall k :: 0 <= k < |idx| ==> idx[k] < |lines|
    requires n < |lines|
    ensures DocumentsAt(filename, field, lines, idx + [n])
            == DocumentsAt(filename, field, lines, idx)
               + [Document(JsonStreamId(filename, field, n), ContentOf(lines[n], field))]
  {
  }

  /** The documents of one run carry pairwise distinct identifiers, because
      distinct line numbers give distinct identifiers. */
  lemma JsonStreamIdsUnique(filename: string, field: string, lines: seq<Line>)
    ensures var docs := JsonStreamReference(filename, field, lines).items;
            forall i, j :: 0 <= i < j < |docs| ==> docs[i].id != docs[j].id
  {
    var docs := JsonStreamReference(filename, field, lines).items;
    var idx := ParsedIndices(lines, FirstIndex(lines, Fatal));
    forall i, j | 0 <= i < j < |docs|
      ensures docs[i].id != docs[j].id
    {
      JsonStreamIndexOfId(filename, field, idx[i]);
      JsonStreamIndexOfId(filename, field, idx[j]);
    }
  }

  /** Number of lines that parse. */
  function CountParsed(lines: seq<Line>): nat {
    if |lines| == 0 then 0
    else CountParsed(lines[..|lines| - 1]) + (if lines[|lines| - 1].Parsed? then 1 else 0)
  }

  /** When every parsed line is an object, the reader yields exactly one
      document per parsed line and ends normally. */
  lemma {:induction false} JsonStreamLength(filename: string, field: string, lines: seq<Line>)
    requires forall n :: 0 <= n < |lines| ==> !Fatal(lines[n])
    ensures JsonStreamReference(filename, field, lines).raised == None
    ensures |JsonStreamReference(filename, field, lines).items| == CountParsed(lines)
  {
    ParsedIndicesCount(lines, |lines|);
    assert lines[..|lines|] == lines;
  }

  lemma {:induction false} ParsedIndicesCount(lines: seq<Line>, stop: nat)
    requires stop <= |lines|
    ensures |ParsedIndices(lines, stop)| == CountParsed(lines[..stop])
  {
    if stop > 0 {
      ParsedIndicesCount(lines, stop - 1);
      assert lines[..stop][..stop - 1] == lines[..stop - 1];
    }
  }

  /** A line that does not parse still uses up its line number, and an object
      without the field is yielded with content `None`. */
  lemma JsonStreamGapExample()
    ensures JsonStreamReference("f", "text",
              [Parsed(Obj(map["text" := Str("a")])), Malformed, Parsed(Obj(map[]))]).items
            == [Document("f/text[0]", Str("a")), Document("f/text[2]", Null)]
  {
    var lines := [Parsed(Obj(map["text" := Str("a")])), Malformed, Parsed(Obj(map[]))];
    GapIndices(lines);
    GapIds();
    DocumentsAtSnoc("f", "text", lines, [0], 2);
    assert [0, 2] == [0] + [2];
  }

  lemma GapIndices(lines: seq<Line>)
    requires lines == [Parsed(Obj(map["text" := Str("a")])), Malformed, Parsed(Obj(map[]))]
    ensures FirstIndex(lines, Fatal) == 3
    ensures ParsedIndices(lines, 3) == [0, 2]
  {
    assert ParsedIndices(lines, 1) == [0];
    assert ParsedIndices(lines, 2) == [0];
  }

  lemma GapIds()
    ensures JsonStreamId("f", "text", 0) == "f/text[0]"
    ensures JsonStreamId("f", "text", 2) == "f/text[2]"
  {
  }

  /** This reader catches every `ValueError` from parsing, so pulling its first
      element never raises `ValueError`. */
  lemma JsonStreamProbeNeverValueError(filename: string, field: string, lines: seq<Line>)
    ensures !(ProbeOf(JsonStreamReference(filename, field, lines)).Failed?
              && ProbeOf(JsonStreamReference(filename, field, lines)).exc.ValueError?)
  {
  }

  // ---------------------------------------------------------------------
  // Large-JSON reader
  // ---------------------------------------------------------------------

  /** One `(prefix, event, value)` triple of the incremental parser. */
  datatype Event = Event(prefix: string, event: string, value: Value)

  predicate Selects(prefixValue: string, eventValue: string, e: Event) {
    e.prefix == prefixValue && e.event == eventValue
  }

  /** The identifier of every large-JSON document: `"<prefix>/<event>"`. */
  function LargeJsonId(prefixValue: string, eventValue: string): string {
    prefixValue + "/" + eventValue
  }

  /** The values of the selected events, in stream order. */
  function SelectedValues(events: seq<Event>, prefixValue: string, eventValue: string): (vs: seq<Value>)
    ensures |vs| <= |events|
    ensures forall v :: v in vs <==> exists e :: e in events && Selects(prefixValue, eventValue, e) && e.value == v
  {
    if |events| == 0 then []
    else
      var last := events[|events| - 1];
      var init := events[..|events| - 1];
      assert forall e :: e in events <==> e in init || e == last;
      SelectedValues(init, prefixValue, eventValue)
        + (if Selects(prefixValue, eventValue, last) then [last.value] else [])
  }

  /** `iter_large_json(json_file, prefix_value, event_value)` over the parser's
      event stream (which may itself end with a parse error). */
  method IterLargeJson(events: Run<Event>, prefixValue: string, eventValue: string)
    returns (run: Run<Document>)
    ensures run.raised == events.raised
    ensures |run.items| == |SelectedValues(events.items, prefixValue, eventValue)|
    ensures forall k :: 0 <= k < |run.items| ==>
              run.items[k] == Document(LargeJsonId(prefixValue, eventValue),
                                       SelectedValues(events.items, prefixValue, eventValue)[k])
    ensures forall d :: d in run.items ==> d.id == LargeJsonId(prefixValue, eventValue)
  {
    var docs: seq<Document> := [];
    var i := 0;
    while i < |events.items|
      invariant i <= |events.items|
      invariant |docs| == |SelectedValues(events.items[..i], prefixValue, eventValue)|
      invariant forall k :: 0 <= k < |docs| ==>
                  docs[k] == Document(LargeJsonId(prefixValue, eventValue),
                                      SelectedValues(events.items[..i], prefixValue, eventValue)[k])
    {
      var e := events.items[i];
      assert events.items[..i + 1][..i] == events.items[..i];
      if Selects(prefixValue, eventValue, e) {
        docs := docs + [Document(LargeJsonId(prefixValue, eventValue), e.value)];
      }
      i := i + 1;
    }
    assert events.items[..i] == events.items;
    return Run(docs, events.raised);
  }
}
