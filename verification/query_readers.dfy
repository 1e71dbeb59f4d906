/** The Elasticsearch readers' shared record shaping: pulling a field (or a
    field's subfield) out of each search hit, skipping hits that lack it,
    and counting at most ten warnings. Then the scroll reader
    `iter_elastic_query`, whose loop re-reads its first response, and the
    scroll loop as evidently intended, which follows the scroll cursor. */
module QueryReaders {
  import opened Wrappers
  import opened Values
  import opened Generators

  /** A search hit, as the client library returns it: a dictionary holding
      `_source` (the stored document) and `_id`. */
  type Hit = map<string, Value>

  /** The warning counter stops increasing at this value. */
  const MaxWarnings := 10

  /** What to extract from each hit: `field`, optionally `subfield` within it,
      and whether to put the hit's `_id` in front. */
  datatype Target = Target(field: string, subfield: Option<string>, includeId: bool)

  /** A yielded tuple: `(_id, name, content)` when `_id` is included,
      `(label, content)` otherwise. */
  datatype Tuple = Tuple(id: Option<Value>, name: string, content: Value)

  /** The outcome of the extraction block for one hit: a tuple is yielded,
      the hit is skipped (a caught `KeyError`), or an exception escapes. */
  datatype Extraction = Extracted(tuple: Tuple) | Skipped | Raised(exc: Exc)

  // ---------------------------------------------------------------------
  // Extraction from one hit
  // ---------------------------------------------------------------------

  /** The outcome of Python's nested subscript `v[k0][k1]...` on a parsed
      JSON value: a dictionary without the key raises `KeyError`; subscripting
      anything but a dictionary with a string raises `TypeError`. */
  datatype Lookup = Found(value: Value) | Missing | NotSubscriptable

  /** Reference semantics of `v[path[0]][path[1]]...`. */
  function Subscript(v: Value, path: seq<string>): Lookup
    decreases |path|
  {
    if |path| == 0 then Found(v)
    else match v
      case Obj(m) => if path[0] in m then Subscript(m[path[0]], path[1..]) else Missing
      case _ => NotSubscriptable
  }

  /** The keys the target subscripts `_source` with. */
  function PathOf(t: Target): seq<string> {
    match t.subfield
    case None => [t.field]
    case Some(sub) => [t.field, sub]
  }

  /** The label of a yielded tuple: `field`, or `"field/subfield"`. */
  function LabelOf(t: Target): string {
    match t.subfield
    case None => t.field
    case Some(sub) => t.field + "/" + sub
  }

  /** Prepends `hit['_id']` when asked to; a missing `_id` is a `KeyError`
      inside the `try`, so the hit is skipped. */
  function WithId(hit: Hit, includeId: bool, name: string, content: Value): Extraction {
    if !includeId then Extracted(Tuple(None, name, content))
    else if "_id" in hit then Extracted(Tuple(Some(hit["_id"]), name, content))
    else Skipped
  }

  /** The extraction block of both query readers for one hit. Reading
      `hit['_source']` happens before the `try`, so a hit without it raises. */
  function ExtractHit(hit: Hit, t: Target): Extraction
  {
    if "_source" !in hit then Raised(KeyError("_source"))
    else
      var s := hit["_source"];
      if !s.Obj? then Raised(TypeError)
      else if t.field !in s.fields then Skipped
      else match t.subfield
        case None => WithId(hit, t.includeId, t.field, s.fields[t.field])
        case Some(sub) =>
          var inner := s.fields[t.field];
          if !inner.Obj? then Raised(TypeError)
          else if sub !in inner.fields then Skipped
          else WithId(hit, t.includeId, t.field + "/" + sub, inner.fields[sub])
  }

  /** The extraction block agrees with the reference subscript semantics:
      it raises exactly when the subscript raises `TypeError` (or `_source` is
      missing), skips exactly when a key is missing (or a requested `_id` is),
      and otherwise yields the subscripted value under the target's label. */
  lemma ExtractHitFollowsSubscript(hit: Hit, t: Target)
    ensures "_source" !in hit ==> ExtractHit(hit, t) == Raised(KeyError("_source"))
    ensures "_source" in hit ==>
              var x := ExtractHit(hit, t);
              match Subscript(hit["_source"], PathOf(t))
              case NotSubscriptable => x == Raised(TypeError)
              case Missing => x == Skipped
              case Found(v) =>
                if t.includeId && "_id" !in hit then x == Skipped
                else x == Extracted(Tuple(if t.includeId then Some(hit["_id"]) else None, LabelOf(t), v))
  {
    if "_source" in hit {
      var s := hit["_source"];
      if s.Obj? && t.field in s.fields {
        var inner := s.fields[t.field];
        assert Subscript(s, PathOf(t)) == Subscript(inner, PathOf(t)[1..]);
        match t.subfield
        case None =>
          assert PathOf(t)[1..] == [];
        case Some(sub) =>
          assert PathOf(t)[1..] == [sub];
          if inner.Obj? && sub in inner.fields {
            assert Subscript(inner, [sub]) == Subscript(inner.fields[sub], []);
          }
      }
    }
  }

  // ---------------------------------------------------------------------
  // One page of hits
  // ---------------------------------------------------------------------

  /** The result of one `for hit in hits` pass: the yielded tuples, the
      warning counter afterwards, and the exception that ended the pass, if
      any. */
  datatype Page = Page(items: seq<Tuple>, warnings: nat, raised: Option<Exc>)

  function Extractions(hits: seq<Hit>, t: Target): (xs: seq<Extraction>)
    ensures |xs| == |hits|
    ensures forall k :: 0 <= k < |hits| ==> xs[k] == ExtractHit(hits[k], t)
  {
    seq(|hits|, k requires 0 <= k < |hits| => ExtractHit(hits[k], t))
  }

  /** The tuples of the extracted hits, in order. */
  function YieldsOf(xs: seq<Extraction>): (ys: seq<Tuple>)
    ensures |ys| <= |xs|
  {
    if |xs| == 0 then []
    else (if xs[0].Extracted? then [xs[0].tuple] else []) + YieldsOf(xs[1..])
  }

  /** The number of skipped hits. */
  function SkipsOf(xs: seq<Extraction>): nat {
    if |xs| == 0 then 0
    else (if xs[0].Skipped? then 1 else 0) + SkipsOf(xs[1..])
  }

  predicate IsRaised(x: Extraction) { x.Raised? }

  /** The counter step of the `except` clause: increment only below the cap. */
  function Warn(warnings: nat): (w: nat)
    ensures warnings < MaxWarnings ==> w == warnings + 1
    ensures warnings >= MaxWarnings ==> w == warnings
  {
    if warnings < MaxWarnings then warnings + 1 else warnings
  }

  /** One pass of the extraction block over the outcomes `xs` of the hits,
      hit by hit, starting from the given warning counter: a raising hit ends
      the pass, a skipped hit steps the counter, an extracted hit is yielded.
      The counter never shrinks and, started within the cap, stays within it. */
  function Fold(xs: seq<Extraction>, warnings: nat): (p: Page)
    ensures |p.items| <= |xs|
    ensures p.warnings >= warnings
    ensures warnings <= MaxWarnings ==> p.warnings <= MaxWarnings
  {
    if |xs| == 0 then Page([], warnings, None)
    else match xs[0]
      case Raised(e) => Page([], warnings, Some(e))
      case Skipped => Fold(xs[1..], Warn(warnings))
      case Extracted(tup) =>
        var rest := Fold(xs[1..], warnings);
        Page([tup] + rest.items, rest.warnings, rest.raised)
  }

  /** One `for hit in hits` pass of either query reader. */
  function Pass(hits: seq<Hit>, t: Target, warnings: nat): Page {
    Fold(Extractions(hits, t), warnings)
  }

  /** A pass described without stepping through it: the tuples of the hits
      before the first one that raises, that hit's exception, and a warning
      counter that has grown by the number of skipped hits but not past
      `MaxWarnings` (and has not shrunk). */
  lemma {:induction false} FoldClosedForm(xs: seq<Extraction>, warnings: nat)
    ensures var stop := FirstIndex(xs, IsRaised);
            Fold(xs, warnings)
            == Page(YieldsOf(xs[..stop]),
                    Max(warnings, Min(MaxWarnings, warnings + SkipsOf(xs[..stop]))),
                    if stop < |xs| then Some(xs[stop].exc) else None)
  {
    var stop := FirstIndex(xs, IsRaised);
    if |xs| == 0 {
      assert xs[..stop] == [];
    } else if xs[0].Raised? {
      assert stop == 0 && xs[..stop] == [];
    } else {
      var x := xs[0];
      var w' := if x.Skipped? then Warn(warnings) else warnings;
      var xs' := xs[1..];
      FoldClosedForm(xs', w');
      var stop' := FirstIndex(xs', IsRaised);
      assert stop == 1 + stop';
      PrefixStep(xs, stop);
      var s' := SkipsOf(xs'[..stop']);
      WarnCap(warnings, x.Skipped?, s');
    }
  }

  lemma PrefixStep(xs: seq<Extraction>, stop: nat)
    requires 0 < stop <= |xs|
    ensures YieldsOf(xs[..stop]) == (if xs[0].Extracted? then [xs[0].tuple] else []) + YieldsOf(xs[1..][..stop - 1])
    ensures SkipsOf(xs[..stop]) == (if xs[0].Skipped? then 1 else 0) + SkipsOf(xs[1..][..stop - 1])
  {
    assert xs[..stop][1..] == xs[1..][..stop - 1];
  }

  /** Taking the warning step first and then `s` more skips lands where `s`
      plus that one skip would. */
  lemma WarnCap(w: nat, skipped: bool, s: nat)
    ensures var w' := if skipped then Warn(w) else w;
            Max(w', Min(MaxWarnings, w' + s))
            == Max(w, Min(MaxWarnings, w + (if skipped then 1 else 0) + s))
  {
  }

  /** What a pass yields, and how it ends, does not depend on the warning
      counter it starts from. */
  lemma {:induction false} FoldIgnoresWarnings(xs: seq<Extraction>, w1: nat, w2: nat)
    ensures Fold(xs, w1).items == Fold(xs, w2).items
    ensures Fold(xs, w1).raised == Fold(xs, w2).raised
  {
    if |xs| > 0 {
      FoldIgnoresWarnings(xs[1..], w1, w2);
      FoldIgnoresWarnings(xs[1..], Warn(w1), Warn(w2));
    }
  }

  lemma PassIgnoresWarnings(hits: seq<Hit>, t: Target, w1: nat, w2: nat)
    ensures Pass(hits, t, w1).items == Pass(hits, t, w2).items
    ensures Pass(hits, t, w1).raised == Pass(hits, t, w2).raised
  {
    FoldIgnoresWarnings(Extractions(hits, t), w1, w2);
  }

  /** The pass yields `items` first, then what `p` yields. */
  function Prepend(items: seq<Tuple>, p: Page): Page {
    Page(items + p.items, p.warnings, p.raised)
  }

  /** The `for hit in resp['hits']['hits']` loop shared by both query
      readers, starting from the given warning counter. */
  method ProcessHits(hits: seq<Hit>, t: Target, warnings: nat) returns (page: Page)
    ensures page == Pass(hits, t, warnings)
  {
    var items: seq<Tuple> := [];
    var prints := warnings;
    var i := 0;
    ghost var xs := Extractions(hits, t);
    while i < |hits|
      invariant i <= |hits|
      invariant Pass(hits, t, warnings) == Prepend(items, Fold(xs[i..], prints))
    {
      var x := ExtractHit(hits[i], t);
      assert xs[i..][0] == x && xs[i..][1..] == xs[i + 1..];
      if x.Raised? {
        return Page(items, prints, Some(x.exc));
      } else if x.Extracted? {
        items := items + [x.tuple];
      } else {
        prints := Warn(prints);
      }
      i := i + 1;
    }
    return Page(items, prints, None);
  }

  // ---------------------------------------------------------------------
  // The scroll reader
  // ---------------------------------------------------------------------

  /** A search response: the scroll cursor (`resp.get('_scroll_id')`) and
      the page of hits (`resp['hits']['hits']`). */
  datatype Response = Response(scrollId: Option<string>, hits: seq<Hit>)

  /** A scroll reader pulled for a bounded number of loop passes: what it
      yielded, its warning counter, the exception that ended it, and whether
      it ended at all within those passes. */
  datatype ScrollRun = ScrollRun(items: seq<Tuple>, warnings: nat, raised: Option<Exc>, finished: bool)

  predicate EndOfScroll(resp: Response) {
    resp.scrollId.None? || |resp.hits| == 0
  }

  /** The `while True` loop of `iter_elastic_query` as written, run for at
      most `passes` passes. Every pass walks the same `resp`: the loop never
      requests the next page. */
  function ScrollLoopAsWritten(resp: Response, t: Target, warnings: nat, passes: nat): ScrollRun
    decreases passes
  {
    if passes == 0 then ScrollRun([], warnings, None, false)
    else
      var page := Pass(resp.hits, t, warnings);
      if page.raised.Some? then ScrollRun(page.items, page.warnings, page.raised, true)
      else if EndOfScroll(resp) then ScrollRun(page.items, page.warnings, None, true)
      else
        var rest := ScrollLoopAsWritten(resp, t, page.warnings, passes - 1);
        ScrollRun(page.items + rest.items, rest.warnings, rest.raised, rest.finished)
  }

  /** `iter_elastic_query` as written, given the initial search response. */
  function IterElasticQuery(resp: Response, t: Target, passes: nat): (run: ScrollRun)
    // No cursor in the initial response: nothing is yielded and the reader ends.
    ensures resp.scrollId.None? ==> run == ScrollRun([], 0, None, true)
    // An empty first page yields nothing and ends after one pass.
    ensures resp.scrollId.Some? && |resp.hits| == 0 && passes > 0 ==> run == ScrollRun([], 0, None, true)
    // A first page that raises ends the reader with its tuples before the raise.
    ensures resp.scrollId.Some? && passes > 0 && Pass(resp.hits, t, 0).raised.Some?
            ==> run == ScrollRun(Pass(resp.hits, t, 0).items, Pass(resp.hits, t, 0).warnings,
                                 Pass(resp.hits, t, 0).raised, true)
  {
    if resp.scrollId.None? then ScrollRun([], 0, None, true)
    else ScrollLoopAsWritten(resp, t, 0, passes)
  }

  lemma MinStep(w: nat, s: nat, p: nat)
    requires w <= MaxWarnings && p >= 1
    ensures Min(MaxWarnings, Min(MaxWarnings, w + s) + (p - 1) * s) == Min(MaxWarnings, w + p * s)
  {
  }

  /** The defect of the loop as written: once the first page is non-empty,
      carries a cursor and raises nothing, the reader never ends; each pass
      yields that same page again, and only the warning counter is capped. */
  lemma {:induction false} ScrollRepeatsFirstPage(resp: Response, t: Target, warnings: nat, passes: nat)
    requires resp.scrollId.Some? && |resp.hits| > 0
    requires Pass(resp.hits, t, warnings).raised.None?
    requires warnings <= MaxWarnings
    decreases passes
    ensures var s := SkipsOf(Extractions(resp.hits, t));
            ScrollLoopAsWritten(resp, t, warnings, passes)
            == ScrollRun(Repeat(Pass(resp.hits, t, warnings).items, passes),
                         Min(MaxWarnings, warnings + passes * s), None, false)
  {
    var xs := Extractions(resp.hits, t);
    var s := SkipsOf(xs);
    if passes > 0 {
      var page := Pass(resp.hits, t, warnings);
      FoldClosedForm(xs, warnings);
      assert FirstIndex(xs, IsRaised) == |xs|;
      assert xs[..|xs|] == xs;
      assert page.warnings == Min(MaxWarnings, warnings + s);
      PassIgnoresWarnings(resp.hits, t, warnings, page.warnings);
      ScrollRepeatsFirstPage(resp, t, page.warnings, passes - 1);
      MinStep(warnings, s, passes);
    }
  }

  /** The scroll loop as evidently intended: after each page, if the scroll
      has not ended, the next page is fetched with the cursor. `pages` are the
      responses the store gives, the initial one first; the run is cut when
      they run out. */
  function ScrollLoop(pages: seq<Response>, t: Target, warnings: nat): ScrollRun
    decreases |pages|
  {
    if |pages| == 0 then ScrollRun([], warnings, None, false)
    else
      var page := Pass(pages[0].hits, t, warnings);
      if page.raised.Some? then ScrollRun(page.items, page.warnings, page.raised, true)
      else if EndOfScroll(pages[0]) then ScrollRun(page.items, page.warnings, None, true)
      else
        var rest := ScrollLoop(pages[1..], t, page.warnings);
        ScrollRun(page.items + rest.items, rest.warnings, rest.raised, rest.finished)
  }

  /** The scroll reader with the cursor followed. */
  function IterElasticScroll(first: Response, scrolls: seq<Response>, t: Target): (run: ScrollRun)
    ensures first.scrollId.None? ==> run == ScrollRun([], 0, None, true)
  {
    if first.scrollId.None? then ScrollRun([], 0, None, true)
    else ScrollLoop([first] + scrolls, t, 0)
  }

  /** The tuples of a sequence of pages, page after page. */
  function PagesItems(pages: seq<Response>, t: Target): seq<Tuple> {
    if |pages| == 0 then []
    else PagesItems(pages[..|pages| - 1], t) + Pass(pages[|pages| - 1].hits, t, 0).items
  }

  /** The evidently intended behaviour: if page `k` is the first to end the
      scroll and no page up to it raises, the reader ends there, having
      yielded the tuples of pages 0 to `k` in order. */
  lemma {:induction false} ScrollEndsAtEndOfScroll(pages: seq<Response>, t: Target, warnings: nat, k: nat)
    requires k < |pages|
    requires EndOfScroll(pages[k])
    requires forall j :: 0 <= j < k ==> !EndOfScroll(pages[j])
    requires forall j :: 0 <= j <= k ==> Pass(pages[j].hits, t, 0).raised.None?
    ensures ScrollLoop(pages, t, warnings).finished
    ensures ScrollLoop(pages, t, warnings).raised.None?
    ensures ScrollLoop(pages, t, warnings).items == PagesItems(pages[..k + 1], t)
  {
    PassIgnoresWarnings(pages[0].hits, t, warnings, 0);
    var page := Pass(pages[0].hits, t, warnings);
    if k == 0 {
      assert pages[..1] == [pages[0]];
      assert PagesItems(pages[..1], t) == PagesItems([], t) + page.items;
    } else {
      ScrollEndsAtEndOfScroll(pages[1..], t, page.warnings, k - 1);
      PagesItemsCons(pages[..k + 1], t);
      assert pages[..k + 1][1..] == pages[1..][..k];
    }
  }

  lemma {:induction false} PagesItemsCons(pages: seq<Response>, t: Target)
    requires |pages| > 0
    ensures PagesItems(pages, t) == Pass(pages[0].hits, t, 0).items + PagesItems(pages[1..], t)
    decreases |pages|
  {
    if |pages| > 1 {
      var init := pages[..|pages| - 1];
      PagesItemsCons(init, t);
      assert init[1..] == pages[1..][..|pages[1..]| - 1];
    } else {
      assert pages[..0] == [];
    }
  }

  /** The two loops agree when the first page already ends the scroll. */
  lemma ScrollAgreesOnSinglePage(first: Response, scrolls: seq<Response>, t: Target, passes: nat)
    requires EndOfScroll(first) && passes > 0
    ensures IterElasticQuery(first, t, passes) == IterElasticScroll(first, scrolls, t)
  {
  }

  /** A concrete case of the defect: one good hit on a page with a cursor,
      followed by an empty page. The intended reader yields the hit once and
      ends; the reader as written yields it once per pass and never ends. */
  lemma ScrollDefectExample(passes: nat)
    requires passes > 0
    ensures var hit: Hit := map["_source" := Obj(map["text" := Str("a")])];
            var first := Response(Some("c1"), [hit]);
            var t := Target("text", None, false);
            && IterElasticScroll(first, [Response(Some("c1"), [])], t)
               == ScrollRun([Tuple(None, "text", Str("a"))], 0, None, true)
            && IterElasticQuery(first, t, passes)
               == ScrollRun(Repeat([Tuple(None, "text", Str("a"))], passes), 0, None, false)
  {
    var hit: Hit := map["_source" := Obj(map["text" := Str("a")])];
    var first := Response(Some("c1"), [hit]);
    var t := Target("text", None, false);
    var xs := Extractions(first.hits, t);
    assert xs == [Extracted(Tuple(None, "text", Str("a")))];
    assert FirstIndex(xs, IsRaised) == 1;
    assert xs[..1] == xs;
    assert YieldsOf(xs) == [Tuple(None, "text", Str("a"))] by {
      assert xs[..0] == [];
    }
    assert SkipsOf(xs) == 0 by {
      assert xs[..0] == [];
    }
    assert Pass(first.hits, t, 0) == Page([Tuple(None, "text", Str("a"))], 0, None) by {
      assert xs[1..] == [];
      assert Fold(xs[1..], 0) == Page([], 0, None);
      assert Pass(first.hits, t, 0) == Fold(xs, 0);
    }
    ScrollRepeatsFirstPage(first, t, 0, passes);
    var empty := Response(Some("c1"), []);
    assert Pass(empty.hits, t, 0) == Page([], 0, None);
    assert ([first] + [empty])[1..] == [empty];
    assert ScrollLoop([empty], t, 0) == ScrollRun([], 0, None, true);
    assert ScrollLoop([first, empty], t, 0) == ScrollRun([Tuple(None, "text", Str("a"))], 0, None, true);
    assert IterElasticScroll(first, [empty], t) == ScrollRun([Tuple(None, "text", Str("a"))], 0, None, true);
    assert IterElasticQuery(first, t, passes)
               == ScrollRun(Repeat([Tuple(None, "text", Str("a"))], passes), 0, None, false);
  }
}
