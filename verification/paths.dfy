/** POSIX `os.path.splitext`, as CPython implements it: the extension is the
    suffix from the last `.` of the final path component, provided some
    character other than `.` comes before that dot within the component;
    otherwise the extension is empty. */
module Paths {
  import opened Text

  const Sep := '/'
  const ExtSep := '.'

  /** `os.path.splitext(p)`: the pair `(root, ext)`. */
  function Splitext(p: string): (r: (string, string))
    ensures r.0 + r.1 == p
    ensures r.1 != [] ==> r.1[0] == ExtSep
    ensures forall j :: 0 < j < |r.1| ==> r.1[j] != ExtSep && r.1[j] != Sep
  {
    var sepIndex := RFind(p, Sep);
    var dotIndex := RFind(p, ExtSep);
    if dotIndex > sepIndex && exists k :: sepIndex < k < dotIndex && p[k] != ExtSep then
      (p[..dotIndex], p[dotIndex..])
    else
      (p, [])
  }

  /** `os.path.splitext(p)[1]`. */
  function Ext(p: string): string {
    Splitext(p).1
  }

  /** Independent description of an extension: `p[d..]` is the extension of
      `p` when `p[d]` is a dot, nothing after it is a dot or a separator, and
      some non-dot character of the same final component precedes it. */
  ghost predicate ExtensionAt(p: string, d: int) {
    && 0 <= d < |p|
    && p[d] == ExtSep
    && (forall j :: d < j < |p| ==> p[j] != ExtSep && p[j] != Sep)
    && (exists k :: 0 <= k < d && p[k] != ExtSep && p[k] != Sep
                    && forall j :: k < j < d ==> p[j] != Sep)
  }

  /** The extension `Splitext` computes is exactly the one `ExtensionAt`
      describes: it is non-empty if and only if such a dot exists, and then it
      is the suffix from that dot. */
  lemma ExtMatchesExtensionAt(p: string)
    ensures Ext(p) != [] <==> exists d :: ExtensionAt(p, d)
    ensures forall d :: ExtensionAt(p, d) ==> Ext(p) == p[d..]
  {
    var s := RFind(p, Sep);
    var dot := RFind(p, ExtSep);
    forall d | ExtensionAt(p, d)
      ensures Ext(p) == p[d..]
    {
      assert dot == d;
      assert s < d;
      var k :| 0 <= k < d && p[k] != ExtSep && p[k] != Sep
               && forall j :: k < j < d ==> p[j] != Sep;
      assert s < k;
    }
    if Ext(p) != [] {
      var k :| s < k < dot && p[k] != ExtSep;
      assert ExtensionAt(p, dot);
    }
  }

  /** Worked cases: a trailing separator, a dot in a directory name, and a
      leading dot all give an empty extension; `data/docs.json` gives `.json`. */
  lemma ExtExamples()
    ensures Ext("dir/") == []
    ensures Ext("a.b/c") == []
    ensures Ext(".json") == []
    ensures Ext("data/docs.json") == ".json"
  {
    ExtMatchesExtensionAt("dir/");
    ExtMatchesExtensionAt("a.b/c");
    ExtMatchesExtensionAt(".json");
    ExtMatchesExtensionAt("data/docs.json");
    var p := "data/docs.json";
    assert p[5] != ExtSep && p[5] != Sep && forall j :: 5 < j < 9 ==> p[j] != Sep;
    assert ExtensionAt(p, 9);
  }
}
