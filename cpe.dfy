/** The CPE table: one row per `cpe-item` child of the CPE dictionary's root,
    splitting the item's CPE 2.3 formatted-string name into its components
    after three character substitutions made for the graph loader. */
module CpeProcess {
  import opened Results
  import opened Seqs
  import opened Text
  import opened Xml

  const DictionaryNamespace: string := "http://cpe.mitre.org/dictionary/2.0"
  const ExtensionNamespace: string := "http://scap.nist.gov/schema/cpe-extension/2.3"
  const CpeItemTag: QName := QName(DictionaryNamespace, "cpe-item")
  const TitleTag: QName := QName(DictionaryNamespace, "title")
  const Cpe23ItemTag: QName := QName(ExtensionNamespace, "cpe23-item")

  /** The number of colon-separated components of a CPE 2.3 formatted
      string (`cpe`, `2.3`, then the eleven attributes). */
  const ComponentCount: nat := 13

  const Columns: seq<string> := ["part", "vendor", "product", "version", "update", "edition",
    "language", "sw_edition", "target_sw", "target_hw", "other", "cpe23-item", "title", "cpe-item"]

  datatype CpeRow = CpeRow(
    part: string,
    vendor: string,
    product: string,
    version: string,
    update: string,
    edition: string,
    language: string,
    swEdition: string,
    targetSw: string,
    targetHw: string,
    other: string,
    cpe23Item: string,
    title: string,
    cpeItem: string)

  /** The record appended for a row: a dictionary keyed by the column names. */
  function AsRecord(row: CpeRow): (m: map<string, string>)
    ensures m.Keys == set c | c in Columns
  {
    map["part" := row.part, "vendor" := row.vendor, "product" := row.product,
      "version" := row.version, "update" := row.update, "edition" := row.edition,
      "language" := row.language, "sw_edition" := row.swEdition, "target_sw" := row.targetSw,
      "target_hw" := row.targetHw, "other" := row.other, "cpe23-item" := row.cpe23Item,
      "title" := row.title, "cpe-item" := row.cpeItem]
  }

  // ---------------------------------------------------------------------------
  // The substitutions.

  /** `cpe23.replace('\,', '\.').replace('\:', '\;').replace('"', "'")`: a
      quoted comma becomes a quoted full stop, a quoted colon a quoted
      semicolon, and a double quote a single quote. */
  function Escape(s: string): string
  {
    Replace(Replace(Replace(s, "\\,", "\\."), "\\:", "\\;"), "\"", "'")
  }

  /** The escaped name has the length of the original, no double quote, no
      quoted colon and no quoted comma left. */
  lemma EscapeProperties(s: string)
    ensures |Escape(s)| == |s|
    ensures '"' !in Escape(s)
    ensures forall i :: 0 <= i < |Escape(s)| - 1 ==> !(Escape(s)[i] == '\\' && Escape(s)[i + 1] == ':')
    ensures forall i :: 0 <= i < |Escape(s)| - 1 ==> !(Escape(s)[i] == '\\' && Escape(s)[i + 1] == ',')
  {
    var s1 := Replace(s, "\\,", "\\.");
    var s2 := Replace(s1, "\\:", "\\;");
    var s3 := Replace(s2, "\"", "'");
    ReplacePairRemovesPair(s, '\\', ',', '.');
    ReplacePairRemovesPair(s1, '\\', ':', ';');
    ReplaceChar(s2, '"', "'");
    ReplaceCharPointwise(s2, '"', '\'');
    NoCommaPairAfterColonStep(s1);
    forall i | 0 <= i < |s3| - 1
      ensures !(s3[i] == '\\' && s3[i + 1] == ':') && !(s3[i] == '\\' && s3[i + 1] == ',')
    {
      assert s3[i] == if s2[i] == '"' then '\'' else s2[i];
      assert s3[i + 1] == if s2[i + 1] == '"' then '\'' else s2[i + 1];
    }
  }

  /** Replacing quoted colons does not create a quoted comma. */
  lemma {:induction false} NoCommaPairAfterColonStep(s: string)
    requires forall i :: 0 <= i < |s| - 1 ==> !(s[i] == '\\' && s[i + 1] == ',')
    ensures forall i :: 0 <= i < |Replace(s, "\\:", "\\;")| - 1 ==>
      !(Replace(s, "\\:", "\\;")[i] == '\\' && Replace(s, "\\:", "\\;")[i + 1] == ',')
    decreases |s|
  {
    var r := Replace(s, "\\:", "\\;");
    if |s| >= 2 {
      if s[..2] == "\\:" {
        NoCommaPairAfterColonStep(s[2..]);
        var t := Replace(s[2..], "\\:", "\\;");
        assert r == "\\;" + t;
        forall i | 0 <= i < |r| - 1 ensures !(r[i] == '\\' && r[i + 1] == ',') {
          if i >= 2 {
            assert r[i] == t[i - 2] && r[i + 1] == t[i - 1];
          }
        }
      } else {
        NoCommaPairAfterColonStep(s[1..]);
        var t := Replace(s[1..], "\\:", "\\;");
        assert r == [s[0]] + t;
        forall i | 0 <= i < |r| - 1 ensures !(r[i] == '\\' && r[i + 1] == ',') {
          if i == 0 {
            ReplaceHead(s[1..], "\\:", "\\;");
            assert r[1] == t[0];
            assert s[..2] == [s[0], s[1]];
          } else {
            assert r[i] == t[i - 1] && r[i + 1] == t[i];
          }
        }
      }
    }
  }

  /** The first character of `Replace(s, pat, rep)` is the first character of
      `s` or of `rep`. */
  lemma ReplaceHead(s: string, pat: string, rep: string)
    requires |pat| > 0 && |s| > 0 && |pat| == |rep|
    ensures Replace(s, pat, rep)[0] == if |s| >= |pat| && s[..|pat|] == pat then rep[0] else s[0]
  {
  }

  /** A name without backslash and double quote is not changed. */
  lemma EscapeKeepsPlainNames(s: string)
    requires '\\' !in s && '"' !in s
    ensures Escape(s) == s
  {
    ReplaceAbsentPattern(s, "\\,", "\\.");
    ReplaceAbsentPattern(s, "\\:", "\\;");
    ReplaceAbsentPattern(s, "\"", "'");
  }

  // ---------------------------------------------------------------------------
  // One cpe-item.

  /** The row for an escaped name, the title and the item's `name`
      attribute: components 2 to 12 of the colon split become `part` to
      `other`; with fewer than 13 components the script's indexing fails. */
  function RowOf(cpe23: string, title: string, item: string): (r: Result<CpeRow, string>)
    ensures r.Success? <==> |Split(cpe23, ':')| >= ComponentCount
  {
    var c := Split(cpe23, ':');
    if |c| < ComponentCount then Failure(cpe23)
    else Success(CpeRow(c[2], c[3], c[4], c[5], c[6], c[7], c[8], c[9], c[10], c[11], c[12],
      cpe23, title, item))
  }

  /** `i.tag == '{...}cpe-item'`. */
  predicate IsCpeItem(i: Element)
  {
    i.tag == CpeItemTag
  }

  /** The item has the two children and the attributes the script reads. */
  predicate ItemShape(i: Element)
  {
    IsCpeItem(i) ==>
      "name" in i.attrib &&
      Find(i, Cpe23ItemTag).Some? && "name" in Find(i, Cpe23ItemTag).value.attrib &&
      Find(i, TitleTag).Some?
  }

  /** The `name` attribute of the item's first `cpe23-item` child. */
  function Cpe23Name(i: Element): string
  {
    match Find(i, Cpe23ItemTag)
    case Some(c) => Attr(c, "name")
    case None => ""
  }

  /** The text of the item's first `title` child. */
  function TitleOf(i: Element): string
  {
    match Find(i, TitleTag)
    case Some(t) => t.text
    case None => ""
  }

  function ProjectItem(i: Element): Result<CpeRow, string>
  {
    RowOf(Escape(Cpe23Name(i)), TitleOf(i), Attr(i, "name"))
  }

  /** The rows of the children `es` of the root: one per `cpe-item`, in
      order, or the first failure. */
  function Table(es: seq<Element>): Result<seq<CpeRow>, string>
  {
    if es == [] then Success([])
    else
      var pre := Table(es[..|es| - 1]);
      var last := es[|es| - 1];
      if pre.Failure? || !IsCpeItem(last) then pre
      else
        match ProjectItem(last)
        case Failure(e) => Failure(e)
        case Success(row) => Success(pre.value + [row])
  }

  // ---------------------------------------------------------------------------
  // The script's loop.

  /** `for i in root`, over the root's children. */
  method ProcessDictionary(root: Element) returns (result: Result<seq<CpeRow>, string>)
    requires All(ItemShape, root.children)
    ensures result == Table(root.children)
  {
    result := ProcessChildren(root.children);
  }

  method ProcessChildren(es: seq<Element>) returns (result: Result<seq<CpeRow>, string>)
    requires All(ItemShape, es)
    ensures result == Table(es)
  {
    var rows: seq<CpeRow> := [];
    for k := 0 to |es|
      invariant Table(es[..k]) == Success(rows)
    {
      AllAt(ItemShape, es, k);
      assert es[..k + 1][..k] == es[..k];
      var i := es[k];
      if i.tag == QName(DictionaryNamespace, "cpe-item") {
        var r := ProcessItem(i);
        if r.Failure? {
          FailurePersists(es, k + 1);
          return Failure(r.error);
        }
        rows := rows + [r.value];
      }
    }
    assert es[..|es|] == es;
    result := Success(rows);
  }

  /** The body of the loop for one `cpe-item`. */
  method ProcessItem(i: Element) returns (r: Result<CpeRow, string>)
    requires IsCpeItem(i) && ItemShape(i)
    ensures r == ProjectItem(i)
  {
    var cpe23 := Find(i, QName(ExtensionNamespace, "cpe23-item")).value.attrib["name"];
    var title := Find(i, QName(DictionaryNamespace, "title")).value.text;
    var item := i.attrib["name"];

    cpe23 := Replace(cpe23, "\\,", "\\.");
    cpe23 := Replace(cpe23, "\\:", "\\;");
    cpe23 := Replace(cpe23, "\"", "'");

    var split := Split(cpe23, ':');
    if |split| < 13 {
      return Failure(cpe23);
    }
    r := Success(CpeRow(split[2], split[3], split[4], split[5], split[6], split[7], split[8],
      split[9], split[10], split[11], split[12], cpe23, title, item));
  }

  // ---------------------------------------------------------------------------
  // Properties.

  /** Once a prefix of the children has failed, the whole table fails with
      that error: the script stops at the first item it cannot split. */
  lemma {:induction false} FailurePersists(es: seq<Element>, k: nat)
    requires k <= |es| && Table(es[..k]).Failure?
    ensures Table(es) == Table(es[..k])
    decreases |es| - k
  {
    if k < |es| {
      assert es[..k + 1][..k] == es[..k];
      FailurePersists(es, k + 1);
    } else {
      assert es[..k] == es;
    }
  }

  /** `i` is not a `cpe-item`, or its name splits into enough components. */
  predicate Splits(i: Element)
  {
    IsCpeItem(i) ==> ProjectItem(i).Success?
  }

  /** The table succeeds exactly when every `cpe-item` child splits into at
      least 13 components. */
  lemma TableSucceeds(es: seq<Element>)
    ensures Table(es).Success? <==> forall k :: 0 <= k < |es| ==> Splits(es[k])
  {
    TableSucceedsAll(es);
    AllIndices(Splits, es);
  }

  lemma {:induction false} TableSucceedsAll(es: seq<Element>)
    ensures Table(es).Success? <==> All(Splits, es)
  {
    if es != [] {
      TableSucceedsAll(es[..|es| - 1]);
    }
  }

  /** A successful table holds one row per `cpe-item` child, in order, the
      row its projection gives; every other child is ignored. */
  lemma {:induction false} TableRows(es: seq<Element>)
    requires Table(es).Success?
    ensures |Table(es).value| == |Filter(IsCpeItem, es)|
    ensures forall j :: 0 <= j < |Filter(IsCpeItem, es)| ==>
      ProjectItem(Filter(IsCpeItem, es)[j]) == Success(Table(es).value[j])
  {
    if es != [] {
      var n := |es| - 1;
      var pre := es[..n];
      TableRows(pre);
      FilterSnoc(IsCpeItem, es, n);
      assert es[..n + 1] == es;
    }
  }

  /** A name made of 13 components without colon, backslash or double quote
      is left as it is, and its components 2 to 12 are the columns `part` to
      `other`. */
  lemma ColumnsAreComponents(c: seq<string>, title: string, item: string)
    requires |c| == ComponentCount
    requires forall k :: 0 <= k < |c| ==> ':' !in c[k] && '\\' !in c[k] && '"' !in c[k]
    ensures RowOf(Escape(Join(c, ':')), title, item) ==
      Success(CpeRow(c[2], c[3], c[4], c[5], c[6], c[7], c[8], c[9], c[10], c[11], c[12],
        Join(c, ':'), title, item))
  {
    JoinWithout(c, ':', '\\');
    JoinWithout(c, ':', '"');
    EscapeKeepsPlainNames(Join(c, ':'));
    SplitJoin(c, ':');
  }

  /** Joining on a separator other than `ch` introduces no `ch`. */
  lemma {:induction false} JoinWithout(xs: seq<string>, sep: char, ch: char)
    requires sep != ch && forall k :: 0 <= k < |xs| ==> ch !in xs[k]
    ensures ch !in Join(xs, sep)
  {
    if |xs| > 1 {
      JoinWithout(xs[1..], sep, ch);
    }
  }

  /** The three substitutions rewrite a middle piece `m` on its own when
      the text around it has no backslash and no double quote. */
  lemma EscapeAround(a: string, m: string, b: string)
    requires '\\' !in a && '"' !in a && '\\' !in b && '"' !in b
    requires |m| > 0 && m[|m| - 1] != '\\' && Replace(m, "\\,", "\\.") == m
    requires '"' !in Replace(m, "\\:", "\\;")
    ensures Escape(a + m + b) == a + Replace(m, "\\:", "\\;") + b
  {
    ReplaceAround(a, m, b, "\\,", "\\.");
    ReplaceAround(a, m, b, "\\:", "\\;");
    var m2 := Replace(m, "\\:", "\\;");
    assert '"' !in a + m2 + b;
    ReplaceAbsentPattern(a + m2 + b, "\"", "'");
  }

  lemma ReplaceAround(a: string, m: string, b: string, pat: string, rep: string)
    requires |pat| == 2 && pat[0] !in a && pat[0] !in b && |m| > 0 && m[|m| - 1] != pat[0]
    ensures Replace(a + m + b, pat, rep) == a + Replace(m, pat, rep) + b
  {
    assert a + m + b == a + (m + b);
    ReplaceConcat(a, m + b, pat, rep);
    ReplaceConcat(m, b, pat, rep);
    ReplaceAbsentPattern(a, pat, rep);
    ReplaceAbsentPattern(b, pat, rep);
  }

  /** A quoted colon inside a component (`\:`) survives as a quoted
      semicolon, and its colon no longer separates components. */
  lemma QuotedColonStaysInComponent(a: string, b: string)
    requires '\\' !in a && '"' !in a && '\\' !in b && '"' !in b
    ensures Escape(a + "\\:" + b) == a + "\\;" + b
    ensures |Split(Escape(a + "\\:" + b), ':')| == |Split(a + "\\:" + b, ':')| - 1
  {
    assert Replace("\\:", "\\,", "\\.") == "\\:";
    assert Replace("\\:", "\\:", "\\;") == "\\;";
    EscapeAround(a, "\\:", b);
    OneSeparatorFewer(a, "\\:", "\\;", b);
  }

  /** A quoted backslash at the end of a component (`\\` before the
      separator) is read by the second substitution as the start of a quoted
      colon: the separator after it is lost, so a name with exactly 13
      components fails to split. */
  lemma QuotedBackslashLosesSeparator(a: string, b: string, title: string, item: string)
    requires '\\' !in a && '"' !in a && '\\' !in b && '"' !in b
    ensures Escape(a + "\\\\:" + b) == a + "\\\\;" + b
    ensures |Split(Escape(a + "\\\\:" + b), ':')| == |Split(a + "\\\\:" + b, ':')| - 1
    ensures |Split(a + "\\\\:" + b, ':')| == ComponentCount ==>
      RowOf(Escape(a + "\\\\:" + b), title, item).Failure?
  {
    assert Replace("\\\\:", "\\,", "\\.") == "\\\\:";
    assert Replace("\\\\:", "\\:", "\\;") == "\\\\;";
    EscapeAround(a, "\\\\:", b);
    OneSeparatorFewer(a, "\\\\:", "\\\\;", b);
  }

  /** Replacing a middle piece with one colon by a piece with none removes
      one component from the split. */
  lemma OneSeparatorFewer(a: string, m: string, m': string, b: string)
    requires Occurrences(m, ':') == 1 && Occurrences(m', ':') == 0
    ensures |Split(a + m' + b, ':')| == |Split(a + m + b, ':')| - 1
  {
    SplitPieces(a + m + b, ':');
    SplitPieces(a + m' + b, ':');
    OccurrencesConcat(a + m, b, ':');
    OccurrencesConcat(a, m, ':');
    OccurrencesConcat(a + m', b, ':');
    OccurrencesConcat(a, m', ':');
  }
}
