/** The CVE tables: for every year of the NVD JSON 1.1 feed, one row per entry
    of `CVE_Items`, flattening the problem types (CWE references) and the
    top-level configuration nodes (CPE names) into `;`-joined cells and
    copying the five CVSS v3 values when the entry has a `baseMetricV3`. */
module CveProcess {
  import opened Seqs
  import opened Text
  import opened Json

  const StartYear: nat := 2002
  const EndYear: nat := 2022

  const Columns: seq<string> := ["ID", "MatchingCWE", "MatchingCPE", "baseSeverity", "baseScore",
    "impactScore", "exploitabilityScore", "cvssV3_Vector", "description"]

  /** One row of a year's table. ID, the CVSS values and the description are
      JSON values copied from the entry; the two list cells are built strings. */
  datatype CveRow = CveRow(
    id: Json,
    matchingCwe: string,
    matchingCpe: string,
    baseSeverity: Json,
    baseScore: Json,
    impactScore: Json,
    exploitabilityScore: Json,
    cvssV3Vector: Json,
    description: Json)

  /** The table written for one year, with the name of the file it is saved to. */
  datatype YearTable = YearTable(saveName: string, rows: seq<CveRow>)

  /** The `''` a CVSS cell holds when the entry has no version 3 metric. */
  const Blank: Json := JString("")

  /** The record appended for a row: a dictionary keyed by the column names. */
  function AsRecord(row: CveRow): (m: map<string, Json>)
    ensures m.Keys == set c | c in Columns
  {
    map["ID" := row.id, "MatchingCWE" := JString(row.matchingCwe),
      "MatchingCPE" := JString(row.matchingCpe), "baseSeverity" := row.baseSeverity,
      "baseScore" := row.baseScore, "impactScore" := row.impactScore,
      "exploitabilityScore" := row.exploitabilityScore, "cvssV3_Vector" := row.cvssV3Vector,
      "description" := row.description]
  }

  // ---------------------------------------------------------------------------
  // The files: `list(range(start_year, end_year + 1))` and the names built
  // from each year.

  /** `list(range(lo, hi))` for `lo <= hi`. */
  function Range(lo: nat, hi: nat): (r: seq<nat>)
    requires lo <= hi
    ensures |r| == hi - lo
    ensures forall i :: 0 <= i < |r| ==> r[i] == lo + i
  {
    seq(hi - lo, i requires 0 <= i < hi - lo => lo + i)
  }

  function Years(): seq<nat>
  {
    Range(StartYear, EndYear + 1)
  }

  const OpenPrefix: string := "../databases/2022nov/cve/nvdcve-1.1-"
  const SavePrefix: string := "./csv_file/2022nov/cve/cve-"

  /** The feed file read for year `y`. */
  function OpenName(y: nat): string
  {
    OpenPrefix + NatToString(y) + ".json"
  }

  /** The table file written for year `y`. */
  function SaveName(y: nat): string
  {
    SavePrefix + NatToString(y) + ".csv"
  }

  /** A name made of a fixed prefix, the year's digits and a fixed suffix
      determines the year. */
  lemma {:induction false} NameDeterminesYear(prefix: string, suffix: string, a: nat, b: nat)
    requires prefix + NatToString(a) + suffix == prefix + NatToString(b) + suffix
    ensures a == b
  {
    var s := prefix + NatToString(a) + suffix;
    assert |NatToString(a)| == |NatToString(b)|;
    assert NatToString(a) == s[|prefix|..|prefix| + |NatToString(a)|] == NatToString(b);
    NatToStringInjective(a, b);
  }

  /** Twenty-one years, 2002 to 2022, each read from its own file and saved to
      its own file: no two years share an input or an output name. */
  lemma YearFiles()
    ensures |Years()| == 21 && Years()[0] == 2002 && Years()[20] == 2022
    ensures forall i, j :: 0 <= i < j < |Years()| ==>
      OpenName(Years()[i]) != OpenName(Years()[j]) && SaveName(Years()[i]) != SaveName(Years()[j])
  {
    forall i, j | 0 <= i < j < |Years()|
      ensures OpenName(Years()[i]) != OpenName(Years()[j]) && SaveName(Years()[i]) != SaveName(Years()[j])
    {
      if OpenName(Years()[i]) == OpenName(Years()[j]) {
        NameDeterminesYear(OpenPrefix, ".json", Years()[i], Years()[j]);
      }
      if SaveName(Years()[i]) == SaveName(Years()[j]) {
        NameDeterminesYear(SavePrefix, ".csv", Years()[i], Years()[j]);
      }
    }
  }

  /** The year loop yields 21 tables, the `k`-th for year 2002 + k, saved
      under that year's name and read from that year's feed. */
  lemma OneTablePerYear(load: string -> Json)
    ensures |Map(TablesOf(load), Years())| == 21
    ensures forall k :: 0 <= k < 21 ==>
      Map(TablesOf(load), Years())[k].saveName == SaveName(2002 + k) &&
      Map(TablesOf(load), Years())[k].rows == DocumentRows(load(OpenName(2002 + k)))
  {
  }

  // ---------------------------------------------------------------------------
  // The values one entry contributes.

  /** `k['value']` of one problem-type description. */
  function ValueOf(k: Json): string
  {
    Str(Member(k, "value"))
  }

  /** `k['cpe23Uri']` of one `cpe_match` entry. */
  function UriOf(k: Json): string
  {
    Str(Member(k, "cpe23Uri"))
  }

  /** The values of one `problemtype_data` entry, in order. */
  function ProblemValues(j: Json): seq<string>
  {
    Map(ValueOf, Elems(Member(j, "description")))
  }

  /** The names of one configuration node's `cpe_match` list, in order. */
  function NodeUris(j: Json): seq<string>
  {
    Map(UriOf, Elems(Member(j, "cpe_match")))
  }

  /** The `problemtype_data` entries of an entry's `cve` object. */
  function ProblemTypeData(i: Json): seq<Json>
  {
    Elems(Member(Member(Member(i, "cve"), "problemtype"), "problemtype_data"))
  }

  /** The top-level configuration nodes of an entry. */
  function Nodes(i: Json): seq<Json>
  {
    Elems(Member(Member(i, "configurations"), "nodes"))
  }

  /** What the CWE loop collects: nothing without a `problemtype` key. */
  function MatchingCwes(i: Json): seq<string>
  {
    if Has(Member(i, "cve"), "problemtype") then FlatMap(ProblemValues, ProblemTypeData(i)) else []
  }

  /** What the CPE loop collects: nothing without a `configurations` key. */
  function MatchingCpes(i: Json): seq<string>
  {
    if Has(i, "configurations") then FlatMap(NodeUris, Nodes(i)) else []
  }

  /** The version 3 metric group of an entry, when it has one. */
  function MetricV3(i: Json): Json
  {
    Member(Member(i, "impact"), "baseMetricV3")
  }

  predicate HasMetricV3(i: Json)
  {
    Has(Member(i, "impact"), "baseMetricV3")
  }

  function ProjectItem(i: Json): CveRow
  {
    var cve := Member(i, "cve");
    var m := MetricV3(i);
    var v3 := HasMetricV3(i);
    CveRow(
      Member(Member(cve, "CVE_data_meta"), "ID"),
      Join(MatchingCwes(i), ';'),
      Join(MatchingCpes(i), ';'),
      if v3 then Member(Member(m, "cvssV3"), "baseSeverity") else Blank,
      if v3 then Member(Member(m, "cvssV3"), "baseScore") else Blank,
      if v3 then Member(m, "impactScore") else Blank,
      if v3 then Member(m, "exploitabilityScore") else Blank,
      if v3 then Member(Member(m, "cvssV3"), "vectorString") else Blank,
      FirstValue(Elems(Member(Member(cve, "description"), "description_data"))))
  }

  /** `description_data[0]['value']`, which the script only evaluates on a
      non-empty list. */
  function FirstValue(data: seq<Json>): Json
  {
    if data == [] then JNull else Member(data[0], "value")
  }

  /** The ID an entry carries at `cve.CVE_data_meta.ID`. */
  function ItemId(i: Json): Json
  {
    Member(Member(Member(i, "cve"), "CVE_data_meta"), "ID")
  }

  /** The table of one feed. */
  function DocumentRows(doc: Json): seq<CveRow>
  {
    Map(ProjectItem, Elems(Member(doc, "CVE_Items")))
  }

  /** One row per entry of `CVE_Items`, in array order, each carrying the
      entry's ID. */
  lemma RowPerItem(doc: Json)
    ensures |DocumentRows(doc)| == |Elems(Member(doc, "CVE_Items"))|
    ensures forall k :: 0 <= k < |DocumentRows(doc)| ==>
      DocumentRows(doc)[k].id == ItemId(Elems(Member(doc, "CVE_Items"))[k])
  {
  }

  /** The table saved for year `y`, read from the feed `load` gives for its file. */
  function TableOf(load: string -> Json, y: nat): YearTable
  {
    YearTable(SaveName(y), DocumentRows(load(OpenName(y))))
  }

  /** `TableOf` for a fixed `load`, as a function of the year. */
  function TablesOf(load: string -> Json): nat -> YearTable
  {
    (y: nat) => TableOf(load, y)
  }

  // ---------------------------------------------------------------------------
  // The keys and types the script indexes without checking: a feed missing
  // one of them makes the script fail.

  predicate HasString(j: Json, k: string)
  {
    Has(j, k) && Get(j, k).JString?
  }

  predicate HasArray(j: Json, k: string)
  {
    Has(j, k) && Get(j, k).JArray?
  }

  predicate DescriptionShape(k: Json)
  {
    HasString(k, "value")
  }

  predicate ProblemShape(j: Json)
  {
    HasArray(j, "description") && All(DescriptionShape, Get(j, "description").elems)
  }

  predicate CpeMatchShape(k: Json)
  {
    HasString(k, "cpe23Uri")
  }

  predicate NodeShape(j: Json)
  {
    HasArray(j, "cpe_match") && All(CpeMatchShape, Get(j, "cpe_match").elems)
  }

  predicate MetricShape(m: Json)
  {
    Has(m, "cvssV3") && Has(m, "impactScore") && Has(m, "exploitabilityScore") &&
    Has(Get(m, "cvssV3"), "baseSeverity") && Has(Get(m, "cvssV3"), "baseScore") &&
    Has(Get(m, "cvssV3"), "vectorString")
  }

  predicate CveShape(cve: Json)
  {
    Has(cve, "CVE_data_meta") && Has(Get(cve, "CVE_data_meta"), "ID") &&
    (Has(cve, "problemtype") ==>
      HasArray(Get(cve, "problemtype"), "problemtype_data") &&
      All(ProblemShape, Get(Get(cve, "problemtype"), "problemtype_data").elems)) &&
    Has(cve, "description") && HasArray(Get(cve, "description"), "description_data") &&
    |Get(Get(cve, "description"), "description_data").elems| >= 1 &&
    Has(Get(Get(cve, "description"), "description_data").elems[0], "value")
  }

  predicate ItemShape(i: Json)
  {
    Has(i, "cve") && CveShape(Get(i, "cve")) &&
    (Has(i, "configurations") ==>
      HasArray(Get(i, "configurations"), "nodes") && All(NodeShape, Get(Get(i, "configurations"), "nodes").elems)) &&
    Has(i, "impact") && Get(i, "impact").JObject? &&
    (Has(Get(i, "impact"), "baseMetricV3") ==> MetricShape(Get(Get(i, "impact"), "baseMetricV3")))
  }

  predicate DocumentShape(doc: Json)
  {
    HasArray(doc, "CVE_Items") && All(ItemShape, Get(doc, "CVE_Items").elems)
  }

  // ---------------------------------------------------------------------------
  // The script's loops.

  /** The feed read for year `y` has the keys the script indexes. */
  predicate YearShape(load: string -> Json, y: nat)
  {
    DocumentShape(load(OpenName(y)))
  }

  /** The year loop: reads each year's feed through `load` (the parsed
      contents of the named file) and produces the table saved for it. */
  method ProcessYears(load: string -> Json) returns (tables: seq<YearTable>)
    requires forall y: nat :: StartYear <= y <= EndYear ==> YearShape(load, y)
    ensures tables == Map(TablesOf(load), Years())
  {
    var year := Range(StartYear, EndYear + 1);
    tables := ProcessYearList(load, year);
  }

  /** `for y in year`, over the list of years. */
  method ProcessYearList(load: string -> Json, year: seq<nat>) returns (tables: seq<YearTable>)
    requires forall k :: 0 <= k < |year| ==> YearShape(load, year[k])
    ensures tables == Map(TablesOf(load), year)
  {
    tables := [];
    for k := 0 to |year|
      invariant tables == Map(TablesOf(load), year[..k])
    {
      MapSnoc(TablesOf(load), year, k);
      var table := ProcessYear(load, year[k]);
      tables := tables + [table];
    }
    assert year[..|year|] == year;
  }

  /** The body of the year loop. */
  method ProcessYear(load: string -> Json, y: nat) returns (table: YearTable)
    requires YearShape(load, y)
    ensures table == TableOf(load, y)
  {
    var openname := OpenPrefix + NatToString(y) + ".json";
    var cve := load(openname);
    var rows := ProcessDocument(cve);
    var savename := SavePrefix + NatToString(y) + ".csv";
    table := YearTable(savename, rows);
  }

  /** `for i in cve['CVE_Items']` over one feed. */
  method ProcessDocument(cve: Json) returns (rows: seq<CveRow>)
    requires DocumentShape(cve)
    ensures rows == DocumentRows(cve)
  {
    rows := ProcessItems(Get(cve, "CVE_Items").elems);
  }

  method ProcessItems(items: seq<Json>) returns (rows: seq<CveRow>)
    requires All(ItemShape, items)
    ensures rows == Map(ProjectItem, items)
  {
    rows := [];
    for k := 0 to |items|
      invariant rows == Map(ProjectItem, items[..k])
    {
      AllAt(ItemShape, items, k);
      MapSnoc(ProjectItem, items, k);
      var row := ProcessItem(items[k]);
      rows := rows + [row];
    }
    assert items[..|items|] == items;
  }

  /** The body of the entry loop. */
  method ProcessItem(i: Json) returns (row: CveRow)
    requires ItemShape(i)
    ensures row == ProjectItem(i)
  {
    var cveid := Get(Get(Get(i, "cve"), "CVE_data_meta"), "ID");
    var cwe: seq<string> := [];
    if Has(Get(i, "cve"), "problemtype") {
      cwe := CollectProblemValues(Get(Get(Get(i, "cve"), "problemtype"), "problemtype_data").elems);
    }
    var cweStr := Join(cwe, ';');

    var description := Get(Get(Get(i, "cve"), "description"), "description_data").elems[0].fields["value"];

    var cpe: seq<string> := [];
    if Has(i, "configurations") {
      cpe := CollectNodeUris(Get(Get(i, "configurations"), "nodes").elems);
    }
    var cpeStr := Join(cpe, ';');

    var baseSeverity, baseScore, impactScore, exploitabilityScore, cvssV3Vector := Blank, Blank, Blank, Blank, Blank;
    if Has(Get(i, "impact"), "baseMetricV3") {
      var m := Get(Get(i, "impact"), "baseMetricV3");
      baseSeverity := Get(Get(m, "cvssV3"), "baseSeverity");
      baseScore := Get(Get(m, "cvssV3"), "baseScore");
      impactScore := Get(m, "impactScore");
      exploitabilityScore := Get(m, "exploitabilityScore");
      cvssV3Vector := Get(Get(m, "cvssV3"), "vectorString");
    }

    row := CveRow(cveid, cweStr, cpeStr, baseSeverity, baseScore, impactScore,
      exploitabilityScore, cvssV3Vector, description);
  }

  /** `for j in ...['problemtype_data']: for k in j['description']: cwe.append(k['value'])`. */
  method CollectProblemValues(data: seq<Json>) returns (cwe: seq<string>)
    requires All(ProblemShape, data)
    ensures cwe == FlatMap(ProblemValues, data)
  {
    cwe := [];
    for a := 0 to |data|
      invariant cwe == FlatMap(ProblemValues, data[..a])
    {
      AllAt(ProblemShape, data, a);
      FlatMapSnoc(ProblemValues, data, a);
      cwe := AppendValues(cwe, Get(data[a], "description").elems);
    }
    assert data[..|data|] == data;
  }

  method AppendValues(acc: seq<string>, descriptions: seq<Json>) returns (cwe: seq<string>)
    requires All(DescriptionShape, descriptions)
    ensures cwe == acc + Map(ValueOf, descriptions)
  {
    cwe := acc;
    for b := 0 to |descriptions|
      invariant cwe == acc + Map(ValueOf, descriptions[..b])
    {
      AllAt(DescriptionShape, descriptions, b);
      MapSnoc(ValueOf, descriptions, b);
      cwe := cwe + [Get(descriptions[b], "value").str];
    }
    assert descriptions[..|descriptions|] == descriptions;
  }

  /** `for j in ...['nodes']: for k in j['cpe_match']: cpe.append(k['cpe23Uri'])`. */
  method CollectNodeUris(nodes: seq<Json>) returns (cpe: seq<string>)
    requires All(NodeShape, nodes)
    ensures cpe == FlatMap(NodeUris, nodes)
  {
    cpe := [];
    for a := 0 to |nodes|
      invariant cpe == FlatMap(NodeUris, nodes[..a])
    {
      AllAt(NodeShape, nodes, a);
      FlatMapSnoc(NodeUris, nodes, a);
      cpe := AppendUris(cpe, Get(nodes[a], "cpe_match").elems);
    }
    assert nodes[..|nodes|] == nodes;
  }

  method AppendUris(acc: seq<string>, matches: seq<Json>) returns (cpe: seq<string>)
    requires All(CpeMatchShape, matches)
    ensures cpe == acc + Map(UriOf, matches)
  {
    cpe := acc;
    for b := 0 to |matches|
      invariant cpe == acc + Map(UriOf, matches[..b])
    {
      AllAt(CpeMatchShape, matches, b);
      MapSnoc(UriOf, matches, b);
      cpe := cpe + [Get(matches[b], "cpe23Uri").str];
    }
    assert matches[..|matches|] == matches;
  }

  // ---------------------------------------------------------------------------
  // Properties of a row.

  /** The five CVSS cells are filled together: all `''` when the entry has no
      `baseMetricV3`, all read from that group when it has one. */
  lemma CvssAllOrNothing(i: Json)
    ensures var r := ProjectItem(i);
      !HasMetricV3(i) ==>
        r.baseSeverity == Blank && r.baseScore == Blank && r.impactScore == Blank &&
        r.exploitabilityScore == Blank && r.cvssV3Vector == Blank
    ensures var r := ProjectItem(i); var m := MetricV3(i);
      HasMetricV3(i) ==>
        r.baseSeverity == Member(Member(m, "cvssV3"), "baseSeverity") &&
        r.baseScore == Member(Member(m, "cvssV3"), "baseScore") &&
        r.impactScore == Member(m, "impactScore") &&
        r.exploitabilityScore == Member(m, "exploitabilityScore") &&
        r.cvssV3Vector == Member(Member(m, "cvssV3"), "vectorString")
  {
  }

  /** `v` is the value of the `b`-th description of the `a`-th
      `problemtype_data` entry of `i`. */
  ghost predicate IsCweValue(i: Json, v: string, a: int, b: int)
  {
    0 <= a < |ProblemTypeData(i)| &&
    0 <= b < |Elems(Member(ProblemTypeData(i)[a], "description"))| &&
    ValueOf(Elems(Member(ProblemTypeData(i)[a], "description"))[b]) == v
  }

  /** `v` is the `cpe23Uri` of the `b`-th `cpe_match` of the `a`-th top-level
      node of `i`. */
  ghost predicate IsCpeValue(i: Json, v: string, a: int, b: int)
  {
    0 <= a < |Nodes(i)| &&
    0 <= b < |Elems(Member(Nodes(i)[a], "cpe_match"))| &&
    UriOf(Elems(Member(Nodes(i)[a], "cpe_match"))[b]) == v
  }

  /** The CWE list holds exactly the description values of the problem
      types, and nothing when the entry has no `problemtype`. */
  lemma CweValues(i: Json, v: string)
    ensures v in MatchingCwes(i) <==>
      Has(Member(i, "cve"), "problemtype") && exists a, b :: IsCweValue(i, v, a, b)
  {
    var data := ProblemTypeData(i);
    if Has(Member(i, "cve"), "problemtype") {
      FlatMapPositions(ProblemValues, data, v);
      assert forall a, b :: IsCweValue(i, v, a, b) <==>
        0 <= a < |data| && 0 <= b < |ProblemValues(data[a])| && ProblemValues(data[a])[b] == v;
    }
  }

  /** The CPE list holds exactly the `cpe23Uri` values of the `cpe_match`
      lists of the top-level nodes (nodes nested under them are not
      visited), and nothing when the entry has no `configurations`. */
  lemma CpeValues(i: Json, v: string)
    ensures v in MatchingCpes(i) <==>
      Has(i, "configurations") && exists a, b :: IsCpeValue(i, v, a, b)
  {
    var nodes := Nodes(i);
    if Has(i, "configurations") {
      FlatMapPositions(NodeUris, nodes, v);
      assert forall a, b :: IsCpeValue(i, v, a, b) <==>
        0 <= a < |nodes| && 0 <= b < |NodeUris(nodes[a])| && NodeUris(nodes[a])[b] == v;
    }
  }

  /** A joined list cell reads back as its values: `''` for none, and
      splitting on `;` gives the list back when no value holds a `;`. */
  lemma {:induction false} CellRoundTrip(xs: seq<string>)
    requires forall k :: 0 <= k < |xs| ==> ';' !in xs[k]
    ensures xs == [] ==> Join(xs, ';') == ""
    ensures xs != [] ==> Split(Join(xs, ';'), ';') == xs
  {
    if xs != [] {
      SplitJoin(xs, ';');
    }
  }

  /** The MatchingCWE and MatchingCPE cells of an entry's row split back into
      the collected lists; each is `''` when its key is absent. */
  lemma ListCells(i: Json)
    requires forall k :: 0 <= k < |MatchingCwes(i)| ==> ';' !in MatchingCwes(i)[k]
    requires forall k :: 0 <= k < |MatchingCpes(i)| ==> ';' !in MatchingCpes(i)[k]
    ensures !Has(Member(i, "cve"), "problemtype") ==> ProjectItem(i).matchingCwe == ""
    ensures !Has(i, "configurations") ==> ProjectItem(i).matchingCpe == ""
    ensures MatchingCwes(i) != [] ==> Split(ProjectItem(i).matchingCwe, ';') == MatchingCwes(i)
    ensures MatchingCpes(i) != [] ==> Split(ProjectItem(i).matchingCpe, ';') == MatchingCpes(i)
  {
    CellRoundTrip(MatchingCwes(i));
    CellRoundTrip(MatchingCpes(i));
  }
}
