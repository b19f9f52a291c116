/** The single-feed variant of the CVE table: it reads only the 2002 feed of
    an older download, writes one table, and repeats the per-entry loop body
    of the year loop. Its rows are proved to be the rows of
    `CveProcess` for the same feed. */
module CveProcessTest {
  import opened Seqs
  import opened Text
  import opened Json
  import CveProcess

  const TestOpenName: string := "../databases/2022/cve/nvdcve-1.1-2002.json"
  const TestSaveName: string := "./csv_file/cve/cve-2002.csv"

  /** Reads the one feed through `load` and produces the table saved for it. */
  method Run(load: string -> Json) returns (table: CveProcess.YearTable)
    requires CveProcess.DocumentShape(load(TestOpenName))
    ensures table == CveProcess.YearTable(TestSaveName, CveProcess.DocumentRows(load(TestOpenName)))
  {
    var cve := load(TestOpenName);
    var rows := ProcessItems(Get(cve, "CVE_Items").elems);
    table := CveProcess.YearTable(TestSaveName, rows);
  }

  /** `for i in cve['CVE_Items']`. */
  method ProcessItems(items: seq<Json>) returns (rows: seq<CveProcess.CveRow>)
    requires All(CveProcess.ItemShape, items)
    ensures rows == Map(CveProcess.ProjectItem, items)
  {
    rows := [];
    for k := 0 to |items|
      invariant rows == Map(CveProcess.ProjectItem, items[..k])
    {
      AllAt(CveProcess.ItemShape, items, k);
      MapSnoc(CveProcess.ProjectItem, items, k);
      var row := ProcessItem(items[k]);
      rows := rows + [row];
    }
    assert items[..|items|] == items;
  }

  /** The loop body. Its nested loops are word for word those of the year
      loop and are the same methods; the rest of the body is its own, and it
      computes the same row as the year loop's body. */
  method ProcessItem(i: Json) returns (row: CveProcess.CveRow)
    requires CveProcess.ItemShape(i)
    ensures row == CveProcess.ProjectItem(i)
  {
    var cveid := Get(Get(Get(i, "cve"), "CVE_data_meta"), "ID");
    var cwe: seq<string> := [];
    if Has(Get(i, "cve"), "problemtype") {
      var data := Get(Get(Get(i, "cve"), "problemtype"), "problemtype_data").elems;
      cwe := CveProcess.CollectProblemValues(data);
    }
    var cweStr := Join(cwe, ';');

    var description := Get(Get(Get(i, "cve"), "description"), "description_data").elems[0].fields["value"];

    var cpe: seq<string> := [];
    if Has(i, "configurations") {
      var nodes := Get(Get(i, "configurations"), "nodes").elems;
      cpe := CveProcess.CollectNodeUris(nodes);
    }
    var cpeStr := Join(cpe, ';');

    var baseSeverity, baseScore, impactScore, exploitabilityScore, cvssV3Vector :=
      CveProcess.Blank, CveProcess.Blank, CveProcess.Blank, CveProcess.Blank, CveProcess.Blank;
    if Has(Get(i, "impact"), "baseMetricV3") {
      var m := Get(Get(i, "impact"), "baseMetricV3");
      baseSeverity := Get(Get(m, "cvssV3"), "baseSeverity");
      baseScore := Get(Get(m, "cvssV3"), "baseScore");
      impactScore := Get(m, "impactScore");
      exploitabilityScore := Get(m, "exploitabilityScore");
      cvssV3Vector := Get(Get(m, "cvssV3"), "vectorString");
    }

    row := CveProcess.CveRow(cveid, cweStr, cpeStr, baseSeverity, baseScore, impactScore,
      exploitabilityScore, cvssV3Vector, description);
  }

  /** Given the same 2002 feed, the single-feed run writes the same rows as
      the first iteration of the year loop. */
  lemma SameRowsAsYearLoop(load: string -> Json)
    requires load(TestOpenName) == load(CveProcess.OpenName(2002))
    ensures CveProcess.DocumentRows(load(TestOpenName)) == Map(CveProcess.TablesOf(load), CveProcess.Years())[0].rows
  {
  }
}
