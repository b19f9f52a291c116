# Threat knowledge graph preprocessing, in Dafny

This project models the preprocessing scripts of the threat knowledge graph.
They turn three public vulnerability catalogues into CSV tables that are
later imported into a graph database:

- **CWE** (`cwe_process.py`, `cwe_view_process.py`,
  `cwe_category_process.py`): from the CWE XML catalogue, one row per
  non-deprecated Weakness, View and Category. The cells are the id
  (`CWE-` + ID), the quoted name, normalised descriptions, and `;`-joined
  lists (related weaknesses, languages, technologies, consequence scopes,
  observed-example references, `Has_Member` references).
- **CVE** (`cve_process.py`, `cve_process_test.py`): from the NVD JSON 1.1
  feeds of 2002 to 2022, one table per year. Each table has one row per
  entry, with the `;`-joined CWE values and top-level CPE names and the five
  CVSS v3 values (or `''`). The test script does the same for the 2002
  feed of an older download.
- **CPE** (`cpe_process.py`, `cpe_merge.py`): from the CPE dictionary XML,
  one row per `cpe-item`. The CPE 2.3 formatted name is escaped for the
  graph import and split on `:` into its eleven attribute columns. The
  merge script groups the rows by part, vendor, product, target_sw and
  target_hw, adds a short `cpe:` name, counts each group and sorts the
  groups by decreasing count.

Each script is a pure function of its parsed input: a table function built
with `Map`, `Filter` and `FlatMap` over the XML elements or JSON values.
Each script with loops (all of them except `cpe_merge.py`) is also a method
with those loops, proved to compute that function. `cpe_merge.py` has no
loop; its pandas calls are modelled as functions only.

Lemmas state what the tables promise:
- which input produces which row;
- the round trips of the joined cells;
- the dropped deprecated entries;
- the CVSS all-or-nothing rule;
- the escape's guarantees;
- the properties of the merged table (a non-increasing permutation of the
  groups, distinct keys, sizes that count the rows and add up to them).

Modules: `Results`, `Seqs` (generic list functions), `Text` (Python string
operations), `Xml` (ElementTree elements), `Json` (parsed JSON values),
`Cwe` (shared by the three CWE scripts), `CweProcess`, `CweViewProcess`,
`CweCategoryProcess`, `CveProcess`, `CveProcessTest`, `CpeProcess` and
`CpeMerge`.

The CPE escape is modelled as written: three `str.replace` calls in a row.
A CPE component that ends in an escaped backslash (`\\`) followed by the
`:` separator is read by the second replacement as an escaped colon. The
separator becomes `;`, so the name splits into one component fewer, and a
13-component name then makes the script's indexing fail
(`CpeProcess.QuotedBackslashLosesSeparator`).

## Model

| member | source | states |
|---|---|---|
| Cwe.CweIdRecoversAttribute | preprocess/py_code/cwe_process.py:16 | the id cell is `CWE-` followed by the ID attribute, which can be read back from it |
| Cwe.QuotedRecoversName | preprocess/py_code/cwe_process.py:17 | the name cell is the Name attribute between two double quotes, and can be read back |
| Cwe.CollectHasMembers | preprocess/py_code/cwe_view_process.py:18-20 | the nested loops over the containers and their Has_Member elements collect `CWE-` + CWE_ID of each, in document order |
| Cwe.AppendMemberIds | preprocess/py_code/cwe_view_process.py:19-20 | the inner loop appends one reference per Has_Member element, in order |
| Cwe.HasMembersAreReferences | preprocess/py_code/cwe_view_process.py:18-20 | a string is collected if and only if it is the reference of some Has_Member inside some container of the item |
| Cwe.HasMemberCellRoundTrip | preprocess/py_code/cwe_view_process.py:18-22 | the Has_Member cell is `''` without references, and otherwise splits on `;` back into the references |
| CweProcess.AsRecord | preprocess/py_code/cwe_process.py:6-7 | the record appended for a weakness has exactly the ten column names as keys |
| CweProcess.ProcessWeaknesses | preprocess/py_code/cwe_process.py:13-77 | the loop over all Weakness elements yields the table: the rows of the kept weaknesses, in document order |
| CweProcess.ProcessWeaknessList | preprocess/py_code/cwe_process.py:13-15 | the loop skips a weakness whose Name contains `DEPRECATED` and appends the row of every other one, in order |
| CweProcess.ProcessWeakness | preprocess/py_code/cwe_process.py:16-77 | the loop body computes the weakness's row |
| CweProcess.LastDescription | preprocess/py_code/cwe_process.py:19-22 | the Description cell is `''` without a Description child, else the normalised text of the last such child |
| CweProcess.LastExtendedDescription | preprocess/py_code/cwe_process.py:25-29 | the Extended_Description cell is `''` without such a child, else the normalised text serialisation of the last one |
| CweProcess.CollectRelated | preprocess/py_code/cwe_process.py:37-38 | one `Nature:CWE_ID` pair per Related_Weakness descendant, in document order |
| CweProcess.CollectClassOrName | preprocess/py_code/cwe_process.py:39-48 | each Language or Technology descendant contributes its Class, else its Name, else nothing |
| CweProcess.LastTextOf | preprocess/py_code/cwe_process.py:49-50 | the likelihood is the text of the last Likelihood_Of_Exploit descendant, `''` if there is none |
| CweProcess.CollectDistinct | preprocess/py_code/cwe_process.py:51-60 | the three nested loops collect the Scope (Reference) texts without repeats, in first-occurrence order |
| CweProcess.CollectDistinctInGroup | preprocess/py_code/cwe_process.py:52-55 | the middle loop appends the new texts of each entry of a group |
| CweProcess.AppendDistinct | preprocess/py_code/cwe_process.py:53-55 | the innermost loop appends a text only when it is not already collected |
| CweProcess.RowsOfKeptWeaknesses | preprocess/py_code/cwe_process.py:13-17 | every kept weakness has its row in the table, and no row's Name cell contains `DEPRECATED` |
| CweProcess.KeptNameHasNoMarker | preprocess/py_code/cwe_process.py:14-17 | quoting a kept weakness's name does not introduce `DEPRECATED` |
| CweProcess.IdAndNameRecoverAttributes | preprocess/py_code/cwe_process.py:16-17 | the ID and Name attributes can be read back from their cells, and equal id cells mean equal ID attributes |
| CweProcess.DescriptionsAreNormalizedLastChild | preprocess/py_code/cwe_process.py:18-29 | both description cells are normalised (no newline, tab or double space), `''` without a matching direct child, and from the last matching child otherwise |
| CweProcess.RelatedRoundTrip | preprocess/py_code/cwe_process.py:37-38 | the Related_Weakness cell splits on `;` into one pair per element, and each pair splits on `:` into Nature and CWE_ID, when the attributes hold no separator |
| CweProcess.ClassOverName | preprocess/py_code/cwe_process.py:39-48 | a value is collected if and only if some visited element contributes it, with Class taking priority over Name |
| CweProcess.DistinctInFirstOccurrenceOrder | preprocess/py_code/cwe_process.py:51-60 | the collected scopes and references have no duplicates, are exactly the texts met, and keep their first-occurrence order |
| CweProcess.NoValuesGiveEmptyCells | preprocess/py_code/cwe_process.py:62-66 | a list column with nothing collected is the empty string |
| CweViewProcess.AsRecord | preprocess/py_code/cwe_view_process.py:4 | the record appended for a view has exactly the five column names as keys |
| CweViewProcess.ProcessViews | preprocess/py_code/cwe_view_process.py:10-28 | the loop over all View elements yields the rows of the views kept, in document order |
| CweViewProcess.ProcessViewList | preprocess/py_code/cwe_view_process.py:10-12 | the loop skips a view whose Status contains `Deprecated` and appends the row of every other one |
| CweViewProcess.ProcessView | preprocess/py_code/cwe_view_process.py:13-28 | the loop body computes the view's row |
| CweViewProcess.RowsOfKeptViews | preprocess/py_code/cwe_view_process.py:10-12 | every kept view has its row, and no row's Status contains `Deprecated` |
| CweViewProcess.CellsRecoverAttributes | preprocess/py_code/cwe_view_process.py:13-16 | ID, Name, Type and Status can be read back from their cells |
| CweViewProcess.HasMemberCell | preprocess/py_code/cwe_view_process.py:17-22 | the Has_Member cell lists exactly the references found under Members, `''` when there are none |
| CweCategoryProcess.AsRecord | preprocess/py_code/cwe_category_process.py:4 | the record appended for a category has exactly the four column names as keys |
| CweCategoryProcess.ProcessCategories | preprocess/py_code/cwe_category_process.py:10-26 | the loop over all Category elements yields the rows of the categories kept, in document order |
| CweCategoryProcess.ProcessCategoryList | preprocess/py_code/cwe_category_process.py:10-12 | the loop skips a category whose Status contains `Deprecated` and appends the row of every other one |
| CweCategoryProcess.ProcessCategory | preprocess/py_code/cwe_category_process.py:13-26 | the loop body computes the category's row |
| CweCategoryProcess.RowsOfKeptCategories | preprocess/py_code/cwe_category_process.py:10-12 | every kept category has its row, and no row's Status contains `Deprecated` |
| CweCategoryProcess.CellsRecoverAttributes | preprocess/py_code/cwe_category_process.py:13-15 | ID, Name and Status can be read back from their cells |
| CweCategoryProcess.HasMemberCell | preprocess/py_code/cwe_category_process.py:16-21 | the Has_Member cell lists exactly the references found under Relationships, `''` when there are none |
| CveProcess.AsRecord | preprocess/py_code/cve_process.py:17-18 | the record appended for an entry has exactly the nine column names as keys |
| CveProcess.Range | preprocess/py_code/cve_process.py:7 | `range(lo, hi)` lists `lo` to `hi - 1` in increasing order |
| CveProcess.NameDeterminesYear | preprocess/py_code/cve_process.py:11 | a file name built from a prefix, the decimal year and a suffix determines the year |
| CveProcess.YearFiles | preprocess/py_code/cve_process.py:5-11 | 21 years from 2002 to 2022, no two of them sharing an input or an output file name |
| CveProcess.OneTablePerYear | preprocess/py_code/cve_process.py:9-65 | the loop yields 21 tables; the k-th is saved under the name for 2002 + k and holds the rows of that year's feed |
| CveProcess.ProcessYears | preprocess/py_code/cve_process.py:5-9 | the year loop yields, for every year in order, the table of that year |
| CveProcess.ProcessYearList | preprocess/py_code/cve_process.py:9-65 | iterating over a list of years yields the table of each year, in order |
| CveProcess.ProcessYear | preprocess/py_code/cve_process.py:11-65 | one iteration reads the year's feed and builds the table saved under the year's name |
| CveProcess.ProcessDocument | preprocess/py_code/cve_process.py:19-21 | the rows of a feed come from its `CVE_Items` |
| CveProcess.ProcessItems | preprocess/py_code/cve_process.py:21-60 | the entry loop appends one row per entry, in order |
| CveProcess.ProcessItem | preprocess/py_code/cve_process.py:22-60 | the loop body computes the entry's row |
| CveProcess.CollectProblemValues | preprocess/py_code/cve_process.py:25-28 | the nested loops collect every description value of every problem type, in order |
| CveProcess.AppendValues | preprocess/py_code/cve_process.py:26-28 | the inner loop appends one value per description |
| CveProcess.CollectNodeUris | preprocess/py_code/cve_process.py:35-37 | the nested loops collect the `cpe23Uri` of every match of every top-level node, in order |
| CveProcess.AppendUris | preprocess/py_code/cve_process.py:36-37 | the inner loop appends one URI per match |
| CveProcess.RowPerItem | preprocess/py_code/cve_process.py:21-22 | one row per entry, in array order, carrying the entry's ID |
| CveProcess.CvssAllOrNothing | preprocess/py_code/cve_process.py:40-50 | the five CVSS cells are all `''` without `baseMetricV3` and all taken from it with one |
| CveProcess.CweValues | preprocess/py_code/cve_process.py:23-28 | a value is in the CWE list if and only if the entry has `problemtype` and some problem type's description carries it |
| CveProcess.CpeValues | preprocess/py_code/cve_process.py:33-37 | a name is in the CPE list if and only if the entry has `configurations` and some top-level node's match carries it |
| CveProcess.CellRoundTrip | preprocess/py_code/cve_process.py:29 | a `;`-joined list is `''` when empty and splits back into the list when no value holds `;` |
| CveProcess.ListCells | preprocess/py_code/cve_process.py:23-38 | the MatchingCWE and MatchingCPE cells are `''` when the key is absent and split back into the collected values |
| CveProcessTest.Run | preprocess/py_code/cve_process_test.py:6-65 | the script reads the one 2002 feed and builds the table saved under its fixed name |
| CveProcessTest.ProcessItems | preprocess/py_code/cve_process_test.py:14-62 | the entry loop appends one row per entry, in order |
| CveProcessTest.ProcessItem | preprocess/py_code/cve_process_test.py:15-62 | its loop body builds the same row as the year loop's body |
| CveProcessTest.SameRowsAsYearLoop | preprocess/py_code/cve_process_test.py:6-8 | given the same 2002 feed, its rows are those of the first iteration of the year loop |
| CpeProcess.AsRecord | preprocess/py_code/cpe_process.py:4-6 | the record appended for an item has exactly the fourteen column names as keys |
| CpeProcess.EscapeProperties | preprocess/py_code/cpe_process.py:19-21 | the escaped name keeps its length and holds no `"`, no `\:` and no `\,` |
| CpeProcess.NoCommaPairAfterColonStep | preprocess/py_code/cpe_process.py:19-20 | the colon substitution introduces no `\,` |
| CpeProcess.EscapeKeepsPlainNames | preprocess/py_code/cpe_process.py:19-21 | a name without backslash or double quote is not changed |
| CpeProcess.RowOf | preprocess/py_code/cpe_process.py:23-37 | a row is built if and only if the escaped name splits into at least 13 components; otherwise the indexing fails |
| CpeProcess.ProcessDictionary | preprocess/py_code/cpe_process.py:12-37 | the loop over the root's children yields the table, or the failure of the first name that is too short |
| CpeProcess.ProcessChildren | preprocess/py_code/cpe_process.py:12-13 | the loop skips children that are not `cpe-item`, appends each item's row, and stops at the first failure |
| CpeProcess.ProcessItem | preprocess/py_code/cpe_process.py:14-37 | the loop body computes the item's row, or its failure |
| CpeProcess.FailurePersists | preprocess/py_code/cpe_process.py:23-24 | once an item fails, the whole script fails with that failure |
| CpeProcess.TableSucceeds | preprocess/py_code/cpe_process.py:12-24 | the script succeeds if and only if every `cpe-item` name splits into at least 13 components |
| CpeProcess.TableRows | preprocess/py_code/cpe_process.py:12-37 | a successful table has one row per `cpe-item` child, in order, and ignores other children |
| CpeProcess.ColumnsAreComponents | preprocess/py_code/cpe_process.py:19-34 | for a plain 13-component name, columns part to other are components 2 to 12 |
| CpeProcess.QuotedColonStaysInComponent | preprocess/py_code/cpe_process.py:20-23 | an escaped colon becomes `\;` and no longer splits a component |
| CpeProcess.QuotedBackslashLosesSeparator | preprocess/py_code/cpe_process.py:19-24 | an escaped backslash before a separator makes that separator `;`; a 13-component name then fails |
| CpeMerge.SameKeyIffSameKeptColumns | preprocess/py_code/cpe_merge.py:8-10 | two rows are grouped together if and only if they agree on part, vendor, product, target_sw and target_hw |
| CpeMerge.ShortNameInjective | preprocess/py_code/cpe_merge.py:9 | without colons in the kept columns, the short name determines them |
| CpeMerge.NameAddsNoGroups | preprocess/py_code/cpe_merge.py:9-10 | adding the name to the grouping columns leaves one group per distinct five-column tuple |
| CpeMerge.ListedKeysComplete | preprocess/py_code/cpe_merge.py:3-10 | only rows with no kept cell read as missing take part in the grouping |
| CpeMerge.GroupedDistinct | preprocess/py_code/cpe_merge.py:10 | the groupby result has no key twice |
| CpeMerge.GroupedSizes | preprocess/py_code/cpe_merge.py:10 | each group's size is the number of rows with its key, at least one |
| CpeMerge.GroupedCovers | preprocess/py_code/cpe_merge.py:10 | every complete row falls into a group |
| CpeMerge.GroupedSum | preprocess/py_code/cpe_merge.py:10 | the sizes add up to the number of complete rows |
| CpeMerge.SortBySizeProperties | preprocess/py_code/cpe_merge.py:11 | the sort is a permutation and leaves sizes non-increasing |
| CpeMerge.SortKeepsDistinctKeys | preprocess/py_code/cpe_merge.py:11 | sorting keeps the keys distinct |
| CpeMerge.SortSum | preprocess/py_code/cpe_merge.py:11 | sorting keeps the sum of sizes |
| CpeMerge.MergeRowsAreGroups | preprocess/py_code/cpe_merge.py:10-11 | every output row is a group of the groupby result |
| CpeMerge.GroupsAreMergeRows | preprocess/py_code/cpe_merge.py:10-11 | every group of the groupby result is an output row |
| CpeMerge.MergeSizes | preprocess/py_code/cpe_merge.py:10-11 | every output row counts the rows with its key, which has no missing cell |
| CpeMerge.MergeCovers | preprocess/py_code/cpe_merge.py:10-11 | every complete input row has its output row |
| CpeMerge.MergeIsMergeOf | preprocess/py_code/cpe_merge.py:3-11 | the output is the groupby result sorted, with non-increasing sizes, distinct keys, correct counts and a row per complete input row; the sizes add up to the complete rows |
| Text.QuotingKeepsOccurrences | preprocess/py_code/cwe_process.py:14-17 | wrapping in double quotes neither creates nor hides an occurrence of a quote-free pattern |
| Text.SplitJoin | preprocess/py_code/cpe_process.py:23 | splitting a join on a separator no piece contains gives the pieces back |
| Text.JoinSplit | preprocess/py_code/cpe_process.py:23 | joining the pieces of a split gives the string back |
| Text.SplitPieces | preprocess/py_code/cpe_process.py:23 | a split has one more piece than separators, and no piece holds the separator |
| Text.Replace | preprocess/py_code/cpe_process.py:19-21 | replacing a pattern by one of the same length keeps the length |
| Text.ReplaceChar | preprocess/py_code/cwe_process.py:21 | replacing a character removes it and adds only the replacement's characters |
| Text.CollapseSpaces | preprocess/py_code/cwe_process.py:22 | the result starts as the input, has no two spaces in a row and no new character |
| Text.CollapseDropsRun | preprocess/py_code/cwe_process.py:22 | removing one space of a run of two or more leaves the result unchanged, so every run of spaces becomes exactly one space |
| Text.CollapseWithoutDoubleSpace | preprocess/py_code/cwe_process.py:22 | text without two spaces in a row, and so every lone space, is kept as it is |
| Text.NormalizeKeepsNormalized | preprocess/py_code/cwe_process.py:21-22 | text with no newline, no tab and no double space is left unchanged |
| Text.CollapseKeepsNonSpaces | preprocess/py_code/cwe_process.py:22 | collapsing spaces keeps every other character in order |
| Text.NormalizeIsNormalized | preprocess/py_code/cwe_process.py:21-22 | the normalised text has no newline, no tab and no two spaces in a row |
| Text.NormalizeIdempotent | preprocess/py_code/cwe_process.py:21-22 | normalising twice is normalising once |
| Text.NatToStringInjective | preprocess/py_code/cve_process.py:11 | distinct years give distinct decimal strings |
| Xml.Iter | preprocess/py_code/cwe_process.py:13 | every element `iter(tag)` visits has that tag |
| Xml.Find | preprocess/py_code/cpe_process.py:14-15 | `find` gives the first direct child with the tag, and nothing if and only if there is none |
| Xml.LastWithTagIsLast | preprocess/py_code/cwe_process.py:19-21 | the last matching direct child is found, and nothing if and only if there is none |
| Xml.CharRefs | preprocess/py_code/cwe_process.py:27 | the serialised text is ASCII |
| Xml.CharRefsOfAscii | preprocess/py_code/cwe_process.py:27 | ASCII text is serialised unchanged |

## Left out

- Parsing XML and JSON and writing CSV: the scripts' inputs are the parsed
  trees and values, and their outputs are the rows and file names. The
  `utf-8-sig` byte-order mark and CSV quoting are not modelled.
- Loading the feeds: `open` and `json.load` of each year's file are a
  parameter `load` mapping a file name to the parsed feed.
- Missing keys, attributes or children that the scripts index without
  checking raise an exception in the source. They are preconditions
  (`WeaknessShape`, `ViewShape`, `CategoryShape`, `ItemShape`,
  `DocumentShape`), not error results. The one exception is the CPE
  component indexing, which is an error result because it depends on the
  data's content.
- An element whose text is `None` is modelled with text `''`. That is what
  pandas writes for a `None` likelihood, but the source fails in three
  other places:
  - `None.replace` raises in the description step;
  - a Scope or Reference element with no text puts `None` into
    `consequence` or `example`, and then `';'.join` raises `TypeError` at
    `cwe_process.py:65-66`.

  The model collects `''` in those cases and produces a row.
- JSON numbers (`baseScore`, `impactScore`, `exploitabilityScore`) are
  copied as JSON values: the model does not format floats.
- CpeMerge: `read_csv` is modelled only by its default missing-value
  strings (the pandas 1.x list). Its type inference is not modelled, nor a
  column that reads as numbers.
- CpeMerge.SortBySize: the order of groups of equal size is not specified
  by the source (pandas lists groups by key and sorts with an unstable
  quicksort). The model keeps first-occurrence order and a stable sort.
  `IsMergeOf` states only what holds for every order of ties.
- CweProcess.AsRecord, CweViewProcess.AsRecord, CweCategoryProcess.AsRecord,
  CveProcess.AsRecord, CpeProcess.AsRecord: only the key set is stated; the
  values are the row's fields by construction.
- CveProcessTest.ProcessItem: its nested collection loops are the same code
  as the year loop's, so it calls `CveProcess.CollectProblemValues` and
  `CveProcess.CollectNodeUris` rather than repeating them.
- `neo4j_import/neo4j_api_example.py` (importing the tables into the graph
  database) is not part of this model.
