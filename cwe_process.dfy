/** The Weakness table of the CWE catalogue: one row per Weakness whose Name
    is not marked `DEPRECATED`, with ten text columns. Multi-valued columns
    are collected from the Weakness's subtree in document order and joined
    with `;`. */
module CweProcess {
  import opened Seqs
  import opened Text
  import opened Xml
  import opened Cwe

  const Columns: seq<string> := ["ID", "Name", "Description", "Extended_Description",
    "Related_Weakness", "Language", "Technology", "Likelihood_Of_Exploit", "Consequence",
    "CVE_Example"]

  datatype WeaknessRow = WeaknessRow(
    id: string,
    name: string,
    description: string,
    extended: string,
    related: string,
    language: string,
    technology: string,
    likelihood: string,
    consequence: string,
    example: string)

  /** The record appended for a row: a dictionary keyed by the column names. */
  function AsRecord(row: WeaknessRow): (m: map<string, string>)
    ensures m.Keys == set c | c in Columns
  {
    map["ID" := row.id, "Name" := row.name, "Description" := row.description,
      "Extended_Description" := row.extended, "Related_Weakness" := row.related,
      "Language" := row.language, "Technology" := row.technology,
      "Likelihood_Of_Exploit" := row.likelihood, "Consequence" := row.consequence,
      "CVE_Example" := row.example]
  }

  // ---------------------------------------------------------------------------
  // The projection of one Weakness, field by field.

  /** The skip rule: the Name attribute contains `DEPRECATED` (case-sensitive). */
  predicate Kept(item: Element)
  {
    !Contains(Attr(item, "Name"), "DEPRECATED")
  }

  function TextOf(e: Element): string
  {
    e.text
  }

  /** The text of the last direct Description child, normalised; `''` if there
      is none. */
  function DescriptionOf(item: Element): string
  {
    match LastWithTag(item.children, DescriptionTag)
    case None => ""
    case Some(c) => Normalize(c.text)
  }

  /** The text serialisation of the last direct Extended_Description child,
      normalised; `''` if there is none. */
  function ExtendedOf(item: Element): string
  {
    match LastWithTag(item.children, ExtendedDescriptionTag)
    case None => ""
    case Some(c) => Normalize(TextSerialization(c))
  }

  /** `Nature:CWE_ID` of one Related_Weakness. */
  function RelatedPair(e: Element): string
  {
    Attr(e, "Nature") + ":" + Attr(e, CweIdAttribute)
  }

  /** What one Language or Technology element contributes: its Class if it
      has one, else its Name if it has one, else nothing. */
  function ClassOrName(e: Element): seq<string>
  {
    if "Class" in e.attrib then [e.attrib["Class"]]
    else if "Name" in e.attrib then [e.attrib["Name"]]
    else []
  }

  /** The text of the last element of `es`, `''` if there is none. */
  function LastText(es: seq<Element>): string
  {
    if es == [] then "" else es[|es| - 1].text
  }

  /** The three nested `iter` tags of a Consequence-style column: groups,
      entries inside a group, and the values inside an entry. */
  datatype NestedPath = NestedPath(outer: QName, middle: QName, inner: QName)

  const ScopePath: NestedPath := NestedPath(CommonConsequencesTag, ConsequenceTag, ScopeTag)
  const ReferencePath: NestedPath := NestedPath(ObservedExamplesTag, ObservedExampleTag, ReferenceTag)

  /** The value texts inside one entry. */
  function EntryTexts(p: NestedPath): Element -> seq<string>
  {
    j => Map(TextOf, Iter(j, p.inner))
  }

  /** The value texts inside one group, entry by entry. */
  function GroupTexts(p: NestedPath): Element -> seq<string>
  {
    i => FlatMap(EntryTexts(p), Iter(i, p.middle))
  }

  /** Every value text the triple loop visits, in visiting order, repeats
      included. */
  function NestedTexts(item: Element, p: NestedPath): seq<string>
  {
    FlatMap(GroupTexts(p), Iter(item, p.outer))
  }

  function RelatedPairs(item: Element): seq<string>
  {
    Map(RelatedPair, Iter(item, RelatedWeaknessTag))
  }

  function Languages(item: Element): seq<string>
  {
    FlatMap(ClassOrName, Iter(item, LanguageTag))
  }

  function Technologies(item: Element): seq<string>
  {
    FlatMap(ClassOrName, Iter(item, TechnologyTag))
  }

  function Consequences(item: Element): seq<string>
  {
    Dedup(NestedTexts(item, ScopePath))
  }

  function Examples(item: Element): seq<string>
  {
    Dedup(NestedTexts(item, ReferencePath))
  }

  /** The row of one Weakness. */
  function ProjectWeakness(item: Element): WeaknessRow
  {
    WeaknessRow(
      CweId(Attr(item, "ID")),
      Quoted(Attr(item, "Name")),
      DescriptionOf(item),
      ExtendedOf(item),
      Join(RelatedPairs(item), ';'),
      Join(Languages(item), ';'),
      Join(Technologies(item), ';'),
      LastText(Iter(item, LikelihoodTag)),
      Join(Consequences(item), ';'),
      Join(Examples(item), ';'))
  }

  /** The table: one row per kept Weakness of the catalogue, in document order. */
  function WeaknessRows(root: Element): seq<WeaknessRow>
  {
    Map(ProjectWeakness, Filter(Kept, Iter(root, WeaknessTag)))
  }

  /** The attributes the script indexes directly are present: ID and Name on
      the Weakness, Nature and CWE_ID on each Related_Weakness. */
  predicate WeaknessShape(item: Element)
  {
    {"ID", "Name"} <= item.attrib.Keys &&
    AllHave(Iter(item, RelatedWeaknessTag), {"Nature", CweIdAttribute})
  }

  predicate CatalogueShape(root: Element)
  {
    All(WeaknessShape, Iter(root, WeaknessTag))
  }

  // ---------------------------------------------------------------------------
  // The script's loops.

  /** The loop over all Weakness elements, skipping deprecated ones. */
  method ProcessWeaknesses(root: Element) returns (rows: seq<WeaknessRow>)
    requires CatalogueShape(root)
    ensures rows == WeaknessRows(root)
  {
    rows := ProcessWeaknessList(Iter(root, WeaknessTag));
  }

  /** `for item in root.iter('Weakness')`, over the sequence the iterator yields. */
  method ProcessWeaknessList(items: seq<Element>) returns (rows: seq<WeaknessRow>)
    requires All(WeaknessShape, items)
    ensures rows == Map(ProjectWeakness, Filter(Kept, items))
  {
    rows := [];
    for k := 0 to |items|
      invariant rows == Map(ProjectWeakness, Filter(Kept, items[..k]))
    {
      var item := items[k];
      AllAt(WeaknessShape, items, k);
      FilterMapSnoc(ProjectWeakness, Kept, items, k);
      if Contains(item.attrib["Name"], "DEPRECATED") {
        continue;
      }
      var row := ProcessWeakness(item);
      rows := rows + [row];
    }
    assert items[..|items|] == items;
  }

  /** The body of that loop for one kept Weakness. */
  method ProcessWeakness(item: Element) returns (row: WeaknessRow)
    requires WeaknessShape(item)
    ensures row == ProjectWeakness(item)
  {
    var cweid := "CWE-" + item.attrib["ID"];
    var name := "\"" + item.attrib["Name"] + "\"";
    var description := LastDescription(item.children);
    var extended := LastExtendedDescription(item.children);
    var related := CollectRelated(Iter(item, RelatedWeaknessTag));
    var language := CollectClassOrName(Iter(item, LanguageTag));
    var technology := CollectClassOrName(Iter(item, TechnologyTag));
    var likelyhood := LastTextOf(Iter(item, LikelihoodTag));
    var consequence := CollectDistinct(item, ScopePath);
    var example := CollectDistinct(item, ReferencePath);
    row := WeaknessRow(cweid, name, description, extended, Join(related, ';'),
      Join(language, ';'), Join(technology, ';'), likelyhood, Join(consequence, ';'),
      Join(example, ';'));
  }

  /** `for child in item: if child.tag == Description: description = ...`. */
  method LastDescription(children: seq<Element>) returns (description: string)
    ensures description == match LastWithTag(children, DescriptionTag)
      case None => ""
      case Some(c) => Normalize(c.text)
  {
    description := "";
    for k := 0 to |children|
      invariant description == match LastWithTag(children[..k], DescriptionTag)
        case None => ""
        case Some(c) => Normalize(c.text)
    {
      LastWithTagSnoc(children, k, DescriptionTag);
      var child := children[k];
      if child.tag == DescriptionTag {
        description := Normalize(child.text);
      }
    }
    assert children[..|children|] == children;
  }

  /** The same loop for Extended_Description, which serialises the child's
      whole text content. */
  method LastExtendedDescription(children: seq<Element>) returns (extended: string)
    ensures extended == match LastWithTag(children, ExtendedDescriptionTag)
      case None => ""
      case Some(c) => Normalize(TextSerialization(c))
  {
    extended := "";
    for k := 0 to |children|
      invariant extended == match LastWithTag(children[..k], ExtendedDescriptionTag)
        case None => ""
        case Some(c) => Normalize(TextSerialization(c))
    {
      LastWithTagSnoc(children, k, ExtendedDescriptionTag);
      var child := children[k];
      if child.tag == ExtendedDescriptionTag {
        extended := Normalize(TextSerialization(child));
      }
    }
    assert children[..|children|] == children;
  }

  /** `for i in item.iter(Related_Weakness): related.append(Nature + ':' + CWE_ID)`. */
  method CollectRelated(es: seq<Element>) returns (related: seq<string>)
    requires AllHave(es, {"Nature", CweIdAttribute})
    ensures related == Map(RelatedPair, es)
  {
    related := [];
    for k := 0 to |es|
      invariant related == Map(RelatedPair, es[..k])
    {
      var i := es[k];
      MapSnoc(RelatedPair, es, k);
      related := related + [i.attrib["Nature"] + ":" + i.attrib[CweIdAttribute]];
    }
    assert es[..|es|] == es;
  }

  /** The Language and Technology loops: Class if present, else Name. */
  method CollectClassOrName(es: seq<Element>) returns (values: seq<string>)
    ensures values == FlatMap(ClassOrName, es)
  {
    values := [];
    for k := 0 to |es|
      invariant values == FlatMap(ClassOrName, es[..k])
    {
      var i := es[k];
      FlatMapSnoc(ClassOrName, es, k);
      if "Class" in i.attrib {
        values := values + [i.attrib["Class"]];
      } else if "Name" in i.attrib {
        values := values + [i.attrib["Name"]];
      }
    }
    assert es[..|es|] == es;
  }

  /** `for i in item.iter(Likelihood_Of_Exploit): likelyhood = i.text`. */
  method LastTextOf(es: seq<Element>) returns (text: string)
    ensures text == LastText(es)
  {
    text := "";
    for k := 0 to |es|
      invariant text == LastText(es[..k])
    {
      assert es[..k + 1][..k] == es[..k];
      text := es[k].text;
    }
    assert es[..|es|] == es;
  }

  /** The triple loop of the Consequence and CVE_Example columns: every value
      text is appended unless the list already holds it. */
  method CollectDistinct(item: Element, p: NestedPath) returns (found: seq<string>)
    ensures found == Dedup(NestedTexts(item, p))
  {
    found := [];
    var groups := Iter(item, p.outer);
    for a := 0 to |groups|
      invariant found == AppendNew([], FlatMap(GroupTexts(p), groups[..a]))
    {
      var entries := Iter(groups[a], p.middle);
      found := CollectDistinctInGroup(found, entries, p);
      FlatMapSnoc(GroupTexts(p), groups, a);
      AppendNewConcat([], FlatMap(GroupTexts(p), groups[..a]), GroupTexts(p)(groups[a]));
    }
    assert groups[..|groups|] == groups;
  }

  /** The middle loop, over the entries of one group. */
  method CollectDistinctInGroup(found: seq<string>, entries: seq<Element>, p: NestedPath)
    returns (found': seq<string>)
    ensures found' == AppendNew(found, FlatMap(EntryTexts(p), entries))
  {
    found' := found;
    for b := 0 to |entries|
      invariant found' == AppendNew(found, FlatMap(EntryTexts(p), entries[..b]))
    {
      var values := Iter(entries[b], p.inner);
      found' := AppendDistinct(found', values);
      FlatMapSnoc(EntryTexts(p), entries, b);
      AppendNewConcat(found, FlatMap(EntryTexts(p), entries[..b]), EntryTexts(p)(entries[b]));
    }
    assert entries[..|entries|] == entries;
  }

  /** The innermost loop: `if not k.text in found: found.append(k.text)`. */
  method AppendDistinct(found: seq<string>, values: seq<Element>) returns (found': seq<string>)
    ensures found' == AppendNew(found, Map(TextOf, values))
  {
    found' := found;
    for c := 0 to |values|
      invariant found' == AppendNew(found, Map(TextOf, values[..c]))
    {
      var k := values[c];
      MapSnoc(TextOf, values, c);
      AppendNewSnoc(found, Map(TextOf, values[..c]), k.text);
      if k.text !in found' {
        found' := found' + [k.text];
      }
    }
    assert values[..|values|] == values;
  }

  // ---------------------------------------------------------------------------
  // Properties of the table.

  /** Every kept Weakness produces its row in the table, and every row is the
      row of a kept Weakness; so no row's Name contains `DEPRECATED`. */
  lemma RowsOfKeptWeaknesses(root: Element)
    ensures forall k :: 0 <= k < |Iter(root, WeaknessTag)| && Kept(Iter(root, WeaknessTag)[k]) ==>
      ProjectWeakness(Iter(root, WeaknessTag)[k]) in WeaknessRows(root)
    ensures forall i :: 0 <= i < |WeaknessRows(root)| ==> !Contains(WeaknessRows(root)[i].name, "DEPRECATED")
  {
    var items := Iter(root, WeaknessTag);
    var kept := Filter(Kept, items);
    FilterMembers(Kept, items);
    MapFilterMembers(ProjectWeakness, Kept, items);
    forall i | 0 <= i < |WeaknessRows(root)|
      ensures !Contains(WeaknessRows(root)[i].name, "DEPRECATED")
    {
      KeptNameHasNoMarker(kept[i]);
    }
  }

  /** The Name cell of a kept Weakness does not contain `DEPRECATED`. */
  lemma KeptNameHasNoMarker(item: Element)
    requires Kept(item)
    ensures !Contains(ProjectWeakness(item).name, "DEPRECATED")
  {
    QuotingKeepsOccurrences(Attr(item, "Name"), "DEPRECATED");
  }

  /** The ID column is `CWE-` followed by the ID attribute and the Name column
      is the Name attribute between double quotes: both can be read back, so
      Weaknesses with different IDs get different ID cells. */
  lemma IdAndNameRecoverAttributes(item: Element, other: Element)
    ensures ProjectWeakness(item).id[..4] == "CWE-"
    ensures ProjectWeakness(item).id[4..] == Attr(item, "ID")
    ensures |ProjectWeakness(item).name| == |Attr(item, "Name")| + 2
    ensures ProjectWeakness(item).name[1..|ProjectWeakness(item).name| - 1] == Attr(item, "Name")
    ensures ProjectWeakness(item).id == ProjectWeakness(other).id ==> Attr(item, "ID") == Attr(other, "ID")
  {
    CweIdRecoversAttribute(Attr(item, "ID"));
    CweIdRecoversAttribute(Attr(other, "ID"));
    QuotedRecoversName(Attr(item, "Name"));
  }

  /** Description and Extended_Description are normalised (no newline, no tab,
      no double space); each is `''` without a matching direct child and
      otherwise comes from the last such child. */
  lemma DescriptionsAreNormalizedLastChild(item: Element)
    ensures IsNormalized(DescriptionOf(item)) && IsNormalized(ExtendedOf(item))
    ensures (forall i :: 0 <= i < |item.children| ==> item.children[i].tag != DescriptionTag) ==>
      DescriptionOf(item) == ""
    ensures (exists i :: 0 <= i < |item.children| && item.children[i].tag == DescriptionTag) ==>
      exists i :: IsLastMatch(item.children, DescriptionTag, i) &&
        DescriptionOf(item) == Normalize(item.children[i].text)
    ensures (forall i :: 0 <= i < |item.children| ==> item.children[i].tag != ExtendedDescriptionTag) ==>
      ExtendedOf(item) == ""
    ensures (exists i :: 0 <= i < |item.children| && item.children[i].tag == ExtendedDescriptionTag) ==>
      exists i :: IsLastMatch(item.children, ExtendedDescriptionTag, i) &&
        ExtendedOf(item) == Normalize(TextSerialization(item.children[i]))
  {
    LastWithTagIsLast(item.children, DescriptionTag);
    LastWithTagIsLast(item.children, ExtendedDescriptionTag);
    match LastWithTag(item.children, DescriptionTag) {
      case None =>
      case Some(c) => NormalizeIsNormalized(c.text);
    }
    match LastWithTag(item.children, ExtendedDescriptionTag) {
      case None =>
      case Some(c) => NormalizeIsNormalized(TextSerialization(c));
    }
  }

  /** Splitting the Related_Weakness cell on `;` gives back one `Nature:CWE_ID`
      pair per Related_Weakness, in document order, duplicates kept, and each
      pair splits on `:` into its two attributes, provided the attribute
      values hold neither separator. With no Related_Weakness the cell is
      `''`. */
  lemma RelatedRoundTrip(item: Element)
    requires forall k :: 0 <= k < |Iter(item, RelatedWeaknessTag)| ==>
      NoSeparators(Iter(item, RelatedWeaknessTag)[k])
    ensures Iter(item, RelatedWeaknessTag) == [] ==> ProjectWeakness(item).related == ""
    ensures Iter(item, RelatedWeaknessTag) != [] ==>
      Split(ProjectWeakness(item).related, ';') == RelatedPairs(item)
    ensures forall k :: 0 <= k < |Iter(item, RelatedWeaknessTag)| ==>
      Split(RelatedPairs(item)[k], ':') ==
        [Attr(Iter(item, RelatedWeaknessTag)[k], "Nature"), Attr(Iter(item, RelatedWeaknessTag)[k], CweIdAttribute)]
  {
    var es := Iter(item, RelatedWeaknessTag);
    var pairs := RelatedPairs(item);
    forall k | 0 <= k < |es|
      ensures ';' !in pairs[k]
      ensures Split(pairs[k], ':') == [Attr(es[k], "Nature"), Attr(es[k], CweIdAttribute)]
    {
      var nature, id := Attr(es[k], "Nature"), Attr(es[k], CweIdAttribute);
      assert pairs[k] == nature + [':'] + id;
      SplitAtSeparator(nature, id, ':');
      SplitWithoutSeparator(id, ':');
    }
    if es != [] {
      SplitJoin(pairs, ';');
    }
  }

  /** Neither `Nature` nor `CWE_ID` holds `;` or `:`. */
  predicate NoSeparators(e: Element)
  {
    ';' !in Attr(e, "Nature") && ':' !in Attr(e, "Nature") &&
    ';' !in Attr(e, CweIdAttribute) && ':' !in Attr(e, CweIdAttribute)
  }

  /** `v` is what `e` contributes to a Language or Technology column. */
  predicate ContributesValue(e: Element, v: string)
  {
    if "Class" in e.attrib then v == e.attrib["Class"]
    else "Name" in e.attrib && v == e.attrib["Name"]
  }

  /** A value is collected exactly when some visited element contributes it:
      its Class when it has one, otherwise its Name; an element with neither
      contributes nothing. */
  lemma ClassOverName(es: seq<Element>, v: string)
    ensures v in FlatMap(ClassOrName, es) <==> exists k :: 0 <= k < |es| && ContributesValue(es[k], v)
    ensures forall k :: 0 <= k < |es| && "Class" !in es[k].attrib && "Name" !in es[k].attrib ==>
      ClassOrName(es[k]) == []
  {
    FlatMapMembership(ClassOrName, es, v);
    assert forall k :: 0 <= k < |es| ==> (v in ClassOrName(es[k]) <==> ContributesValue(es[k], v));
  }

  /** The Consequence (Scope texts) and CVE_Example (Reference texts) lists
      hold no duplicate, hold exactly the texts the triple loop visits, and
      keep them in order of first occurrence. */
  lemma DistinctInFirstOccurrenceOrder(item: Element, p: NestedPath)
    ensures NoDuplicates(Dedup(NestedTexts(item, p)))
    ensures forall i :: 0 <= i < |Dedup(NestedTexts(item, p))| ==> Dedup(NestedTexts(item, p))[i] in NestedTexts(item, p)
    ensures forall i :: 0 <= i < |NestedTexts(item, p)| ==> NestedTexts(item, p)[i] in Dedup(NestedTexts(item, p))
    ensures forall i, j :: 0 <= i < j < |Dedup(NestedTexts(item, p))| ==>
      FirstIndex(NestedTexts(item, p), Dedup(NestedTexts(item, p))[i]) <
      FirstIndex(NestedTexts(item, p), Dedup(NestedTexts(item, p))[j])
  {
    DedupDistinctSameElements(NestedTexts(item, p));
    DedupKeepsFirstOccurrenceOrder(NestedTexts(item, p));
  }

  /** A multi-valued column with nothing collected is the empty string. */
  lemma NoValuesGiveEmptyCells(item: Element)
    ensures RelatedPairs(item) == [] ==> ProjectWeakness(item).related == ""
    ensures Languages(item) == [] ==> ProjectWeakness(item).language == ""
    ensures Technologies(item) == [] ==> ProjectWeakness(item).technology == ""
    ensures NestedTexts(item, ScopePath) == [] ==> ProjectWeakness(item).consequence == ""
    ensures NestedTexts(item, ReferencePath) == [] ==> ProjectWeakness(item).example == ""
  {
  }
}
