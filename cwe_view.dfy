/** The View table of the CWE catalogue: one row per View whose Status is not
    marked `Deprecated`, listing the CWE identifiers of the Has_Member
    elements under its Members. */
module CweViewProcess {
  import opened Seqs
  import opened Text
  import opened Xml
  import opened Cwe

  const Columns: seq<string> := ["ID", "Name", "Type", "Status", "Has_Member"]

  datatype ViewRow = ViewRow(id: string, name: string, typ: string, status: string, hasMember: string)

  /** The record appended for a row: a dictionary keyed by the column names. */
  function AsRecord(row: ViewRow): (m: map<string, string>)
    ensures m.Keys == set c | c in Columns
  {
    map["ID" := row.id, "Name" := row.name, "Type" := row.typ, "Status" := row.status,
      "Has_Member" := row.hasMember]
  }

  /** The skip rule: the Status attribute contains `Deprecated` (case-sensitive). */
  predicate Kept(item: Element)
  {
    !Contains(Attr(item, "Status"), "Deprecated")
  }

  function ProjectView(item: Element): ViewRow
  {
    ViewRow(
      CweId(Attr(item, "ID")),
      Quoted(Attr(item, "Name")),
      Attr(item, "Type"),
      Attr(item, "Status"),
      Join(HasMembers(item, MembersTag), ';'))
  }

  /** The table: one row per kept View of the catalogue, in document order. */
  function ViewRows(root: Element): seq<ViewRow>
  {
    Map(ProjectView, Filter(Kept, Iter(root, ViewTag)))
  }

  /** The attributes the script indexes directly are present. */
  predicate ViewShape(item: Element)
  {
    {"ID", "Name", "Type", "Status"} <= item.attrib.Keys && MembersHaveIds(item, MembersTag)
  }

  /** The loop over all View elements, skipping deprecated ones. */
  method ProcessViews(root: Element) returns (rows: seq<ViewRow>)
    requires All(ViewShape, Iter(root, ViewTag))
    ensures rows == ViewRows(root)
  {
    rows := ProcessViewList(Iter(root, ViewTag));
  }

  /** `for item in root.iter('View')`, over the sequence the iterator yields. */
  method ProcessViewList(items: seq<Element>) returns (rows: seq<ViewRow>)
    requires All(ViewShape, items)
    ensures rows == Map(ProjectView, Filter(Kept, items))
  {
    rows := [];
    for k := 0 to |items|
      invariant rows == Map(ProjectView, Filter(Kept, items[..k]))
    {
      var item := items[k];
      AllAt(ViewShape, items, k);
      FilterMapSnoc(ProjectView, Kept, items, k);
      if Contains(item.attrib["Status"], "Deprecated") {
        continue;
      }
      var row := ProcessView(item);
      rows := rows + [row];
    }
    assert items[..|items|] == items;
  }

  /** The body of that loop for one kept View. */
  method ProcessView(item: Element) returns (row: ViewRow)
    requires ViewShape(item)
    ensures row == ProjectView(item)
  {
    var cid := "CWE-" + item.attrib["ID"];
    var name := "\"" + item.attrib["Name"] + "\"";
    var typ := item.attrib["Type"];
    var status := item.attrib["Status"];
    var hasmember := CollectHasMembers(item, MembersTag);
    row := ViewRow(cid, name, typ, status, Join(hasmember, ';'));
  }

  /** Every kept View produces its row, and no row's Status contains
      `Deprecated`. */
  lemma RowsOfKeptViews(root: Element)
    ensures forall k :: 0 <= k < |Iter(root, ViewTag)| && Kept(Iter(root, ViewTag)[k]) ==>
      ProjectView(Iter(root, ViewTag)[k]) in ViewRows(root)
    ensures forall i :: 0 <= i < |ViewRows(root)| ==> !Contains(ViewRows(root)[i].status, "Deprecated")
  {
    var items := Iter(root, ViewTag);
    FilterMembers(Kept, items);
    MapFilterMembers(ProjectView, Kept, items);
  }

  /** The cells of a View's row read back as its attributes: ID after the
      `CWE-` prefix, Name between the quotes, Type and Status verbatim. */
  lemma CellsRecoverAttributes(item: Element)
    ensures ProjectView(item).id[..4] == "CWE-" && ProjectView(item).id[4..] == Attr(item, "ID")
    ensures |ProjectView(item).name| == |Attr(item, "Name")| + 2
    ensures ProjectView(item).name[1..|ProjectView(item).name| - 1] == Attr(item, "Name")
    ensures ProjectView(item).typ == Attr(item, "Type") && ProjectView(item).status == Attr(item, "Status")
  {
    CweIdRecoversAttribute(Attr(item, "ID"));
    QuotedRecoversName(Attr(item, "Name"));
  }

  /** The Has_Member cell splits on `;` into one `CWE-` reference per
      Has_Member under a Members element, in document order, duplicates
      kept; it is `''` when there is none. */
  lemma HasMemberCell(item: Element, m: string)
    requires forall a, b :: IsReferenceAt(item, MembersTag, a, b) ==>
      ';' !in Attr(Iter(Iter(item, MembersTag)[a], HasMemberTag)[b], CweIdAttribute)
    ensures HasMembers(item, MembersTag) == [] ==> ProjectView(item).hasMember == ""
    ensures HasMembers(item, MembersTag) != [] ==>
      Split(ProjectView(item).hasMember, ';') == HasMembers(item, MembersTag)
    ensures m in HasMembers(item, MembersTag) <==> exists a, b :: IsReference(item, MembersTag, m, a, b)
  {
    HasMemberCellRoundTrip(item, MembersTag);
    HasMembersAreReferences(item, MembersTag, m);
  }
}
