/** The Category table of the CWE catalogue: one row per Category whose
    Status is not marked `Deprecated`, listing the CWE identifiers of the
    Has_Member elements under its Relationships. */
module CweCategoryProcess {
  import opened Seqs
  import opened Text
  import opened Xml
  import opened Cwe

  const Columns: seq<string> := ["ID", "Name", "Status", "Has_Member"]

  datatype CategoryRow = CategoryRow(id: string, name: string, status: string, hasMember: string)

  /** The record appended for a row: a dictionary keyed by the column names. */
  function AsRecord(row: CategoryRow): (m: map<string, string>)
    ensures m.Keys == set c | c in Columns
  {
    map["ID" := row.id, "Name" := row.name, "Status" := row.status, "Has_Member" := row.hasMember]
  }

  /** The skip rule: the Status attribute contains `Deprecated` (case-sensitive). */
  predicate Kept(item: Element)
  {
    !Contains(Attr(item, "Status"), "Deprecated")
  }

  function ProjectCategory(item: Element): CategoryRow
  {
    CategoryRow(
      CweId(Attr(item, "ID")),
      Quoted(Attr(item, "Name")),
      Attr(item, "Status"),
      Join(HasMembers(item, RelationshipsTag), ';'))
  }

  /** The table: one row per kept Category of the catalogue, in document order. */
  function CategoryRows(root: Element): seq<CategoryRow>
  {
    Map(ProjectCategory, Filter(Kept, Iter(root, CategoryTag)))
  }

  /** The attributes the script indexes directly are present. */
  predicate CategoryShape(item: Element)
  {
    {"ID", "Name", "Status"} <= item.attrib.Keys && MembersHaveIds(item, RelationshipsTag)
  }

  /** The loop over all Category elements, skipping deprecated ones. */
  method ProcessCategories(root: Element) returns (rows: seq<CategoryRow>)
    requires All(CategoryShape, Iter(root, CategoryTag))
    ensures rows == CategoryRows(root)
  {
    rows := ProcessCategoryList(Iter(root, CategoryTag));
  }

  /** `for item in root.iter('Category')`, over the sequence the iterator yields. */
  method ProcessCategoryList(items: seq<Element>) returns (rows: seq<CategoryRow>)
    requires All(CategoryShape, items)
    ensures rows == Map(ProjectCategory, Filter(Kept, items))
  {
    rows := [];
    for k := 0 to |items|
      invariant rows == Map(ProjectCategory, Filter(Kept, items[..k]))
    {
      var item := items[k];
      AllAt(CategoryShape, items, k);
      FilterMapSnoc(ProjectCategory, Kept, items, k);
      if Contains(item.attrib["Status"], "Deprecated") {
        continue;
      }
      var row := ProcessCategory(item);
      rows := rows + [row];
    }
    assert items[..|items|] == items;
  }

  /** The body of that loop for one kept Category. */
  method ProcessCategory(item: Element) returns (row: CategoryRow)
    requires CategoryShape(item)
    ensures row == ProjectCategory(item)
  {
    var cid := "CWE-" + item.attrib["ID"];
    var name := "\"" + item.attrib["Name"] + "\"";
    var status := item.attrib["Status"];
    var hasmember := CollectHasMembers(item, RelationshipsTag);
    row := CategoryRow(cid, name, status, Join(hasmember, ';'));
  }

  /** Every kept Category produces its row, and no row's Status contains
      `Deprecated`. */
  lemma RowsOfKeptCategories(root: Element)
    ensures forall k :: 0 <= k < |Iter(root, CategoryTag)| && Kept(Iter(root, CategoryTag)[k]) ==>
      ProjectCategory(Iter(root, CategoryTag)[k]) in CategoryRows(root)
    ensures forall i :: 0 <= i < |CategoryRows(root)| ==> !Contains(CategoryRows(root)[i].status, "Deprecated")
  {
    var items := Iter(root, CategoryTag);
    FilterMembers(Kept, items);
    MapFilterMembers(ProjectCategory, Kept, items);
  }

  /** The cells of a Category's row read back as its attributes: ID after
      the `CWE-` prefix, Name between the quotes, Status verbatim. */
  lemma CellsRecoverAttributes(item: Element)
    ensures ProjectCategory(item).id[..4] == "CWE-" && ProjectCategory(item).id[4..] == Attr(item, "ID")
    ensures |ProjectCategory(item).name| == |Attr(item, "Name")| + 2
    ensures ProjectCategory(item).name[1..|ProjectCategory(item).name| - 1] == Attr(item, "Name")
    ensures ProjectCategory(item).status == Attr(item, "Status")
  {
    CweIdRecoversAttribute(Attr(item, "ID"));
    QuotedRecoversName(Attr(item, "Name"));
  }

  /** The Has_Member cell splits on `;` into one `CWE-` reference per
      Has_Member under a Relationships element, in document order, duplicates
      kept; it is `''` when there is none. */
  lemma HasMemberCell(item: Element, m: string)
    requires forall a, b :: IsReferenceAt(item, RelationshipsTag, a, b) ==>
      ';' !in Attr(Iter(Iter(item, RelationshipsTag)[a], HasMemberTag)[b], CweIdAttribute)
    ensures HasMembers(item, RelationshipsTag) == [] ==> ProjectCategory(item).hasMember == ""
    ensures HasMembers(item, RelationshipsTag) != [] ==>
      Split(ProjectCategory(item).hasMember, ';') == HasMembers(item, RelationshipsTag)
    ensures m in HasMembers(item, RelationshipsTag) <==> exists a, b :: IsReference(item, RelationshipsTag, m, a, b)
  {
    HasMemberCellRoundTrip(item, RelationshipsTag);
    HasMembersAreReferences(item, RelationshipsTag, m);
  }
}
