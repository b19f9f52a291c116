/** What the three CWE scripts share: the catalogue's XML namespace, the
    composition of identifiers and quoted names, and the collection of
    `Has_Member` references under a container element (used for Views and
    Categories). */
module Cwe {
  import opened Seqs
  import opened Text
  import opened Xml

  // The qualified tags of the catalogue elements the scripts visit, in
  // ElementTree's `{namespace-uri}local-name` form.
  const CweNamespace: string := "http://cwe.mitre.org/cwe-6"
  const WeaknessTag: QName := QName(CweNamespace, "Weakness")
  const ViewTag: QName := QName(CweNamespace, "View")
  const CategoryTag: QName := QName(CweNamespace, "Category")
  const DescriptionTag: QName := QName(CweNamespace, "Description")
  const ExtendedDescriptionTag: QName := QName(CweNamespace, "Extended_Description")
  const RelatedWeaknessTag: QName := QName(CweNamespace, "Related_Weakness")
  const LanguageTag: QName := QName(CweNamespace, "Language")
  const TechnologyTag: QName := QName(CweNamespace, "Technology")
  const LikelihoodTag: QName := QName(CweNamespace, "Likelihood_Of_Exploit")
  const CommonConsequencesTag: QName := QName(CweNamespace, "Common_Consequences")
  const ConsequenceTag: QName := QName(CweNamespace, "Consequence")
  const ScopeTag: QName := QName(CweNamespace, "Scope")
  const ObservedExamplesTag: QName := QName(CweNamespace, "Observed_Examples")
  const ObservedExampleTag: QName := QName(CweNamespace, "Observed_Example")
  const ReferenceTag: QName := QName(CweNamespace, "Reference")
  const MembersTag: QName := QName(CweNamespace, "Members")
  const RelationshipsTag: QName := QName(CweNamespace, "Relationships")
  const HasMemberTag: QName := QName(CweNamespace, "Has_Member")

  const CweIdAttribute: string := "CWE_ID"

  /** `'CWE-' + id`. */
  function CweId(id: string): string
  {
    "CWE-" + id
  }

  /** `'"' + name + '"'`. */
  function Quoted(name: string): string
  {
    "\"" + name + "\""
  }

  /** The identifier is the attribute behind a fixed four-character prefix:
      stripping `CWE-` gives the attribute back, so different attributes give
      different identifiers. */
  lemma CweIdRecoversAttribute(id: string)
    ensures |CweId(id)| == |id| + 4 && CweId(id)[..4] == "CWE-" && CweId(id)[4..] == id
  {
  }

  /** The quoted name is the attribute between two double quotes. */
  lemma QuotedRecoversName(name: string)
    ensures var q := Quoted(name);
      |q| == |name| + 2 && q[0] == '"' && q[|q| - 1] == '"' && q[1..|q| - 1] == name
  {
  }

  /** One `Has_Member` reference, `'CWE-' + j.attrib['CWE_ID']`. */
  function MemberId(j: Element): string
  {
    CweId(Attr(j, CweIdAttribute))
  }

  /** The references under one container: `Has_Member` elements of its subtree. */
  function MemberIdsIn(container: Element): seq<string>
  {
    Map(MemberId, Iter(container, HasMemberTag))
  }

  /** All references collected by
      `for i in item.iter(container): for j in i.iter('Has_Member')`. */
  function HasMembers(item: Element, containerTag: QName): seq<string>
  {
    FlatMap(MemberIdsIn, Iter(item, containerTag))
  }

  /** Every `Has_Member` under `container` has a `CWE_ID`. */
  predicate ContainerHasIds(container: Element)
  {
    AllHave(Iter(container, HasMemberTag), {CweIdAttribute})
  }

  /** Every `Has_Member` reached by that nested loop has a `CWE_ID`. */
  predicate MembersHaveIds(item: Element, containerTag: QName)
  {
    All(ContainerHasIds, Iter(item, containerTag))
  }

  /** The nested loop of the View and Category scripts: appends one
      reference per `Has_Member` under each container, in document order,
      without removing duplicates. */
  method CollectHasMembers(item: Element, containerTag: QName) returns (hasmember: seq<string>)
    requires MembersHaveIds(item, containerTag)
    ensures hasmember == HasMembers(item, containerTag)
  {
    hasmember := [];
    var containers := Iter(item, containerTag);
    for a := 0 to |containers|
      invariant hasmember == FlatMap(MemberIdsIn, containers[..a])
    {
      AllAt(ContainerHasIds, containers, a);
      var members := Iter(containers[a], HasMemberTag);
      hasmember := AppendMemberIds(hasmember, members);
      FlatMapSnoc(MemberIdsIn, containers, a);
    }
    assert containers[..|containers|] == containers;
  }

  /** The inner loop `for j in i.iter('Has_Member')`, over the `Has_Member`
      elements `members` of one container. */
  method AppendMemberIds(acc: seq<string>, members: seq<Element>) returns (hasmember: seq<string>)
    requires AllHave(members, {CweIdAttribute})
    ensures hasmember == acc + Map(MemberId, members)
  {
    hasmember := acc;
    for b := 0 to |members|
      invariant hasmember == acc + Map(MemberId, members[..b])
    {
      var j := members[b];
      MapSnoc(MemberId, members, b);
      hasmember := hasmember + ["CWE-" + j.attrib[CweIdAttribute]];
    }
    assert members[..|members|] == members;
  }

  /** The `a`-th container of `item` has at least `b + 1` Has_Member elements. */
  predicate IsReferenceAt(item: Element, containerTag: QName, a: int, b: int)
  {
    0 <= a < |Iter(item, containerTag)| && 0 <= b < |Iter(Iter(item, containerTag)[a], HasMemberTag)|
  }

  /** `m` is the reference made by the `b`-th `Has_Member` of the `a`-th
      container of `item`. */
  ghost predicate IsReference(item: Element, containerTag: QName, m: string, a: int, b: int)
  {
    IsReferenceAt(item, containerTag, a, b) &&
    m == CweId(Attr(Iter(Iter(item, containerTag)[a], HasMemberTag)[b], CweIdAttribute))
  }

  /** Every collected reference is `CWE-` followed by the `CWE_ID` of a
      `Has_Member` element inside one of the containers, and every such
      element contributes its reference. */
  lemma HasMembersAreReferences(item: Element, containerTag: QName, m: string)
    ensures m in HasMembers(item, containerTag) <==> exists a, b :: IsReference(item, containerTag, m, a, b)
  {
    var containers := Iter(item, containerTag);
    FlatMapMembership(MemberIdsIn, containers, m);
    if m in HasMembers(item, containerTag) {
      var a :| 0 <= a < |containers| && m in MemberIdsIn(containers[a]);
      var members := Iter(containers[a], HasMemberTag);
      var b :| 0 <= b < |members| && MemberIdsIn(containers[a])[b] == m;
      assert IsReference(item, containerTag, m, a, b);
    }
    if exists a, b :: IsReference(item, containerTag, m, a, b) {
      var a, b :| IsReference(item, containerTag, m, a, b);
      assert MemberIdsIn(containers[a])[b] == m;
    }
  }

  /** Splitting the Has_Member cell on `;` gives back the collected references
      when there is at least one; with none the cell is `''`. */
  lemma HasMemberCellRoundTrip(item: Element, containerTag: QName)
    requires forall a, b :: IsReferenceAt(item, containerTag, a, b) ==>
      ';' !in Attr(Iter(Iter(item, containerTag)[a], HasMemberTag)[b], CweIdAttribute)
    ensures HasMembers(item, containerTag) == [] ==> Join(HasMembers(item, containerTag), ';') == ""
    ensures HasMembers(item, containerTag) != [] ==>
      Split(Join(HasMembers(item, containerTag), ';'), ';') == HasMembers(item, containerTag)
  {
    var ms := HasMembers(item, containerTag);
    forall i | 0 <= i < |ms|
      ensures ';' !in ms[i]
    {
      HasMembersAreReferences(item, containerTag, ms[i]);
      var a, b :| IsReference(item, containerTag, ms[i], a, b);
      assert IsReferenceAt(item, containerTag, a, b);
    }
    if ms != [] {
      SplitJoin(ms, ';');
    }
  }
}
