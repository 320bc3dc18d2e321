// The OWL classes the deprecation scripts edit (src/ontology/util_taxon_conversion.py,
// src/ontology/taxon_transform.py): each owl:Class of an ontology as a record of
// its rdf:about and its children, and the ElementTree `find` and `remove` the
// scripts use on those children.
module OwlClasses {
  import opened Wrappers

  /** The 'in taxon' relation. */
  const InTaxon := "http://purl.obolibrary.org/obo/RO_0002162"

  /** An owl:Restriction: the rdf:resource of each of its owl:onProperty children and
      of each of its owl:someValuesFrom children (None for a child without one). */
  datatype Restriction = Restriction(onProperties: seq<Option<string>>, someValuesFrom: seq<Option<string>>)

  /** An rdfs:subClassOf child. `node` is the element's identity in the parsed tree,
      which `remove` goes by. */
  datatype SubClass = SubClass(node: nat, resource: Option<string>, restrictions: seq<Restriction>)

  /** The three kinds of alternative names: oboInOwl:hasSynonym,
      oboInOwl:hasExactSynonym and obo:IAO_0000118. */
  datatype SynonymKind = HasSynonym | HasExactSynonym | AlternativeTerm

  /** A child of an owl:Class. The text of a label or synonym is None for an empty
      element, as ElementTree's `.text` is. A synonym the scripts create carries its
      tag as the literal text "obo:IAO_0000118" rather than in namespace form, so
      ElementTree's namespaced queries do not find it: it is not `parsed`. */
  datatype Child =
    | SubClassOf(sc: SubClass)
    | Label(lang: Option<string>, text: Option<string>)
    | Synonym(kind: SynonymKind, content: Option<string>, parsed: bool)
    | DbXref(resource: Option<string>)
    | Other(name: string)

  /** An owl:Class: its parsed rdf:about, the literal `rdf:about` attribute the
      scripts set in its place, and its children in document order. */
  datatype OwlClass = OwlClass(about: Option<string>, aboutWritten: Option<string>, children: seq<Child>)

  /** A deprecation record: an owl:Class about the old IRI with owl:deprecated
      "true", the label "obsolete: " and the old label, and IAO_0100001 ("term
      replaced by") pointing at the taxon; `title` is that label. */
  datatype Obsolete = Obsolete(about: string, title: string, replacedBy: string)

  /** A script's progress through one class: the class as edited so far, the
      deprecation records made so far, the count of conversions, and the error that
      stopped the script. */
  datatype Pass = Pass(cls: OwlClass, obsoletes: seq<Obsolete>, count: nat, failure: Option<string>)

  /** A run of a script over every class: the classes as they end up, the
      deprecation records, the count and the error that stopped it. */
  datatype Run = Run(classes: seq<OwlClass>, obsoletes: seq<Obsolete>, count: nat, failure: Option<string>)

  /** `remove` of an element that is not a child. */
  const NotAChild := "ValueError: list.remove(x): x not in list"

  /** The query a script runs over the children of a class. */
  datatype Probe = EnLabel | XrefTo(iri: string) | Node(node: nat)

  predicate Matches(c: Child, p: Probe) {
    match p
    case EnLabel => c.Label? && c.lang == Some("en")
    case XrefTo(iri) => c.DbXref? && c.resource == Some(iri)
    case Node(n) => c.SubClassOf? && c.sc.node == n
  }

  /** `find`: the position of the first child the query matches. */
  function FindChild(children: seq<Child>, p: Probe): (r: Option<nat>)
    ensures r.Some? ==> r.value < |children| && Matches(children[r.value], p)
                        && forall j :: 0 <= j < r.value ==> !Matches(children[j], p)
    ensures r.None? ==> forall j :: 0 <= j < |children| ==> !Matches(children[j], p)
  {
    if children == [] then None
    else if Matches(children[0], p) then Some(0)
    else match FindChild(children[1..], p)
      case None => None
      case Some(i) => Some(i + 1)
  }

  /** `remove` of the child at position i. */
  function RemoveAt<T>(s: seq<T>, i: nat): (r: seq<T>)
    requires i < |s|
    ensures |r| == |s| - 1
  {
    s[..i] + s[i + 1..]
  }

  /** Removing a child takes one occurrence of it away and nothing else. */
  lemma RemoveAtCounts<T>(s: seq<T>, i: nat)
    requires i < |s|
    ensures multiset(RemoveAt(s, i)) + multiset{s[i]} == multiset(s)
  {
    assert s == s[..i] + [s[i]] + s[i + 1..];
  }

  /** The `.text` of the first English label: None when there is no such label, and
      Some(None) when that label is empty. */
  function LabelText(children: seq<Child>): (r: Option<Option<string>>)
    ensures r.Some? <==> FindChild(children, EnLabel).Some?
    ensures r.Some? ==> Label(Some("en"), r.value) in children
  {
    match FindChild(children, EnLabel)
    case None => None
    case Some(i) => Some(children[i].text)
  }

  /** The first English label of two runs of children: the first run's, if it has
      one. */
  lemma {:induction false} LabelTextConcat(a: seq<Child>, b: seq<Child>)
    ensures LabelText(a + b) == if LabelText(a).Some? then LabelText(a) else LabelText(b)
  {
    if a != [] {
      LabelTextConcat(a[1..], b);
      assert (a + b)[1..] == a[1..] + b;
    } else {
      assert a + b == b;
    }
  }

  /** The alternative term a script makes from a label: an IAO_0000118 whose tag
      is written literally, so it is not `parsed`. */
  function MadeAltTerm(text: Option<string>): Child {
    Synonym(AlternativeTerm, text, false)
  }

  /** The first English label replaced by an alternative term with its text, which
      goes at the end of the children. */
  function Relabelled(children: seq<Child>): seq<Child> {
    match FindChild(children, EnLabel)
    case None => children
    case Some(i) => RemoveAt(children + [MadeAltTerm(children[i].text)], i)
  }

  lemma RelabelledCounts(children: seq<Child>)
    ensures LabelText(children).None? ==> Relabelled(children) == children
    ensures LabelText(children).Some? ==>
              multiset(Relabelled(children)) + multiset{Label(Some("en"), LabelText(children).value)}
              == multiset(children) + multiset{MadeAltTerm(LabelText(children).value)}
  {
    match FindChild(children, EnLabel)
    case None =>
    case Some(i) =>
      var alt := MadeAltTerm(children[i].text);
      assert (children + [alt])[i] == children[i];
      RemoveAtCounts(children + [alt], i);
  }

  /** Without the first xref to the taxon, when there is one. */
  function WithoutXref(children: seq<Child>, taxon: string): seq<Child> {
    match FindChild(children, XrefTo(taxon))
    case None => children
    case Some(x) => RemoveAt(children, x)
  }

  lemma WithoutXrefCounts(children: seq<Child>, taxon: string)
    ensures multiset(WithoutXref(children, taxon)) <= multiset(children)
    ensures multiset(children) - multiset(WithoutXref(children, taxon)) <= multiset{DbXref(Some(taxon))}
  {
    match FindChild(children, XrefTo(taxon))
    case None =>
    case Some(x) =>
      RemoveAtCounts(children, x);
  }

  /** Removing an xref keeps the first English label. */
  lemma WithoutXrefKeepsLabel(children: seq<Child>, taxon: string)
    ensures LabelText(WithoutXref(children, taxon)) == LabelText(children)
  {
    match FindChild(children, XrefTo(taxon))
    case None =>
    case Some(x) =>
      var a, b := children[..x], children[x + 1..];
      assert children == a + ([children[x]] + b);
      LabelTextConcat(a, [children[x]] + b);
      LabelTextConcat([children[x]], b);
      LabelTextConcat(a, b);
  }

  /** `remove` of a subClassOf element: its first child with that identity is taken
      away; None when it is no longer a child (a ValueError). */
  function WithoutNode(children: seq<Child>, node: nat): (r: Option<seq<Child>>)
  {
    match FindChild(children, Node(node))
    case None => None
    case Some(k) => Some(RemoveAt(children, k))
  }

  lemma WithoutNodeCounts(children: seq<Child>, node: nat)
    ensures WithoutNode(children, node).Some? ==>
              exists s: SubClass :: s.node == node && multiset(WithoutNode(children, node).value) + multiset{SubClassOf(s)} == multiset(children)
  {
    match FindChild(children, Node(node))
    case None =>
    case Some(k) =>
      RemoveAtCounts(children, k);
      assert children[k] == SubClassOf(children[k].sc);
  }

  /** `findall('rdfs:subClassOf')`: the subClassOf children in order. */
  function SubClassesOf(children: seq<Child>): (r: seq<SubClass>)
    ensures forall sc :: sc in r <==> SubClassOf(sc) in children
  {
    if children == [] then []
    else (if children[0].SubClassOf? then [children[0].sc] else []) + SubClassesOf(children[1..])
  }

  /** The restriction has an owl:onProperty 'in taxon'. */
  predicate InTaxonRestriction(r: Restriction) {
    Some(InTaxon) in r.onProperties
  }

  /** `find('owl:someValuesFrom[@rdf:resource]')`: the first resource the restriction
      names. */
  function FirstResource(values: seq<Option<string>>): (r: Option<string>)
    ensures r.Some? <==> exists k :: 0 <= k < |values| && values[k].Some?
    ensures r.Some? ==> r in values
  {
    if values == [] then None
    else if values[0].Some? then values[0]
    else FirstResource(values[1..])
  }

  /** The children after a conversion to a taxon: with the English label and one subClassOf
      element taken away, at most one xref to the taxon taken away, and the
      alternative term added. */
  ghost predicate ChildrenConverted(before: seq<Child>, after: seq<Child>, text: Option<string>, taxon: string, node: nat) {
    exists s: SubClass, xref: multiset<Child> ::
      s.node == node && xref <= multiset{DbXref(Some(taxon))}
      && multiset(after) + multiset{Label(Some("en"), text), SubClassOf(s)} + xref
         == multiset(before) + multiset{MadeAltTerm(text)}
  }

  /** The multiset bookkeeping of three removals and an addition. */
  lemma CountsChain<T>(m0: multiset<T>, m1: multiset<T>, m2: multiset<T>, m3: multiset<T>, l: T, a: T, s: T, x: multiset<T>)
    requires m1 + multiset{l} == m0 + multiset{a}
    requires m2 + x == m1
    requires m3 + multiset{s} == m2
    ensures m3 + multiset{l, s} + x == m0 + multiset{a}
  {
    calc {
      m3 + multiset{l, s} + x;
      (m3 + multiset{s}) + x + multiset{l};
      m1 + multiset{l};
    }
  }
}
