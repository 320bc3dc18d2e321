// Converting FoodOn organism classes to NCBITaxon classes
// (src/ontology/util_taxon_conversion.py): a FoodOn class without subclasses that
// says it is 'in taxon' some taxon becomes a class about that taxon, its label
// becomes an alternative term, and a deprecation record for the old IRI is added
// to the deprecations file. A second pass removes synonyms that repeat their
// class's enLabel. The classes of the ontology are an array edited in place; the
// deprecation records appended to the deprecations file are returned.
module TaxonConversion {
  import opened Wrappers
  import opened PyStr
  import opened OwlClasses

  /** `deprecate_term` of a class without an English enLabel. */
  const LabelMissing := "AttributeError: 'NoneType' object has no attribute 'text'"
  /** The "consumer" test on an empty English enLabel. */
  const FindOnEmpty := "AttributeError: 'NoneType' object has no attribute 'find'"
  /** The second pass on a class whose English enLabel is empty. */
  const LowerOnEmpty := "AttributeError: 'NoneType' object has no attribute 'lower'"

  // ---------------------------------------------------------------------
  // The index of classes with subclasses

  /** The rdf:resource of every subClassOf child of a class. */
  function ResourcesOf(children: seq<Child>): set<string> {
    set c | c in children && c.SubClassOf? && c.sc.resource.Some? :: c.sc.resource.value
  }

  /** `rdf_resource_lookup`: every IRI some class names as its direct superclass, that
      is, every class that is not a leaf. */
  function Parents(classes: seq<OwlClass>): set<string> {
    if classes == [] then {}
    else Parents(classes[..|classes| - 1]) + ResourcesOf(classes[|classes| - 1].children)
  }

  /** An IRI is in the index exactly when some class has a subClassOf child naming
      it. */
  lemma {:induction false} ParentsNamed(classes: seq<OwlClass>, iri: string)
    ensures iri in Parents(classes) <==>
              exists i, c :: 0 <= i < |classes| && c in classes[i].children && c.SubClassOf? && c.sc.resource == Some(iri)
  {
    if classes != [] {
      var init := classes[..|classes| - 1];
      ParentsNamed(init, iri);
      assert forall i :: 0 <= i < |init| ==> init[i] == classes[i];
      if exists i, c :: 0 <= i < |classes| && c in classes[i].children && c.SubClassOf? && c.sc.resource == Some(iri) {
        var i, c :| 0 <= i < |classes| && c in classes[i].children && c.SubClassOf? && c.sc.resource == Some(iri);
        if i < |init| {
          assert c in init[i].children;
        } else {
          assert iri in ResourcesOf(classes[|classes| - 1].children);
        }
      }
    }
  }

  /** `Parents` computed by the loop of the script. */
  method BuildParents(classes: array<OwlClass>) returns (parents: set<string>)
    ensures parents == Parents(classes[..])
  {
    parents := {};
    for i := 0 to classes.Length
      invariant parents == Parents(classes[..i])
    {
      assert classes[..i + 1][..i] == classes[..i];
      parents := parents + ResourcesOf(classes[i].children);
    }
    assert classes[..classes.Length] == classes[..];
  }

  // ---------------------------------------------------------------------
  // The conversion, as a value

  /** One owl:Restriction of one subClassOf of a class about `about`: an 'in taxon'
      restriction naming a taxon converts the class unless its English label
      mentions "consumer"; an empty English enLabel stops the script on that test. */
  function RestrictionStep(p: Pass, about: string, sc: SubClass, rs: Restriction): Pass {
    if p.failure.Some? || !InTaxonRestriction(rs) || FirstResource(rs.someValuesFrom).None? then p
    else
      var enLabel := LabelText(p.cls.children);
      if enLabel == Some(None) then p.(failure := Some(FindOnEmpty))
      else if enLabel.Some? && Contains(enLabel.value.value, "consumer") then p
      else Converted(p, about, sc, FirstResource(rs.someValuesFrom).value, if enLabel.Some? then enLabel.value else None)
  }

  /** The conversion, in the order of the script: the enLabel becomes an alternative
      term, the xref to the taxon goes, rdf:about becomes the taxon, the subClassOf
      goes, and the deprecation record is made from the label, which must exist. */
  function Converted(p: Pass, about: string, sc: SubClass, taxon: string, text: Option<string>): Pass {
    var ch := WithoutXref(Relabelled(p.cls.children), taxon);
    var cls := OwlClass(None, Some(taxon), ch);
    match WithoutNode(ch, sc.node)
    case None => p.(cls := cls, failure := Some(NotAChild))
    case Some(rest) =>
      if text.None? then p.(cls := cls.(children := rest), failure := Some(LabelMissing))
      else Pass(cls.(children := rest), p.obsoletes + [Obsolete(about, "obsolete: " + text.value, taxon)], p.count + 1, None)
  }

  /** The restrictions of one subClassOf, in order. */
  function RestrictionSteps(p: Pass, about: string, sc: SubClass, rs: seq<Restriction>): Pass {
    if rs == [] then p
    else RestrictionStep(RestrictionSteps(p, about, sc, rs[..|rs| - 1]), about, sc, rs[|rs| - 1])
  }

  /** The subClassOf children found before the first change, in order. */
  function SubClassSteps(p: Pass, about: string, scs: seq<SubClass>): Pass {
    if scs == [] then p
    else
      var sc := scs[|scs| - 1];
      RestrictionSteps(SubClassSteps(p, about, scs[..|scs| - 1]), about, sc, sc.restrictions)
  }

  /** A class is a candidate when its rdf:about names a FoodOn term that is a leaf. */
  predicate Candidate(cls: OwlClass, parents: set<string>) {
    cls.about.Some? && Contains(cls.about.value, "FOODON_") && cls.about.value !in parents
  }

  /** One class of the ontology. */
  function ConvertClass(p: Pass, parents: set<string>): Pass {
    if !Candidate(p.cls, parents) then p
    else SubClassSteps(p, p.cls.about.value, SubClassesOf(p.cls.children))
  }

  /** The first pass over the classes of the ontology: the classes as they end up,
      the deprecation records, the count and the error that stopped it. Classes after
      an error keep their state. */
  function ConvertAll(classes: seq<OwlClass>, parents: set<string>): (r: Run)
    ensures |r.classes| == |classes|
  {
    if classes == [] then Run([], [], 0, None)
    else
      var r := ConvertAll(classes[..|classes| - 1], parents);
      var last := classes[|classes| - 1];
      if r.failure.Some? then r.(classes := r.classes + [last])
      else
        var p := ConvertClass(Pass(last, r.obsoletes, r.count, None), parents);
        Run(r.classes + [p.cls], p.obsoletes, p.count, p.failure)
  }

  // ---------------------------------------------------------------------
  // Properties of the conversion

  /** Steps that each leave a class alone leave it alone together. */
  lemma {:induction false} RestrictionStepsKeep(p: Pass, about: string, sc: SubClass, rs: seq<Restriction>)
    requires forall k :: 0 <= k < |rs| ==> RestrictionStep(p, about, sc, rs[k]) == p
    ensures RestrictionSteps(p, about, sc, rs) == p
  {
    if rs != [] {
      RestrictionStepsKeep(p, about, sc, rs[..|rs| - 1]);
    }
  }

  lemma {:induction false} SubClassStepsKeep(p: Pass, about: string, scs: seq<SubClass>)
    requires forall j, k :: 0 <= j < |scs| && 0 <= k < |scs[j].restrictions| ==>
               RestrictionStep(p, about, scs[j], scs[j].restrictions[k]) == p
    ensures SubClassSteps(p, about, scs) == p
  {
    if scs != [] {
      SubClassStepsKeep(p, about, scs[..|scs| - 1]);
      var sc := scs[|scs| - 1];
      assert forall k :: 0 <= k < |sc.restrictions| ==> RestrictionStep(p, about, sc, sc.restrictions[k]) == p;
      RestrictionStepsKeep(p, about, sc, sc.restrictions);
    }
  }

  /** A class is converted only when it is a FoodOn leaf, its first English enLabel does
      not mention "consumer", and one of its subClassOf restrictions is 'in taxon' some
      named taxon. */
  lemma ConvertedOnly(p: Pass, parents: set<string>)
    requires p.failure.None?
    ensures !Candidate(p.cls, parents) ==> ConvertClass(p, parents) == p
    ensures var enLabel := LabelText(p.cls.children);
            enLabel.Some? && enLabel.value.Some? && Contains(enLabel.value.value, "consumer") ==> ConvertClass(p, parents) == p
    ensures (forall sc, rs :: sc in SubClassesOf(p.cls.children) && rs in sc.restrictions ==>
               !InTaxonRestriction(rs) || FirstResource(rs.someValuesFrom).None?)
            ==> ConvertClass(p, parents) == p
  {
    if Candidate(p.cls, parents) {
      var scs := SubClassesOf(p.cls.children);
      var enLabel := LabelText(p.cls.children);
      if (enLabel.Some? && enLabel.value.Some? && Contains(enLabel.value.value, "consumer"))
         || (forall sc, rs :: sc in scs && rs in sc.restrictions ==> !InTaxonRestriction(rs) || FirstResource(rs.someValuesFrom).None?) {
        forall j, k | 0 <= j < |scs| && 0 <= k < |scs[j].restrictions|
          ensures RestrictionStep(p, p.cls.about.value, scs[j], scs[j].restrictions[k]) == p
        {
          assert scs[j] in scs && scs[j].restrictions[k] in scs[j].restrictions;
        }
        SubClassStepsKeep(p, p.cls.about.value, scs);
      }
    }
  }

  /** A conversion step: the first English enLabel becomes a (script-made)
      IAO_0000118 with the same text, the first xref to the taxon goes, the
      subClassOf goes, rdf:about becomes the taxon, and exactly one deprecation record
      for the old IRI is added. */
  lemma ConversionStep(p: Pass, about: string, sc: SubClass, rs: Restriction)
    requires p.failure.None? && RestrictionStep(p, about, sc, rs).count != p.count
    ensures var q := RestrictionStep(p, about, sc, rs);
            var enLabel := LabelText(p.cls.children);
            var taxon := FirstResource(rs.someValuesFrom);
            InTaxonRestriction(rs) && taxon.Some? && enLabel.Some? && enLabel.value.Some?
            && !Contains(enLabel.value.value, "consumer")
            && q.failure.None? && q.count == p.count + 1
            && q.obsoletes == p.obsoletes + [Obsolete(about, "obsolete: " + enLabel.value.value, taxon.value)]
            && q.cls.about == None && q.cls.aboutWritten == taxon
            && ChildrenConverted(p.cls.children, q.cls.children, enLabel.value, taxon.value, sc.node)
  {
    var taxon := FirstResource(rs.someValuesFrom).value;
    var enLabel := LabelText(p.cls.children);
    var rest := WithoutNode(WithoutXref(Relabelled(p.cls.children), taxon), sc.node);
    assert rest.Some? && enLabel.Some? && enLabel.value.Some?;
    ConvertedChildren(p.cls.children, enLabel.value, taxon, sc.node);
  }

  /** An empty English enLabel stops the script at the "consumer" test of an 'in taxon'
      restriction naming a taxon, before the class is edited. */
  lemma EmptyLabelStops(p: Pass, about: string, sc: SubClass, rs: Restriction)
    requires p.failure.None? && InTaxonRestriction(rs) && FirstResource(rs.someValuesFrom).Some?
    requires LabelText(p.cls.children) == Some(None)
    ensures RestrictionStep(p, about, sc, rs) == p.(failure := Some(FindOnEmpty))
  {
  }

  lemma ConvertedChildren(children: seq<Child>, text: Option<string>, taxon: string, node: nat)
    requires LabelText(children) == Some(text)
    requires WithoutNode(WithoutXref(Relabelled(children), taxon), node).Some?
    ensures ChildrenConverted(children, WithoutNode(WithoutXref(Relabelled(children), taxon), node).value, text, taxon, node)
  {
    var ch1 := Relabelled(children);
    RelabelledCounts(children);
    var ch2 := WithoutXref(ch1, taxon);
    WithoutXrefCounts(ch1, taxon);
    var xref := multiset(ch1) - multiset(ch2);
    assert multiset(ch2) + xref == multiset(ch1);
    WithoutNodeCounts(ch2, node);
    var rest := WithoutNode(ch2, node).value;
    var s: SubClass :| s.node == node && multiset(rest) + multiset{SubClassOf(s)} == multiset(ch2);
    CountsChain(multiset(children), multiset(ch1), multiset(ch2), multiset(rest),
                Label(Some("en"), text), MadeAltTerm(text), SubClassOf(s), xref);
  }

  /** Each step adds as many deprecation records as it counts conversions, at most
      one, and keeps the ones made before. */
  lemma StepRecords(p: Pass, about: string, sc: SubClass, rs: Restriction)
    ensures var q := RestrictionStep(p, about, sc, rs);
            q.count <= p.count + 1 && |q.obsoletes| - |p.obsoletes| == q.count - p.count
            && q.obsoletes[..|p.obsoletes|] == p.obsoletes
  {
  }

  lemma {:induction false} StepsRecords(p: Pass, about: string, sc: SubClass, rs: seq<Restriction>)
    ensures var q := RestrictionSteps(p, about, sc, rs);
            q.count >= p.count && |q.obsoletes| - |p.obsoletes| == q.count - p.count
            && q.obsoletes[..|p.obsoletes|] == p.obsoletes
  {
    if rs != [] {
      var q0 := RestrictionSteps(p, about, sc, rs[..|rs| - 1]);
      StepsRecords(p, about, sc, rs[..|rs| - 1]);
      StepRecords(q0, about, sc, rs[|rs| - 1]);
      var q := RestrictionSteps(p, about, sc, rs);
      assert q.obsoletes[..|q0.obsoletes|][..|p.obsoletes|] == q.obsoletes[..|p.obsoletes|];
    }
  }

  lemma {:induction false} SubClassStepsRecords(p: Pass, about: string, scs: seq<SubClass>)
    ensures var q := SubClassSteps(p, about, scs);
            q.count >= p.count && |q.obsoletes| - |p.obsoletes| == q.count - p.count
            && q.obsoletes[..|p.obsoletes|] == p.obsoletes
  {
    if scs != [] {
      var q0 := SubClassSteps(p, about, scs[..|scs| - 1]);
      SubClassStepsRecords(p, about, scs[..|scs| - 1]);
      StepsRecords(q0, about, scs[|scs| - 1], scs[|scs| - 1].restrictions);
      var q := SubClassSteps(p, about, scs);
      assert q.obsoletes[..|q0.obsoletes|][..|p.obsoletes|] == q.obsoletes[..|p.obsoletes|];
    }
  }

  /** Over the whole first pass, one deprecation record per conversion. */
  lemma {:induction false} ConvertAllRecords(classes: seq<OwlClass>, parents: set<string>)
    ensures |ConvertAll(classes, parents).obsoletes| == ConvertAll(classes, parents).count
  {
    if classes != [] {
      var r := ConvertAll(classes[..|classes| - 1], parents);
      ConvertAllRecords(classes[..|classes| - 1], parents);
      if r.failure.None? {
        var p := Pass(classes[|classes| - 1], r.obsoletes, r.count, None);
        if Candidate(p.cls, parents) {
          SubClassStepsRecords(p, p.cls.about.value, SubClassesOf(p.cls.children));
        }
      }
    }
  }

  // ---------------------------------------------------------------------
  // The second pass

  /** A synonym the second pass removes: one found by its namespaced tag, with text,
      that equals the enLabel once both are lowercased. */
  predicate Repeats(c: Child, lowered: string) {
    c.Synonym? && c.parsed && c.content.Some? && c.content.value != "" && Lower(c.content.value) == lowered
  }

  /** The children without the synonyms that repeat `label`, in order. */
  function WithoutRepeats(children: seq<Child>, lowered: string): (r: seq<Child>)
  {
    if children == [] then []
    else WithoutRepeats(children[..|children| - 1], lowered)
         + (if Repeats(children[|children| - 1], lowered) then [] else [children[|children| - 1]])
  }

  /** The second pass on one class: with an English label, every synonym that repeats
      it (ignoring case) is removed; an empty English enLabel cannot be lowercased. */
  function Deduplicated(cls: OwlClass): Result<OwlClass> {
    match LabelText(cls.children)
    case None => Ok(cls)
    case Some(None) => Err(LowerOnEmpty)
    case Some(Some(text)) => Ok(cls.(children := WithoutRepeats(cls.children, Lower(text))))
  }

  /** A child is kept, as often as it occurs, exactly when it does not repeat the
      enLabel. */
  lemma {:induction false} WithoutRepeatsCounts(children: seq<Child>, lowered: string, c: Child)
    ensures multiset(WithoutRepeats(children, lowered))[c] == if Repeats(c, lowered) then 0 else multiset(children)[c]
  {
    if children != [] {
      var init := children[..|children| - 1];
      WithoutRepeatsCounts(init, lowered, c);
      assert children == init + [children[|children| - 1]];
    }
  }

  /** Removing repeats keeps the first English enLabel. */
  lemma {:induction false} WithoutRepeatsKeepsLabel(children: seq<Child>, lowered: string)
    ensures LabelText(WithoutRepeats(children, lowered)) == LabelText(children)
  {
    if children != [] {
      var init := children[..|children| - 1];
      var last := children[|children| - 1];
      var tail := if Repeats(last, lowered) then [] else [last];
      WithoutRepeatsKeepsLabel(init, lowered);
      LabelTextConcat(WithoutRepeats(init, lowered), tail);
      assert children == init + [last];
      LabelTextConcat(init, [last]);
      assert LabelText(tail) == LabelText([last]);
    }
  }

  /** The second pass on a class fails exactly when its English enLabel is empty;
      otherwise no synonym repeats the enLabel afterwards, and running it again changes
      nothing. */
  lemma Deduplicate(cls: OwlClass)
    ensures Deduplicated(cls).Err? <==> LabelText(cls.children) == Some(None)
    ensures Deduplicated(cls).Ok? ==>
              var d := Deduplicated(cls).value;
              (LabelText(cls.children).Some? ==>
                 forall c | c in d.children :: !Repeats(c, Lower(LabelText(cls.children).value.value)))
              && Deduplicated(d) == Deduplicated(cls)
  {
    match LabelText(cls.children)
    case None =>
    case Some(None) =>
    case Some(Some(text)) =>
      var lowered := Lower(text);
      var d := WithoutRepeats(cls.children, lowered);
      forall c | c in d ensures !Repeats(c, lowered) {
        WithoutRepeatsCounts(cls.children, lowered, c);
      }
      WithoutRepeatsKeepsLabel(cls.children, lowered);
      WithoutRepeatsAgain(d, lowered);
  }

  /** A sequence without repeats has none to remove. */
  lemma {:induction false} WithoutRepeatsAgain(children: seq<Child>, lowered: string)
    requires forall c | c in children :: !Repeats(c, lowered)
    ensures WithoutRepeats(children, lowered) == children
  {
    if children != [] {
      var init := children[..|children| - 1];
      WithoutRepeatsAgain(init, lowered);
      assert children == init + [children[|children| - 1]];
    }
  }

  // ---------------------------------------------------------------------
  // The script, in place

  /** The second pass over every class, in order: the classes as they end up and the
      error that stopped it. Classes after an error keep their state. */
  function DeduplicatedAll(classes: seq<OwlClass>): (r: (seq<OwlClass>, Option<string>))
    ensures |r.0| == |classes|
  {
    if classes == [] then ([], None)
    else
      var r := DeduplicatedAll(classes[..|classes| - 1]);
      var last := classes[|classes| - 1];
      if r.1.Some? then (r.0 + [last], r.1)
      else match Deduplicated(last)
        case Ok(cls) => (r.0 + [cls], None)
        case Err(reason) => (r.0 + [last], Some(reason))
  }

  /** The position of the first class whose English label is empty, or the number of
      classes when there is none. */
  function FirstEmptyLabel(classes: seq<OwlClass>): (n: nat)
    ensures n <= |classes|
    ensures forall i :: 0 <= i < n ==> LabelText(classes[i].children) != Some(None)
    ensures n < |classes| ==> LabelText(classes[n].children) == Some(None)
  {
    if classes == [] then 0
    else
      var init := classes[..|classes| - 1];
      var m := FirstEmptyLabel(init);
      assert forall i :: 0 <= i < |init| ==> init[i] == classes[i];
      if m < |init| || LabelText(classes[|classes| - 1].children) == Some(None) then m
      else |classes|
  }

  /** The second pass stops at the first class with an empty English label: the
      classes before it are de-duplicated and the rest keep their state. It succeeds
      exactly when there is no such class. */
  lemma DeduplicatedAllFails(classes: seq<OwlClass>)
    ensures var r, n := DeduplicatedAll(classes), FirstEmptyLabel(classes);
            r.1 == (if n < |classes| then Some(LowerOnEmpty) else None)
            && (forall i :: 0 <= i < n ==> Deduplicated(classes[i]) == Ok(r.0[i]))
            && r.0[n..] == classes[n..]
  {
    DeduplicatedAllFailure(classes);
    DeduplicatedAllBefore(classes);
    DeduplicatedAllAfter(classes);
  }

  lemma {:induction false} DeduplicatedAllFailure(classes: seq<OwlClass>)
    ensures DeduplicatedAll(classes).1 == if FirstEmptyLabel(classes) < |classes| then Some(LowerOnEmpty) else None
  {
    if classes != [] {
      var init, last := classes[..|classes| - 1], classes[|classes| - 1];
      DeduplicatedAllFailure(init);
      Deduplicate(last);
    }
  }

  lemma {:induction false} DeduplicatedAllBefore(classes: seq<OwlClass>)
    ensures forall i :: 0 <= i < FirstEmptyLabel(classes) ==> Deduplicated(classes[i]) == Ok(DeduplicatedAll(classes).0[i])
  {
    if classes != [] {
      var init, last := classes[..|classes| - 1], classes[|classes| - 1];
      DeduplicatedAllBefore(init);
      DeduplicatedAllFailure(init);
      Deduplicate(last);
      var r0, r := DeduplicatedAll(init), DeduplicatedAll(classes);
      var d := if r0.1.None? && Deduplicated(last).Ok? then Deduplicated(last).value else last;
      assert r.0 == r0.0 + [d];
      forall i | 0 <= i < FirstEmptyLabel(classes) ensures Deduplicated(classes[i]) == Ok(r.0[i]) {
        if i < |init| {
          assert init[i] == classes[i] && r.0[i] == r0.0[i];
        }
      }
    }
  }

  lemma {:induction false} DeduplicatedAllAfter(classes: seq<OwlClass>)
    ensures var n := FirstEmptyLabel(classes); DeduplicatedAll(classes).0[n..] == classes[n..]
  {
    if classes != [] {
      var init, last := classes[..|classes| - 1], classes[|classes| - 1];
      DeduplicatedAllAfter(init);
      DeduplicatedAllFailure(init);
      var r0, r := DeduplicatedAll(init), DeduplicatedAll(classes);
      var m := FirstEmptyLabel(init);
      if m < |init| {
        assert r.0 == r0.0 + [last];
        PrefixAgrees(r0.0, [last], m);
        assert classes == init + [last];
        PrefixAgrees(init, [last], m);
      }
    }
  }

  lemma PrefixAgrees<T>(a: seq<T>, b: seq<T>, m: nat)
    requires m <= |a|
    ensures forall i :: 0 <= i < m ==> (a + b)[i] == a[i]
    ensures (a + b)[m..] == a[m..] + b
  {
  }

  /** After an error, the rest of the classes keep their state. */
  lemma {:induction false} DeduplicatedAllStops(classes: seq<OwlClass>, n: nat)
    requires n <= |classes| && DeduplicatedAll(classes[..n]).1.Some?
    ensures DeduplicatedAll(classes) == (DeduplicatedAll(classes[..n]).0 + classes[n..], DeduplicatedAll(classes[..n]).1)
    decreases |classes| - n
  {
    if n < |classes| {
      assert classes[..n + 1][..n] == classes[..n];
      var r0 := DeduplicatedAll(classes[..n]);
      assert DeduplicatedAll(classes[..n + 1]) == (r0.0 + [classes[n]], r0.1);
      DeduplicatedAllStops(classes, n + 1);
      assert classes[n..] == [classes[n]] + classes[n + 1..];
      assert r0.0 + [classes[n]] + classes[n + 1..] == r0.0 + classes[n..];
    } else {
      assert classes[..n] == classes && classes[n..] == [];
      assert DeduplicatedAll(classes[..n]).0 + [] == DeduplicatedAll(classes[..n]).0;
    }
  }

  /** The script: the index of classes with subclasses, the conversion of each class
      in order, then, when nothing failed, the second pass over every class. The files
      are written only when neither pass failed and something was converted. */
  method ConvertTaxa(classes: array<OwlClass>) returns (obsoletes: seq<Obsolete>, count: nat, failure: Option<string>, write: bool)
    modifies classes
    ensures var r := ConvertAll(old(classes[..]), Parents(old(classes[..])));
            obsoletes == r.obsoletes && count == r.count
            && (r.failure.Some? ==> failure == r.failure && classes[..] == r.classes)
            && (r.failure.None? ==> (classes[..], failure) == DeduplicatedAll(r.classes))
    ensures write <==> failure.None? && count > 0
  {
    var parents := BuildParents(classes);
    obsoletes, count, failure := FirstPass(classes, parents);
    if failure.None? {
      failure := SecondPass(classes);
    }
    write := failure.None? && count > 0;
  }

  /** The first pass: each class in order, until an error. */
  method FirstPass(classes: array<OwlClass>, parents: set<string>) returns (obsoletes: seq<Obsolete>, count: nat, failure: Option<string>)
    modifies classes
    ensures ConvertAll(old(classes[..]), parents) == Run(classes[..], obsoletes, count, failure)
  {
    ghost var original := classes[..];
    obsoletes, count, failure := [], 0, None;
    var i := 0;
    while i < classes.Length && failure.None?
      invariant i <= classes.Length
      invariant ConvertAll(original[..i], parents) == Run(classes[..i], obsoletes, count, failure)
      invariant forall j :: i <= j < classes.Length ==> classes[j] == original[j]
    {
      ghost var done := classes[..i];
      var obsoletes', count', failure' := ConvertClassAt(classes, i, parents, obsoletes, count);
      ConvertAllNext(original, i, parents, done, obsoletes, count, classes[i], obsoletes', count', failure');
      assert classes[..i + 1] == done + [classes[i]];
      obsoletes, count, failure := obsoletes', count', failure';
      i := i + 1;
    }
    if failure.Some? {
      ConvertAllStops(original, i, parents);
      assert classes[..] == classes[..i] + original[i..];
    } else {
      assert original[..i] == original && classes[..i] == classes[..];
    }
  }

  /** One more class of the first pass. */
  lemma ConvertAllNext(classes: seq<OwlClass>, i: nat, parents: set<string>, done: seq<OwlClass>, obsoletes: seq<Obsolete>, count: nat,
                       cls: OwlClass, obsoletes': seq<Obsolete>, count': nat, failure: Option<string>)
    requires i < |classes| && ConvertAll(classes[..i], parents) == Run(done, obsoletes, count, None)
    requires ConvertClass(Pass(classes[i], obsoletes, count, None), parents) == Pass(cls, obsoletes', count', failure)
    ensures ConvertAll(classes[..i + 1], parents) == Run(done + [cls], obsoletes', count', failure)
  {
    assert classes[..i + 1][..i] == classes[..i];
  }

  /** The second pass: each class in order, until an error. */
  method SecondPass(classes: array<OwlClass>) returns (failure: Option<string>)
    modifies classes
    ensures (classes[..], failure) == DeduplicatedAll(old(classes[..]))
  {
    ghost var original := classes[..];
    failure := None;
    var j := 0;
    while j < classes.Length && failure.None?
      invariant j <= classes.Length
      invariant (classes[..j], failure) == DeduplicatedAll(original[..j])
      invariant forall k :: j <= k < classes.Length ==> classes[k] == original[k]
    {
      ghost var done := classes[..j];
      failure := DeduplicateAt(classes, j);
      assert original[..j + 1][..j] == original[..j];
      assert classes[..j + 1] == done + [classes[j]];
      j := j + 1;
    }
    if failure.Some? {
      DeduplicatedAllStops(original, j);
      assert classes[..] == classes[..j] + original[j..];
    } else {
      assert original[..j] == original && classes[..j] == classes[..];
    }
  }

  /** After an error, the rest of the classes keep their state. */
  lemma {:induction false} ConvertAllStops(classes: seq<OwlClass>, n: nat, parents: set<string>)
    requires n <= |classes| && ConvertAll(classes[..n], parents).failure.Some?
    ensures var r := ConvertAll(classes, parents);
            var r0 := ConvertAll(classes[..n], parents);
            r.obsoletes == r0.obsoletes && r.count == r0.count && r.failure == r0.failure
            && r.classes == r0.classes + classes[n..]
    decreases |classes| - n
  {
    if n < |classes| {
      assert classes[..n + 1][..n] == classes[..n];
      ConvertAllStops(classes, n + 1, parents);
      assert classes[n..] == [classes[n]] + classes[n + 1..];
    } else {
      assert classes[..n] == classes;
    }
  }

  /** The second pass on one class of the array: the class is de-duplicated, or kept
      when it fails. */
  method DeduplicateAt(classes: array<OwlClass>, i: nat) returns (failure: Option<string>)
    requires i < classes.Length
    modifies classes
    ensures Deduplicated(old(classes[i])) == if failure.Some? then Err(failure.value) else Ok(classes[i])
    ensures failure.Some? ==> classes[i] == old(classes[i])
    ensures forall j :: 0 <= j < classes.Length && j != i ==> classes[j] == old(classes[j])
  {
    failure := None;
    var children := classes[i].children;
    match LabelText(children)
    case None =>
    case Some(None) =>
      failure := Some(LowerOnEmpty);
    case Some(Some(text)) =>
      var lowered := Lower(text);
      var kept := [];
      for k := 0 to |children|
        invariant kept == WithoutRepeats(children[..k], lowered)
      {
        assert children[..k + 1][..k] == children[..k];
        var c := children[k];
        if !Repeats(c, lowered) {
          kept := kept + [c];
        }
      }
      assert children[..|children|] == children;
      classes[i] := classes[i].(children := kept);
  }

  /** One class of the first pass: the candidate test, then each subClassOf found
      before the first change, in order, until an error. */
  method ConvertClassAt(classes: array<OwlClass>, i: nat, parents: set<string>, obsoletes: seq<Obsolete>, count: nat)
      returns (obsoletes': seq<Obsolete>, count': nat, failure: Option<string>)
    requires i < classes.Length
    modifies classes
    ensures ConvertClass(Pass(old(classes[i]), obsoletes, count, None), parents) == Pass(classes[i], obsoletes', count', failure)
    ensures forall j :: 0 <= j < classes.Length && j != i ==> classes[j] == old(classes[j])
  {
    obsoletes', count', failure := obsoletes, count, None;
    var about := classes[i].about;
    if about.None? || !Contains(about.value, "FOODON_") || about.value in parents {
      return;
    }
    ghost var p0 := Pass(classes[i], obsoletes, count, None);
    var scs := SubClassesOf(classes[i].children);
    var k := 0;
    while k < |scs| && failure.None?
      invariant k <= |scs|
      invariant SubClassSteps(p0, about.value, scs[..k]) == Pass(classes[i], obsoletes', count', failure)
      invariant forall j :: 0 <= j < classes.Length && j != i ==> classes[j] == old(classes[j])
    {
      assert scs[..k + 1][..k] == scs[..k];
      obsoletes', count', failure := ConvertSubClassAt(classes, i, about.value, scs[k], obsoletes', count');
      k := k + 1;
    }
    if k < |scs| {
      SubClassStepsStop(p0, about.value, scs, k);
    } else {
      assert scs[..k] == scs;
    }
  }

  /** After an error, the remaining subClassOf children change nothing. */
  lemma {:induction false} SubClassStepsStop(p: Pass, about: string, scs: seq<SubClass>, n: nat)
    requires n <= |scs| && SubClassSteps(p, about, scs[..n]).failure.Some?
    ensures SubClassSteps(p, about, scs) == SubClassSteps(p, about, scs[..n])
    decreases |scs| - n
  {
    if n < |scs| {
      assert scs[..n + 1][..n] == scs[..n];
      var q := SubClassSteps(p, about, scs[..n]);
      RestrictionStepsKeep(q, about, scs[n], scs[n].restrictions);
      SubClassStepsStop(p, about, scs, n + 1);
    } else {
      assert scs[..n] == scs;
    }
  }

  /** One subClassOf: each of its restrictions in order, until an error. */
  method ConvertSubClassAt(classes: array<OwlClass>, i: nat, about: string, sc: SubClass, obsoletes: seq<Obsolete>, count: nat)
      returns (obsoletes': seq<Obsolete>, count': nat, failure: Option<string>)
    requires i < classes.Length
    modifies classes
    ensures RestrictionSteps(Pass(old(classes[i]), obsoletes, count, None), about, sc, sc.restrictions)
            == Pass(classes[i], obsoletes', count', failure)
    ensures forall j :: 0 <= j < classes.Length && j != i ==> classes[j] == old(classes[j])
  {
    obsoletes', count', failure := obsoletes, count, None;
    ghost var p0 := Pass(classes[i], obsoletes, count, None);
    var rs := sc.restrictions;
    var k := 0;
    while k < |rs| && failure.None?
      invariant k <= |rs|
      invariant RestrictionSteps(p0, about, sc, rs[..k]) == Pass(classes[i], obsoletes', count', failure)
      invariant forall j :: 0 <= j < classes.Length && j != i ==> classes[j] == old(classes[j])
    {
      assert rs[..k + 1][..k] == rs[..k];
      obsoletes', count', failure := ConvertRestrictionAt(classes, i, about, sc, rs[k], obsoletes', count');
      k := k + 1;
    }
    if k < |rs| {
      RestrictionStepsStop(p0, about, sc, rs, k);
    } else {
      assert rs[..k] == rs;
    }
  }

  lemma {:induction false} RestrictionStepsStop(p: Pass, about: string, sc: SubClass, rs: seq<Restriction>, n: nat)
    requires n <= |rs| && RestrictionSteps(p, about, sc, rs[..n]).failure.Some?
    ensures RestrictionSteps(p, about, sc, rs) == RestrictionSteps(p, about, sc, rs[..n])
    decreases |rs| - n
  {
    if n < |rs| {
      assert rs[..n + 1][..n] == rs[..n];
      RestrictionStepsStop(p, about, sc, rs, n + 1);
    } else {
      assert rs[..n] == rs;
    }
  }

  /** One owl:Restriction, edited into the class in the order the script does it. */
  method ConvertRestrictionAt(classes: array<OwlClass>, i: nat, about: string, sc: SubClass, rs: Restriction,
                              obsoletes: seq<Obsolete>, count: nat)
      returns (obsoletes': seq<Obsolete>, count': nat, failure: Option<string>)
    requires i < classes.Length
    modifies classes
    ensures RestrictionStep(Pass(old(classes[i]), obsoletes, count, None), about, sc, rs)
            == Pass(classes[i], obsoletes', count', failure)
    ensures forall j :: 0 <= j < classes.Length && j != i ==> classes[j] == old(classes[j])
  {
    obsoletes', count', failure := obsoletes, count, None;
    if !InTaxonRestriction(rs) {
      return;
    }
    var taxon := FirstResource(rs.someValuesFrom);
    if taxon.None? {
      return;  // reported and skipped
    }
    var enLabel := LabelText(classes[i].children);
    if enLabel == Some(None) {
      failure := Some(FindOnEmpty);
      return;
    }
    if enLabel.Some? && Contains(enLabel.value.value, "consumer") {
      return;
    }
    var text := if enLabel.Some? then enLabel.value else None;
    classes[i] := classes[i].(children := Relabelled(classes[i].children));
    classes[i] := classes[i].(children := WithoutXref(classes[i].children, taxon.value));
    classes[i] := classes[i].(about := None, aboutWritten := taxon);
    var rest := WithoutNode(classes[i].children, sc.node);
    if rest.None? {
      failure := Some(NotAChild);
      return;
    }
    classes[i] := classes[i].(children := rest.value);
    if text.None? {
      failure := Some(LabelMissing);
      return;
    }
    obsoletes' := obsoletes + [Obsolete(about, "obsolete: " + text.value, taxon.value)];
    count' := count + 1;
  }
}
