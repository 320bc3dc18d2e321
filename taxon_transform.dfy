// The older conversion of FoodOn organism classes to NCBITaxon classes
// (src/ontology/taxon_transform.py): every FoodOn class that says it is 'in taxon'
// some taxon becomes a class about that taxon, and its deprecation record is added
// at the end of the same ontology. Unlike the later script there is no leaf test,
// no "consumer" test and no second pass, and the xref to the taxon goes before the
// label is moved. The ontology is written whenever the script does not stop on an
// error.
//
// The two scripts walk classes, subClassOf children and restrictions in the same
// way, so the lemmas about that walk (StepRecords, StepsRecords, SubClassStepsRecords,
// TransformStepsKeep, SubClassStepsKeep, TransformStepsStop, SubClassStepsStop)
// mirror their TaxonConversion counterparts on purpose, over this script's step.
module TaxonTransform {
  import opened Wrappers
  import opened PyStr
  import opened OwlClasses

  /** A class without rdf:about. */
  const AboutMissing := "KeyError: '{http://www.w3.org/1999/02/22-rdf-syntax-ns#}about'"
  /** A conversion of a class that no longer has an English label. */
  const LabelIndex := "IndexError: list index out of range"
  /** The deprecation label made from an empty English label. */
  const TextConcat := "TypeError: can only concatenate str (not \"NoneType\") to str"

  // ---------------------------------------------------------------------
  // The conversion, as a value

  /** One owl:Restriction of one subClassOf of a class about `about`: an 'in taxon'
      restriction naming a taxon converts the class. */
  function TransformStep(p: Pass, about: string, sc: SubClass, rs: Restriction): Pass {
    if p.failure.Some? || !InTaxonRestriction(rs) || FirstResource(rs.someValuesFrom).None? then p
    else Transformed(p, about, sc, FirstResource(rs.someValuesFrom).value)
  }

  /** The conversion, in the order of the script: the first xref to the taxon goes,
      the label becomes an alternative term, rdf:about becomes the taxon, the
      subClassOf goes, and the deprecation record is made from the label, which must
      exist and have text. */
  function Transformed(p: Pass, about: string, sc: SubClass, taxon: string): Pass {
    var ch := WithoutXref(p.cls.children, taxon);
    var enLabel := LabelText(ch);
    var cls := OwlClass(None, Some(taxon), Relabelled(ch));
    match WithoutNode(cls.children, sc.node)
    case None => p.(cls := cls, failure := Some(NotAChild))
    case Some(rest) =>
      if enLabel.None? then p.(cls := cls.(children := rest), failure := Some(LabelIndex))
      else if enLabel.value.None? then p.(cls := cls.(children := rest), failure := Some(TextConcat))
      else Pass(cls.(children := rest), p.obsoletes + [Obsolete(about, "obsolete: " + enLabel.value.value, taxon)], p.count + 1, None)
  }

  /** The restrictions of one subClassOf, in order. */
  function TransformSteps(p: Pass, about: string, sc: SubClass, rs: seq<Restriction>): Pass {
    if rs == [] then p
    else TransformStep(TransformSteps(p, about, sc, rs[..|rs| - 1]), about, sc, rs[|rs| - 1])
  }

  /** The subClassOf children found before the first change, in order. */
  function SubClassSteps(p: Pass, about: string, scs: seq<SubClass>): Pass {
    if scs == [] then p
    else
      var sc := scs[|scs| - 1];
      TransformSteps(SubClassSteps(p, about, scs[..|scs| - 1]), about, sc, sc.restrictions)
  }

  /** One class of the ontology: rdf:about must be there, and only FoodOn classes are
      considered. */
  function TransformClass(p: Pass): Pass {
    if p.cls.about.None? then p.(failure := Some(AboutMissing))
    else if !Contains(p.cls.about.value, "FOODON_") then p
    else SubClassSteps(p, p.cls.about.value, SubClassesOf(p.cls.children))
  }

  /** The script over the classes of the ontology. Classes after an error keep their
      state. */
  function TransformAll(classes: seq<OwlClass>): (r: Run)
    ensures |r.classes| == |classes|
  {
    if classes == [] then Run([], [], 0, None)
    else
      var r := TransformAll(classes[..|classes| - 1]);
      var last := classes[|classes| - 1];
      if r.failure.Some? then r.(classes := r.classes + [last])
      else
        var p := TransformClass(Pass(last, r.obsoletes, r.count, None));
        Run(r.classes + [p.cls], p.obsoletes, p.count, p.failure)
  }

  // ---------------------------------------------------------------------
  // Properties of the conversion

  /** Steps that each leave a class alone leave it alone together. */
  lemma {:induction false} TransformStepsKeep(p: Pass, about: string, sc: SubClass, rs: seq<Restriction>)
    requires forall k :: 0 <= k < |rs| ==> TransformStep(p, about, sc, rs[k]) == p
    ensures TransformSteps(p, about, sc, rs) == p
  {
    if rs != [] {
      TransformStepsKeep(p, about, sc, rs[..|rs| - 1]);
    }
  }

  lemma {:induction false} SubClassStepsKeep(p: Pass, about: string, scs: seq<SubClass>)
    requires forall j, k :: 0 <= j < |scs| && 0 <= k < |scs[j].restrictions| ==>
               TransformStep(p, about, scs[j], scs[j].restrictions[k]) == p
    ensures SubClassSteps(p, about, scs) == p
  {
    if scs != [] {
      SubClassStepsKeep(p, about, scs[..|scs| - 1]);
      var sc := scs[|scs| - 1];
      assert forall k :: 0 <= k < |sc.restrictions| ==> TransformStep(p, about, sc, sc.restrictions[k]) == p;
      TransformStepsKeep(p, about, sc, sc.restrictions);
    }
  }

  /** A class without rdf:about stops the script; a class is converted only when it
      is a FoodOn class and one of its subClassOf restrictions is 'in taxon' some
      named taxon. */
  lemma TransformedOnly(p: Pass)
    requires p.failure.None?
    ensures p.cls.about.None? ==> TransformClass(p) == p.(failure := Some(AboutMissing))
    ensures p.cls.about.Some? && !Contains(p.cls.about.value, "FOODON_") ==> TransformClass(p) == p
    ensures p.cls.about.Some? &&
            (forall sc, rs :: sc in SubClassesOf(p.cls.children) && rs in sc.restrictions ==>
               !InTaxonRestriction(rs) || FirstResource(rs.someValuesFrom).None?)
            ==> TransformClass(p) == p
  {
    if p.cls.about.Some? && Contains(p.cls.about.value, "FOODON_") {
      var scs := SubClassesOf(p.cls.children);
      if forall sc, rs :: sc in scs && rs in sc.restrictions ==> !InTaxonRestriction(rs) || FirstResource(rs.someValuesFrom).None? {
        forall j, k | 0 <= j < |scs| && 0 <= k < |scs[j].restrictions|
          ensures TransformStep(p, p.cls.about.value, scs[j], scs[j].restrictions[k]) == p
        {
          assert scs[j] in scs && scs[j].restrictions[k] in scs[j].restrictions;
        }
        SubClassStepsKeep(p, p.cls.about.value, scs);
      }
    }
  }

  /** A conversion step: the first xref to the taxon goes, the first English label
      becomes a (script-made) IAO_0000118 with the same text, the subClassOf goes,
      rdf:about becomes the taxon, and exactly one deprecation record for the old IRI
      is added. */
  lemma TransformStepEffect(p: Pass, about: string, sc: SubClass, rs: Restriction)
    requires p.failure.None? && TransformStep(p, about, sc, rs).count != p.count
    ensures var q := TransformStep(p, about, sc, rs);
            var enLabel := LabelText(p.cls.children);
            var taxon := FirstResource(rs.someValuesFrom);
            InTaxonRestriction(rs) && taxon.Some? && enLabel.Some? && enLabel.value.Some?
            && q.failure.None? && q.count == p.count + 1
            && q.obsoletes == p.obsoletes + [Obsolete(about, "obsolete: " + enLabel.value.value, taxon.value)]
            && q.cls.about == None && q.cls.aboutWritten == taxon
            && ChildrenConverted(p.cls.children, q.cls.children, enLabel.value, taxon.value, sc.node)
  {
    var taxon := FirstResource(rs.someValuesFrom).value;
    WithoutXrefKeepsLabel(p.cls.children, taxon);
    var enLabel := LabelText(p.cls.children);
    var rest := WithoutNode(Relabelled(WithoutXref(p.cls.children, taxon)), sc.node);
    assert rest.Some? && enLabel.Some? && enLabel.value.Some?;
    TransformedChildren(p.cls.children, enLabel.value, taxon, sc.node);
  }

  /** An empty English label is moved to an (empty) alternative term like any other,
      and then the deprecation label cannot be made: the script stops with the class
      already edited, and nothing is counted. */
  lemma TransformEmptyLabel(p: Pass, about: string, sc: SubClass, rs: Restriction)
    requires p.failure.None? && InTaxonRestriction(rs) && FirstResource(rs.someValuesFrom).Some?
    requires LabelText(p.cls.children) == Some(None)
    requires WithoutNode(Relabelled(WithoutXref(p.cls.children, FirstResource(rs.someValuesFrom).value)), sc.node).Some?
    ensures var q := TransformStep(p, about, sc, rs);
            var taxon := FirstResource(rs.someValuesFrom);
            q.failure == Some(TextConcat) && q.count == p.count && q.obsoletes == p.obsoletes
            && q.cls.about == None && q.cls.aboutWritten == taxon
            && ChildrenConverted(p.cls.children, q.cls.children, None, taxon.value, sc.node)
  {
    var taxon := FirstResource(rs.someValuesFrom).value;
    WithoutXrefKeepsLabel(p.cls.children, taxon);
    TransformedChildren(p.cls.children, None, taxon, sc.node);
  }

  lemma TransformedChildren(children: seq<Child>, text: Option<string>, taxon: string, node: nat)
    requires LabelText(children) == Some(text)
    requires WithoutNode(Relabelled(WithoutXref(children, taxon)), node).Some?
    ensures ChildrenConverted(children, WithoutNode(Relabelled(WithoutXref(children, taxon)), node).value, text, taxon, node)
  {
    var ch1 := WithoutXref(children, taxon);
    WithoutXrefCounts(children, taxon);
    WithoutXrefKeepsLabel(children, taxon);
    var xref := multiset(children) - multiset(ch1);
    assert multiset(ch1) + xref == multiset(children);
    var ch2 := Relabelled(ch1);
    RelabelledCounts(ch1);
    WithoutNodeCounts(ch2, node);
    var rest := WithoutNode(ch2, node).value;
    var s: SubClass :| s.node == node && multiset(rest) + multiset{SubClassOf(s)} == multiset(ch2);
    RelabelChain(multiset(children), multiset(ch1), multiset(ch2), multiset(rest),
                 Label(Some("en"), text), MadeAltTerm(text), SubClassOf(s), xref);
  }

  lemma RelabelChain<T>(m0: multiset<T>, m1: multiset<T>, m2: multiset<T>, m3: multiset<T>, l: T, a: T, s: T, x: multiset<T>)
    requires m1 + x == m0
    requires m2 + multiset{l} == m1 + multiset{a}
    requires m3 + multiset{s} == m2
    ensures m3 + multiset{l, s} + x == m0 + multiset{a}
  {
    calc {
      m3 + multiset{l, s} + x;
      (m3 + multiset{s}) + multiset{l} + x;
      m1 + multiset{a} + x;
    }
  }

  /** A conversion of a class that has no English label left, as after an earlier
      conversion of a class with a single label, stops the script once the class is
      edited: with the `IndexError` of `label[0]` when the subClassOf could be
      removed, and with the `ValueError` of `remove` when an earlier restriction
      of the same subClassOf had removed it already. */
  lemma TransformWithoutLabel(p: Pass, about: string, sc: SubClass, rs: Restriction)
    requires p.failure.None? && InTaxonRestriction(rs) && FirstResource(rs.someValuesFrom).Some?
    requires LabelText(p.cls.children).None?
    ensures var q := TransformStep(p, about, sc, rs);
            q.failure == (if WithoutNode(Relabelled(WithoutXref(p.cls.children, FirstResource(rs.someValuesFrom).value)), sc.node).Some?
                          then Some(LabelIndex) else Some(NotAChild))
    ensures TransformStep(p, about, sc, rs).count == p.count
    ensures TransformStep(p, about, sc, rs).obsoletes == p.obsoletes
  {
    WithoutXrefKeepsLabel(p.cls.children, FirstResource(rs.someValuesFrom).value);
  }

  /** Each step adds as many deprecation records as it counts conversions, at most
      one, and keeps the ones made before. */
  lemma StepRecords(p: Pass, about: string, sc: SubClass, rs: Restriction)
    ensures var q := TransformStep(p, about, sc, rs);
            q.count <= p.count + 1 && |q.obsoletes| - |p.obsoletes| == q.count - p.count
            && q.obsoletes[..|p.obsoletes|] == p.obsoletes
  {
  }

  lemma {:induction false} StepsRecords(p: Pass, about: string, sc: SubClass, rs: seq<Restriction>)
    ensures var q := TransformSteps(p, about, sc, rs);
            q.count >= p.count && |q.obsoletes| - |p.obsoletes| == q.count - p.count
            && q.obsoletes[..|p.obsoletes|] == p.obsoletes
  {
    if rs != [] {
      var q0 := TransformSteps(p, about, sc, rs[..|rs| - 1]);
      StepsRecords(p, about, sc, rs[..|rs| - 1]);
      StepRecords(q0, about, sc, rs[|rs| - 1]);
      var q := TransformSteps(p, about, sc, rs);
      assert q.obsoletes[..|q0.obsoletes|][..|p.obsoletes|] == q.obsoletes[..|p.obsoletes|];
    }
  }

  lemma {:induction false} SubClassStepsRecords(p: Pass, about: string, scs: seq<SubClass>)
    ensures var q := SubClassSteps(p, about, scs);
            q.count >= p.count && |q.obsoletes| - |p.obsoletes| == q.count - p.count
            && q.obsoletes[..|p.obsoletes|] == p.obsoletes
  {
    if scs != [] {
      var q0 := SubClassSteps(p, about, scs[..|scs| - 1]);
      SubClassStepsRecords(p, about, scs[..|scs| - 1]);
      StepsRecords(q0, about, scs[|scs| - 1], scs[|scs| - 1].restrictions);
      var q := SubClassSteps(p, about, scs);
      assert q.obsoletes[..|q0.obsoletes|][..|p.obsoletes|] == q.obsoletes[..|p.obsoletes|];
    }
  }

  /** Over the whole script, one deprecation record per conversion. */
  lemma {:induction false} TransformAllRecords(classes: seq<OwlClass>)
    ensures |TransformAll(classes).obsoletes| == TransformAll(classes).count
  {
    if classes != [] {
      var r := TransformAll(classes[..|classes| - 1]);
      TransformAllRecords(classes[..|classes| - 1]);
      if r.failure.None? {
        var p := Pass(classes[|classes| - 1], r.obsoletes, r.count, None);
        if p.cls.about.Some? && Contains(p.cls.about.value, "FOODON_") {
          SubClassStepsRecords(p, p.cls.about.value, SubClassesOf(p.cls.children));
        }
      }
    }
  }

  /** After an error, the rest of the classes keep their state. */
  lemma {:induction false} TransformAllStops(classes: seq<OwlClass>, n: nat)
    requires n <= |classes| && TransformAll(classes[..n]).failure.Some?
    ensures var r := TransformAll(classes);
            var r0 := TransformAll(classes[..n]);
            r.obsoletes == r0.obsoletes && r.count == r0.count && r.failure == r0.failure
            && r.classes == r0.classes + classes[n..]
    decreases |classes| - n
  {
    if n < |classes| {
      assert classes[..n + 1][..n] == classes[..n];
      TransformAllStops(classes, n + 1);
      assert classes[n..] == [classes[n]] + classes[n + 1..];
    } else {
      assert classes[..n] == classes;
    }
  }

  /** One more class of the script. */
  lemma TransformAllNext(classes: seq<OwlClass>, i: nat, done: seq<OwlClass>, obsoletes: seq<Obsolete>, count: nat,
                         cls: OwlClass, obsoletes': seq<Obsolete>, count': nat, failure: Option<string>)
    requires i < |classes| && TransformAll(classes[..i]) == Run(done, obsoletes, count, None)
    requires TransformClass(Pass(classes[i], obsoletes, count, None)) == Pass(cls, obsoletes', count', failure)
    ensures TransformAll(classes[..i + 1]) == Run(done + [cls], obsoletes', count', failure)
  {
    assert classes[..i + 1][..i] == classes[..i];
  }

  lemma {:induction false} SubClassStepsStop(p: Pass, about: string, scs: seq<SubClass>, n: nat)
    requires n <= |scs| && SubClassSteps(p, about, scs[..n]).failure.Some?
    ensures SubClassSteps(p, about, scs) == SubClassSteps(p, about, scs[..n])
    decreases |scs| - n
  {
    if n < |scs| {
      assert scs[..n + 1][..n] == scs[..n];
      var q := SubClassSteps(p, about, scs[..n]);
      TransformStepsKeep(q, about, scs[n], scs[n].restrictions);
      SubClassStepsStop(p, about, scs, n + 1);
    } else {
      assert scs[..n] == scs;
    }
  }

  lemma {:induction false} TransformStepsStop(p: Pass, about: string, sc: SubClass, rs: seq<Restriction>, n: nat)
    requires n <= |rs| && TransformSteps(p, about, sc, rs[..n]).failure.Some?
    ensures TransformSteps(p, about, sc, rs) == TransformSteps(p, about, sc, rs[..n])
    decreases |rs| - n
  {
    if n < |rs| {
      assert rs[..n + 1][..n] == rs[..n];
      TransformStepsStop(p, about, sc, rs, n + 1);
    } else {
      assert rs[..n] == rs;
    }
  }

  // ---------------------------------------------------------------------
  // The script, in place

  /** The script: each class in order, until an error; the ontology with the
      deprecation records appended is written whenever no error stopped it. */
  method TransformTaxa(classes: array<OwlClass>) returns (obsoletes: seq<Obsolete>, count: nat, failure: Option<string>, write: bool)
    modifies classes
    ensures TransformAll(old(classes[..])) == Run(classes[..], obsoletes, count, failure)
    ensures write <==> failure.None?
  {
    ghost var original := classes[..];
    obsoletes, count, failure := [], 0, None;
    var i := 0;
    while i < classes.Length && failure.None?
      invariant i <= classes.Length
      invariant TransformAll(original[..i]) == Run(classes[..i], obsoletes, count, failure)
      invariant forall j :: i <= j < classes.Length ==> classes[j] == original[j]
    {
      ghost var done := classes[..i];
      var obsoletes', count', failure' := TransformClassAt(classes, i, obsoletes, count);
      TransformAllNext(original, i, done, obsoletes, count, classes[i], obsoletes', count', failure');
      assert classes[..i + 1] == done + [classes[i]];
      obsoletes, count, failure := obsoletes', count', failure';
      i := i + 1;
    }
    if failure.Some? {
      TransformAllStops(original, i);
      assert classes[..] == classes[..i] + original[i..];
    } else {
      assert original[..i] == original && classes[..i] == classes[..];
    }
    write := failure.None?;
  }

  /** One class: rdf:about, the FoodOn test, then each subClassOf found before the
      first change, in order, until an error. */
  method TransformClassAt(classes: array<OwlClass>, i: nat, obsoletes: seq<Obsolete>, count: nat)
      returns (obsoletes': seq<Obsolete>, count': nat, failure: Option<string>)
    requires i < classes.Length
    modifies classes
    ensures TransformClass(Pass(old(classes[i]), obsoletes, count, None)) == Pass(classes[i], obsoletes', count', failure)
    ensures forall j :: 0 <= j < classes.Length && j != i ==> classes[j] == old(classes[j])
  {
    obsoletes', count', failure := obsoletes, count, None;
    var about := classes[i].about;
    if about.None? {
      failure := Some(AboutMissing);
      return;
    }
    if !Contains(about.value, "FOODON_") {
      return;
    }
    ghost var p0 := Pass(classes[i], obsoletes, count, None);
    var scs := SubClassesOf(classes[i].children);
    var k := 0;
    while k < |scs| && failure.None?
      invariant k <= |scs|
      invariant SubClassSteps(p0, about.value, scs[..k]) == Pass(classes[i], obsoletes', count', failure)
      invariant forall j :: 0 <= j < classes.Length && j != i ==> classes[j] == old(classes[j])
    {
      assert scs[..k + 1][..k] == scs[..k];
      obsoletes', count', failure := TransformSubClassAt(classes, i, about.value, scs[k], obsoletes', count');
      k := k + 1;
    }
    if k < |scs| {
      SubClassStepsStop(p0, about.value, scs, k);
    } else {
      assert scs[..k] == scs;
    }
  }

  /** One subClassOf: each of its restrictions in order, until an error. */
  method TransformSubClassAt(classes: array<OwlClass>, i: nat, about: string, sc: SubClass, obsoletes: seq<Obsolete>, count: nat)
      returns (obsoletes': seq<Obsolete>, count': nat, failure: Option<string>)
    requires i < classes.Length
    modifies classes
    ensures TransformSteps(Pass(old(classes[i]), obsoletes, count, None), about, sc, sc.restrictions)
            == Pass(classes[i], obsoletes', count', failure)
    ensures forall j :: 0 <= j < classes.Length && j != i ==> classes[j] == old(classes[j])
  {
    obsoletes', count', failure := obsoletes, count, None;
    ghost var p0 := Pass(classes[i], obsoletes, count, None);
    var rs := sc.restrictions;
    var k := 0;
    while k < |rs| && failure.None?
      invariant k <= |rs|
      invariant TransformSteps(p0, about, sc, rs[..k]) == Pass(classes[i], obsoletes', count', failure)
      invariant forall j :: 0 <= j < classes.Length && j != i ==> classes[j] == old(classes[j])
    {
      assert rs[..k + 1][..k] == rs[..k];
      obsoletes', count', failure := TransformRestrictionAt(classes, i, about, sc, rs[k], obsoletes', count');
      k := k + 1;
    }
    if k < |rs| {
      TransformStepsStop(p0, about, sc, rs, k);
    } else {
      assert rs[..k] == rs;
    }
  }

  /** One owl:Restriction, edited into the class in the order the script does it. */
  method TransformRestrictionAt(classes: array<OwlClass>, i: nat, about: string, sc: SubClass, rs: Restriction,
                                obsoletes: seq<Obsolete>, count: nat)
      returns (obsoletes': seq<Obsolete>, count': nat, failure: Option<string>)
    requires i < classes.Length
    modifies classes
    ensures TransformStep(Pass(old(classes[i]), obsoletes, count, None), about, sc, rs)
            == Pass(classes[i], obsoletes', count', failure)
    ensures forall j :: 0 <= j < classes.Length && j != i ==> classes[j] == old(classes[j])
  {
    obsoletes', count', failure := obsoletes, count, None;
    if !InTaxonRestriction(rs) {
      return;
    }
    var taxon := FirstResource(rs.someValuesFrom);
    if taxon.None? {
      return;  // reported and skipped
    }
    classes[i] := classes[i].(children := WithoutXref(classes[i].children, taxon.value));
    var enLabel := LabelText(classes[i].children);
    classes[i] := classes[i].(children := Relabelled(classes[i].children));
    classes[i] := classes[i].(about := None, aboutWritten := taxon);
    var rest := WithoutNode(classes[i].children, sc.node);
    if rest.None? {
      failure := Some(NotAChild);
      return;
    }
    classes[i] := classes[i].(children := rest.value);
    if enLabel.None? {
      failure := Some(LabelIndex);
      return;
    }
    if enLabel.value.None? {
      failure := Some(TextConcat);
      return;
    }
    obsoletes' := obsoletes + [Obsolete(about, "obsolete: " + enLabel.value.value, taxon.value)];
    count' := count + 1;
  }
}
