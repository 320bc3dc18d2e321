// The subset generator (src/ontology/imports/langual_subsets/subset.py): the
// term database merged with the Product Type database, the reverse label lookup
// built over it, and for each row of a LanguaL-indexed food table a FoodOn class
// with a stable id, a formatted label and definition, a parent from facet A and
// one restriction per other facet code.
module Subset {
  import opened Wrappers
  import opened PyStr
  import opened Store
  import opened OntologyIds
  import opened LangualImporter

  // ---------------------------------------------------------------------
  // `get_new_subset_id`

  /** `get_new_subset_id`: "FOODON_" and the number made of the id's digits plus
      `subsetIdStart`, padded with zeros to 8 digits. An id without a non-zero digit
      leaves nothing for `int()` to read, a ValueError. */
  function GetNewSubsetId(id: string, subsetIdStart: nat): (r: Result<string>)
  {
    match IntOfDigits(DigitsOf(id))
    case None => Err(IntError)
    case Some(n) => Ok(SubsetIdOf(subsetIdStart + n))
  }

  const IntError := "ValueError: invalid literal for int()"

  /** `int(digits.lstrip('0'))`, None where nothing is left to read. */
  function IntOfDigits(digits: string): (r: Option<nat>)
    requires AllDigits(digits)
  {
    var numeric := LStripZeros(digits);
    if numeric == "" then None else Some(DecimalValue(numeric))
  }

  /** `'FOODON_' + format(n, '08')` */
  function SubsetIdOf(n: nat): string {
    "FOODON_" + ZeroPad(Decimal(n), 8)
  }

  /** A string of digits starting with a non-zero digit reads as a positive number. */
  lemma {:induction false} LeadingDigitPositive(s: string)
    requires AllDigits(s) && s != "" && s[0] != '0'
    ensures DecimalValue(s) > 0
    decreases |s|
  {
    if |s| > 1 {
      LeadingDigitPositive(s[..|s| - 1]);
    }
  }

  /** Leading zeros do not count: `int(s.lstrip('0')) == int(s)`. */
  lemma StripZerosValue(s: string)
    requires AllDigits(s)
    ensures AllDigits(LStripZeros(s)) && DecimalValue(LStripZeros(s)) == DecimalValue(s)
    ensures LStripZeros(s) == "" <==> DecimalValue(s) == 0
  {
    var r := LStripZeros(s);
    var z := |s| - |r|;
    assert s == seq(z, _ => '0') + r;
    assert AllDigits(r) by {
      forall k | 0 <= k < |r| ensures IsDigit(r[k]) {
        assert r[k] == s[z + k];
      }
    }
    LeadingZeros(z, r);
    if r != "" {
      LeadingDigitPositive(r);
    } else {
      ZerosValue(z);
      assert s == seq(z, _ => '0');
    }
  }

  /** The digits read as their value, except that a value of zero is no
      number at all. */
  lemma IntOfDigitsValue(digits: string)
    requires AllDigits(digits)
    ensures IntOfDigits(digits) == if DecimalValue(digits) == 0 then None else Some(DecimalValue(digits))
  {
    StripZerosValue(digits);
  }

  /** The id fails exactly when its digits read as zero (none, or all zeros). */
  lemma SubsetIdFails(id: string, subsetIdStart: nat)
    ensures GetNewSubsetId(id, subsetIdStart).Err? <==> DecimalValue(DigitsOf(id)) == 0
  {
    IntOfDigitsValue(DigitsOf(id));
  }

  /** `r` is "FOODON_" and at least 8 digits that read as `n`. */
  predicate SubsetIdFor(r: string, n: nat) {
    |r| >= 15 && r[..7] == "FOODON_" && AllDigits(r[7..]) && DecimalValue(r[7..]) == n
  }

  /** A subset id is "FOODON_" and at least 8 digits that read as the start plus
      the number in the source id. */
  lemma SubsetIdShape(id: string, subsetIdStart: nat)
    requires GetNewSubsetId(id, subsetIdStart).Ok?
    ensures SubsetIdFor(GetNewSubsetId(id, subsetIdStart).value, subsetIdStart + DecimalValue(DigitsOf(id)))
  {
    IntOfDigitsValue(DigitsOf(id));
    IdOfShape(subsetIdStart + DecimalValue(DigitsOf(id)));
  }

  /** `'FOODON_' + format(n, '08')` reads back as n. */
  lemma IdOfShape(n: nat)
    ensures SubsetIdFor(SubsetIdOf(n), n)
  {
    var padded := ZeroPad(Decimal(n), 8);
    ZeroPadValue(Decimal(n), 8);
    var r := SubsetIdOf(n);
    assert r[..7] == "FOODON_" && r[7..] == padded;
  }

  /** Ids whose digits read as the same number get the same subset id, whatever
      their letters ("F1000" and "G1000" collide): the subset id is stable across
      loads. */
  lemma SubsetIdCollides(a: string, b: string, subsetIdStart: nat)
    requires DecimalValue(DigitsOf(a)) == DecimalValue(DigitsOf(b))
    ensures GetNewSubsetId(a, subsetIdStart) == GetNewSubsetId(b, subsetIdStart)
  {
    IntOfDigitsValue(DigitsOf(a));
    IntOfDigitsValue(DigitsOf(b));
  }

  /** Ids whose digits read as different numbers get different subset ids. */
  lemma SubsetIdDistinct(a: string, b: string, subsetIdStart: nat)
    requires GetNewSubsetId(a, subsetIdStart).Ok?
    requires DecimalValue(DigitsOf(a)) != DecimalValue(DigitsOf(b))
    ensures GetNewSubsetId(a, subsetIdStart) != GetNewSubsetId(b, subsetIdStart)
  {
    if GetNewSubsetId(a, subsetIdStart) == GetNewSubsetId(b, subsetIdStart) {
      SubsetIdShape(a, subsetIdStart);
      SubsetIdShape(b, subsetIdStart);
    }
  }

  // ---------------------------------------------------------------------
  // The input rows

  /** A row of the food table that the generator uses. */
  datatype Row = Row(importId: string, name: string, langualIds: seq<string>)

  const Tab: string := "\t"

  /** A line of the tab-separated food table: the stripped line split at tabs must
      give exactly four fields, the first not the header's "FOODID"; the id, the
      stripped label and the stripped codes must be non-empty. The label is
      lowercased and the codes split at whitespace. */
  function AcceptRow(line: string): (r: Option<Row>)
    ensures r.Some? ==> r.value.importId != "" && r.value.importId != "FOODID" && r.value.name != ""
    ensures r.Some? ==> r.value.langualIds != [] && forall w :: w in r.value.langualIds ==> IsWord(w)
    ensures r.Some? ==> Codes(r.value.langualIds)
  {
    var params := SplitOn(Strip(line), Tab);
    if |params| != 4 || params[0] == "FOODID" then None
    else
      var importId, name, codes := params[0], Strip(params[1]), Strip(params[3]);
      if importId == "" || name == "" || codes == "" then None
      else
        SplitWhitespaceNonEmpty(codes);
        WordsAreCodes(SplitWhitespace(codes));
        Some(Row(importId, Lower(name), SplitWhitespace(codes)))
  }

  lemma WordsAreCodes(words: seq<string>)
    requires forall w :: w in words ==> IsWord(w)
    ensures Codes(words)
  {
    forall i | 0 <= i < |words| ensures words[i] != "" {
      assert IsWord(words[i]);
    }
  }

  lemma SplitWhitespaceNonEmpty(s: string)
    requires s != "" && !IsSpace(s[0])
    ensures SplitWhitespace(s) != []
  {
  }

  /** Where a one-character separator first occurs in `a + [c] + b`, when `a` does
      not hold it. */
  lemma FindAfterField(a: string, c: char, b: string)
    requires c !in a
    ensures Find(a + [c] + b, [c]) == |a|
  {
    var s := a + [c] + b;
    assert OccursAt(s, [c], |a|) by {
      assert s[|a|..|a| + 1] == [c];
    }
    forall k | 0 <= k < |a| ensures !OccursAt(s, [c], k) {
      assert s[k] == a[k] && a[k] in a;
      assert s[k..k + 1][0] == s[k];
    }
  }

  /** A text without the character has no occurrence of it. */
  lemma FindAbsent(a: string, c: char)
    requires c !in a
    ensures Find(a, [c]) == -1
  {
    forall k | 0 <= k < |a| ensures !OccursAt(a, [c], k) {
      assert a[k] in a;
      assert a[k..k + 1][0] == a[k];
    }
  }

  /** Joining fields that hold no tab with tabs and splitting at tabs gives them back. */
  lemma {:induction false} SplitJoinTabs(fields: seq<string>)
    requires |fields| >= 1 && forall f :: f in fields ==> '\t' !in f
    ensures SplitOn(Join(fields, Tab), Tab) == fields
    decreases |fields|
  {
    if |fields| == 1 {
      assert fields[0] in fields;
      FindAbsent(fields[0], '\t');
    } else {
      var head, rest := fields[0], fields[1..];
      assert head in fields;
      assert forall f :: f in rest ==> f in fields;
      SplitJoinTabs(rest);
      var tail := Join(rest, Tab);
      assert fields == [head] + rest;
      JoinCons(head, rest, Tab);
      var s := head + Tab + tail;
      FindAfterField(head, '\t', tail);
      SplitOnUnfold(s, Tab, |head|);
      assert s[..|head|] == head;
      assert s[|head| + 1..] == tail;
    }
  }

  /** A data line written as four tab-free fields is accepted with exactly those
      fields, the label lowercased and the codes split at whitespace. */
  lemma AcceptRowOfFields(importId: string, name: string, alt: string, codes: string)
    requires forall f :: f in [importId, name, alt, codes] ==> '\t' !in f
    requires importId != "" && importId != "FOODID" && !IsSpace(importId[0])
    requires codes != "" && !IsSpace(codes[|codes| - 1])
    requires Strip(name) != "" && Strip(codes) != ""
    ensures AcceptRow(Join([importId, name, alt, codes], Tab))
              == Some(Row(importId, Lower(Strip(name)), SplitWhitespace(Strip(codes))))
  {
    var line := Join([importId, name, alt, codes], Tab);
    assert line == importId + Tab + name + Tab + alt + Tab + codes by {
      JoinCons(importId, [name, alt, codes], Tab);
      JoinCons(name, [alt, codes], Tab);
      JoinCons(alt, [codes], Tab);
    }
    assert line[0] == importId[0] && line[|line| - 1] == codes[|codes| - 1];
    assert Strip(line) == line;
    SplitJoinTabs([importId, name, alt, codes]);
  }

  /** The header row and lines that do not have four fields are never used. */
  lemma AcceptRowRejects(line: string)
    ensures |SplitOn(Strip(line), Tab)| != 4 ==> AcceptRow(line).None?
    ensures SplitOn(Strip(line), Tab)[0] == "FOODID" ==> AcceptRow(line).None?
  {
  }

  // ---------------------------------------------------------------------
  // Resolving a LanguaL code of a row

  /** A code of a row resolved against the term database: its facet letter (the
      code's first character), the code, the lowercased label of the entity the code
      names, and the ontology id of the entity the class will point at (the
      replacement's, for a deprecated "X added" treatment). */
  datatype Ref = Ref(category: char, code: string, name: string, ontologyId: string)

  /** The reverse lookup names entities of the index. */
  ghost predicate LookupInIndex(index: map<string, Entity>, reverse: map<string, string>) {
    forall l :: l in reverse ==> reverse[l] in index
  }

  /** A deprecated label that is a fragment of a conjunction ("no ...", "... not
      known", "...not applicable"). */
  predicate Junk(name: string) {
    Slice(name, 0, 3) == "no " || SliceFrom(name, -10) == " not known" || SliceFrom(name, -14) == "not applicable"
  }

  /** A deprecated H (treatment applied) entity "x added" whose "x" is a food
      source or extract in the reverse lookup. */
  predicate Replaceable(e: Entity, name: string, reverse: map<string, string>) {
    e.databaseId != "" && e.databaseId[0] == 'H'
    && SliceFrom(name, -6) == " added" && Slice(name, 0, -6) in reverse
  }

  /** The reference step of `subset_entry_render` for one code: `Ok(None)` where
      the loop `continue`s, the error Python raises where it stops. */
  function Resolve(index: map<string, Entity>, reverse: map<string, string>, code: string): (r: Result<Option<Ref>>)
    requires code != "" && LookupInIndex(index, reverse)
    ensures r.Ok? && r.value.Some? ==> r.value.value.code == code && r.value.value.category == code[0]
  {
    if code !in index || index[code].status == Ignore then Ok(None)
    else
      var e := index[code];
      var key := LabelKey(e);
      if key.None? then Err("KeyError: label")
      else
        var name := key.value;
        if e.status == Deprecated && e.databaseId == "" then Err("IndexError: database_id")
        else
          var target := if e.status == Deprecated && Replaceable(e, name, reverse) then index[reverse[Slice(name, 0, -6)]] else e;
          if e.status == Deprecated && !Replaceable(e, name, reverse) && Junk(name) then Ok(None)
          else if target.ontologyId.None? then Err("KeyError: ontology_id")
          else Ok(Some(Ref(code[0], code, name, target.ontologyId.value)))
  }

  /** Codes the database does not know, `ignore` entities and deprecated junk are
      skipped; everything else that is labelled and has an ontology id is used. */
  lemma ResolveSkips(index: map<string, Entity>, reverse: map<string, string>, code: string)
    requires code != "" && LookupInIndex(index, reverse)
    ensures code !in index ==> Resolve(index, reverse, code) == Ok(None)
    ensures code in index && index[code].status == Ignore ==> Resolve(index, reverse, code) == Ok(None)
    ensures code in index && index[code].status != Ignore && LabelKey(index[code]).Some? ==>
              (Resolve(index, reverse, code) == Ok(None) <==>
                index[code].status == Deprecated && index[code].databaseId != ""
                && !Replaceable(index[code], LabelKey(index[code]).value, reverse) && Junk(LabelKey(index[code]).value))
  {
  }

  /** A deprecated "x added" treatment whose "x" is in the reverse lookup points at
      that entity, keeping its own code and label; any other entity that is used
      points at itself. */
  lemma ResolveTarget(index: map<string, Entity>, reverse: map<string, string>, code: string)
    requires code != "" && LookupInIndex(index, reverse)
    requires code in index && index[code].status != Ignore && LabelKey(index[code]).Some?
    ensures var e, name := index[code], LabelKey(index[code]).value;
            e.status == Deprecated && Replaceable(e, name, reverse)
            && index[reverse[Slice(name, 0, -6)]].ontologyId.Some? ==>
              Resolve(index, reverse, code)
                == Ok(Some(Ref(code[0], code, name, index[reverse[Slice(name, 0, -6)]].ontologyId.value)))
    ensures var e, name := index[code], LabelKey(index[code]).value;
            e.status != Deprecated && e.ontologyId.Some? ==>
              Resolve(index, reverse, code) == Ok(Some(Ref(code[0], code, name, e.ontologyId.value)))
  {
  }

  /** Python stops on an entity without a label, on a deprecated entity with an
      empty database id, and on a used entity without an ontology id. */
  lemma ResolveFails(index: map<string, Entity>, reverse: map<string, string>, code: string)
    requires code != "" && LookupInIndex(index, reverse)
    ensures Resolve(index, reverse, code).Err? ==>
              code in index && index[code].status != Ignore
              && (LabelKey(index[code]).None?
                  || (index[code].status == Deprecated && index[code].databaseId == "")
                  || index[code].ontologyId.None?
                  || (index[code].status == Deprecated && Replaceable(index[code], LabelKey(index[code]).value, reverse)))
    ensures code in index && index[code].status != Ignore && LabelKey(index[code]).None? ==>
              Resolve(index, reverse, code).Err?
  {
  }

  // ---------------------------------------------------------------------
  // Facet letter to relation

  const HasPrimarySubstanceAdded := "&obo;FOODON_00001563"
  const PartOf := "&obo;RO_0001000"
  const HasQuality := "&obo;RO_0000086"
  const FormedAsResultOf := "&obo;RO_0002354"
  const HasSubstanceAdded := "&obo;FOODON_00001560"
  const ImmersedIn := "&obo;FOODON_00001301"
  const SurroundedBy := "&obo;PATO_0005016"
  const AdjacentTo := "&obo;RO_0002220"
  const HasConsumer := "&obo;FOODON_00001302"
  const HasCountryOfOrigin := "http://www.ebi.ac.uk/ancestro/ancestro_0308"

  /** The property of the restriction a resolved code contributes, by facet letter;
      facet A gives the parent instead, K0003 and letters LanguaL lacks give none. */
  function FacetRelation(ref: Ref): (r: Option<string>)
    ensures r.Some? ==> r.value != ""
  {
    match ref.category
    case 'B' => Some(HasPrimarySubstanceAdded)
    case 'C' => Some(PartOf)
    case 'E' => Some(HasQuality)
    case 'F' => Some(HasQuality)
    case 'G' => Some(FormedAsResultOf)
    case 'H' => if SliceFrom(ref.name, -6) == " added" then Some(HasSubstanceAdded) else Some(FormedAsResultOf)
    case 'J' => Some(FormedAsResultOf)
    case 'K' => if ref.code != "K0003" then Some(ImmersedIn) else None
    case 'M' => Some(SurroundedBy)
    case 'N' => Some(AdjacentTo)
    case 'P' => Some(HasConsumer)
    case 'R' => Some(HasCountryOfOrigin)
    case 'Z' => Some(HasQuality)
    case _ => None
  }

  /** A code yields a restriction exactly when its letter is one of LanguaL's
      facets other than A, and it is not the packing medium K0003. */
  lemma FacetRelationDomain(ref: Ref)
    ensures FacetRelation(ref).Some? <==>
              ref.category in FacetLetters && ref.category != 'A' && !(ref.category == 'K' && ref.code == "K0003")
  {
    var c := ref.category;
    if c in FacetLetters {
      var i :| 0 <= i < |FacetLetters| && FacetLetters[i] == c;
      assert c == 'A' || c == 'B' || c == 'C' || c == 'E' || c == 'F' || c == 'G' || c == 'H'
          || c == 'J' || c == 'K' || c == 'M' || c == 'N' || c == 'P' || c == 'R' || c == 'Z';
    } else {
      assert c != 'B' && c != 'C' && c != 'E' && c != 'F' && c != 'G' && c != 'H' && c != 'J';
      assert c != 'K' && c != 'M' && c != 'N' && c != 'P' && c != 'R' && c != 'Z';
    }
  }

  /** Treatments ending in " added" are substances added; other treatments, cooking
      and preservation methods are processes the food results from. */
  lemma FacetRelationTreatment(ref: Ref)
    requires ref.category == 'H'
    ensures FacetRelation(ref) == Some(HasSubstanceAdded) <==> SliceFrom(ref.name, -6) == " added"
    ensures FacetRelation(ref) == Some(FormedAsResultOf) <==> SliceFrom(ref.name, -6) != " added"
  {
  }

  // ---------------------------------------------------------------------
  // What `subset_entry_render` gathers from a row's codes

  /** An `owl:Restriction`: the property and the ontology id of its
      `someValuesFrom` filler. */
  datatype Restriction = Restriction(property: string, filler: string)

  /** Every code of a row is a word, as `split()` gives them. */
  predicate Codes(codes: seq<string>) {
    forall i :: 0 <= i < |codes| ==> codes[i] != ""
  }

  /** The codes of a row resolved in order, skipped ones left out, or the first
      error. */
  function Facets(index: map<string, Entity>, reverse: map<string, string>, codes: seq<string>): (r: Result<seq<Ref>>)
    requires LookupInIndex(index, reverse) && Codes(codes)
    ensures r.Ok? ==> |r.value| <= |codes| && forall k :: 0 <= k < |r.value| ==> r.value[k].code in codes
    decreases |codes|
  {
    if codes == [] then Ok([])
    else
      var prefix, code := codes[..|codes| - 1], codes[|codes| - 1];
      match Facets(index, reverse, prefix)
      case Err(m) => Err(m)
      case Ok(refs) =>
        match Resolve(index, reverse, code)
        case Err(m) => Err(m)
        case Ok(None) => Ok(refs)
        case Ok(Some(ref)) => Ok(refs + [ref])
  }

  /** `subClassOfId` after the loop: the ontology id of the last facet A code. */
  function ParentOf(refs: seq<Ref>): Option<string> {
    if refs == [] then None
    else if refs[|refs| - 1].category == 'A' then Some(refs[|refs| - 1].ontologyId)
    else ParentOf(refs[..|refs| - 1])
  }

  /** The restrictions in the order their codes appear. */
  function Restrictions(refs: seq<Ref>): seq<Restriction> {
    if refs == [] then []
    else
      var ref := refs[|refs| - 1];
      match FacetRelation(ref)
      case None => Restrictions(refs[..|refs| - 1])
      case Some(p) => Restrictions(refs[..|refs| - 1]) + [Restriction(p, ref.ontologyId)]
  }

  /** `counts[c]`, zero where the letter has not been counted yet. */
  function Count(counts: map<char, nat>, c: char): nat {
    if c in counts then counts[c] else 0
  }

  /** `counts[c] += 1`, starting from zero. */
  function Bump(counts: map<char, nat>, c: char): (r: map<char, nat>)
    ensures Count(r, c) == Count(counts, c) + 1
  {
    counts[c := Count(counts, c) + 1]
  }

  /** The per-facet statistics after counting each used code once. */
  function Bumped(counts: map<char, nat>, refs: seq<Ref>): map<char, nat> {
    if refs == [] then counts
    else Bump(Bumped(counts, refs[..|refs| - 1]), refs[|refs| - 1].category)
  }

  function Categories(refs: seq<Ref>): (r: seq<char>)
    ensures |r| == |refs| && forall k :: 0 <= k < |refs| ==> r[k] == refs[k].category
  {
    seq(|refs|, k requires 0 <= k < |refs| => refs[k].category)
  }

  /** The last facet A code wins: the parent is the ontology id of a facet A code
      after which no other facet A code follows, and there is none without one. */
  lemma {:induction false} LastAWins(refs: seq<Ref>)
    ensures ParentOf(refs).None? <==> forall k :: 0 <= k < |refs| ==> refs[k].category != 'A'
    ensures ParentOf(refs).Some? ==>
              exists k :: 0 <= k < |refs| && refs[k].category == 'A' && refs[k].ontologyId == ParentOf(refs).value
                          && forall j :: k < j < |refs| ==> refs[j].category != 'A'
  {
    if refs != [] {
      var prefix := refs[..|refs| - 1];
      LastAWins(prefix);
      assert forall k :: 0 <= k < |prefix| ==> prefix[k] == refs[k];
      if refs[|refs| - 1].category != 'A' && ParentOf(prefix).Some? {
        var k :| 0 <= k < |prefix| && prefix[k].category == 'A' && prefix[k].ontologyId == ParentOf(prefix).value
                 && forall j :: k < j < |prefix| ==> prefix[j].category != 'A';
        assert refs[k] == prefix[k];
      }
    }
  }

  /** A restriction is there exactly when some used code yields its property and
      points at its filler. */
  lemma {:induction false} RestrictionsFromCodes(refs: seq<Ref>, p: string, f: string)
    ensures Restriction(p, f) in Restrictions(refs) <==>
              exists k :: 0 <= k < |refs| && FacetRelation(refs[k]) == Some(p) && refs[k].ontologyId == f
  {
    if refs != [] {
      var prefix := refs[..|refs| - 1];
      RestrictionsFromCodes(prefix, p, f);
      assert forall k :: 0 <= k < |prefix| ==> prefix[k] == refs[k];
      if exists k :: 0 <= k < |refs| && FacetRelation(refs[k]) == Some(p) && refs[k].ontologyId == f {
        var k :| 0 <= k < |refs| && FacetRelation(refs[k]) == Some(p) && refs[k].ontologyId == f;
        if k < |prefix| {
          assert prefix[k] == refs[k];
        }
      }
    }
  }

  /** Each used code adds one to the count of its facet letter: the counts grow by
      the multiset of the letters. */
  lemma {:induction false} BumpedCounts(counts: map<char, nat>, refs: seq<Ref>, c: char)
    ensures Count(Bumped(counts, refs), c) == Count(counts, c) + multiset(Categories(refs))[c]
    ensures c in Bumped(counts, refs) <==> c in counts || c in Categories(refs)
  {
    if refs != [] {
      var prefix := refs[..|refs| - 1];
      BumpedCounts(counts, prefix, c);
      assert Categories(refs) == Categories(prefix) + [refs[|refs| - 1].category];
    }
  }

  // ---------------------------------------------------------------------
  // Label and definition

  /** The label with `<` and `>` escaped for XML. */
  function Escaped(name: string): string {
    ReplaceAll(ReplaceAll(name, "<", "&lt;"), ">", "&gt;")
  }

  /** The class label and definition: split at the first comma into "head (rest)"
      and "head: rest"; without a comma an English subset calls the food a
      "(food product)" unless its name already says "product". */
  function FormatLabel(name: string, language: string): (r: (string, string))
  {
    var text := Escaped(name);
    var k := Find(text, ",");
    if k >= 0 then
      var head, rest := Lower(text[..k]), Strip(text[k + 1..]);
      (head + " (" + rest + ")", head + ": " + rest)
    else
      var head := Lower(text);
      var title := if Contains(language, "en") && !Contains(head, "product") then head + " (food product)" else head;
      (title, title)
  }

  /** The escaped text has no angle brackets left. */
  lemma EscapedNoBrackets(name: string)
    ensures '<' !in Escaped(name) && '>' !in Escaped(name)
  {
    var once := ReplaceAll(name, "<", "&lt;");
    ReplaceAllRemoves(name, '<', "&lt;");
    ReplaceAllKeepsOut(once, ">", "&gt;", '<');
    ReplaceAllRemoves(once, '>', "&gt;");
  }

  /** Split at the FIRST comma: for any decomposition of the escaped name into a
      comma-free head, a comma and the rest, the label is "head (rest)" and the
      definition "head: rest", the rest stripped. */
  lemma FormatLabelSplit(name: string, language: string, head: string, rest: string)
    requires Escaped(name) == head + "," + rest && ',' !in head
    ensures FormatLabel(name, language) == (Lower(head) + " (" + Strip(rest) + ")", Lower(head) + ": " + Strip(rest))
  {
    var text := Escaped(name);
    FindAfterField(head, ',', rest);
    assert text == head + [','] + rest;
    assert text[..|head|] == head && text[|head| + 1..] == rest;
  }

  /** Without a comma the label and the definition are the lowercased name, with
      " (food product)" appended exactly when the language mentions "en" and the
      name does not mention "product". */
  lemma FormatLabelWhole(name: string, language: string)
    requires ',' !in Escaped(name)
    ensures var r := FormatLabel(name, language);
            r.0 == r.1
            && (r.0 == Lower(Escaped(name)) + " (food product)" <==>
                  Contains(language, "en") && !Contains(Lower(Escaped(name)), "product"))
            && (r.0 == Lower(Escaped(name)) <==> !(Contains(language, "en") && !Contains(Lower(Escaped(name)), "product")))
  {
    FindAbsent(Escaped(name), ',');
    var head := Lower(Escaped(name));
    assert |head + " (food product)"| != |head|;
  }

  // ---------------------------------------------------------------------
  // One generated class

  /** What the generator states about one food: its FoodOn id, the source id it
      came from (the database cross-reference), label, definition, the facet A
      parent and the facet restrictions. */
  datatype SubsetClass = SubsetClass(
    id: string,
    importId: string,
    title: string,
    definition: string,
    parent: Option<string>,
    restrictions: seq<Restriction>)

  /** `if subClassOfId:` writes a parent only for a non-empty id. */
  function Emitted(parent: Option<string>): Option<string> {
    if parent.Some? && parent.value != "" then parent else None
  }

  /** `subset_entry_render` as a value: the class for a row with its new id, and
      the used codes (which the statistics count), or the error that stops Python. */
  function RenderedClass(index: map<string, Entity>, reverse: map<string, string>, row: Row, id: string, language: string)
    : (r: Result<(SubsetClass, seq<Ref>)>)
    requires LookupInIndex(index, reverse) && Codes(row.langualIds)
    ensures r.Ok? ==> r.value.0.id == id && r.value.0.importId == row.importId
    ensures r.Ok? <==> Facets(index, reverse, row.langualIds).Ok?
  {
    match Facets(index, reverse, row.langualIds)
    case Err(m) => Err(m)
    case Ok(refs) =>
      var (title, definition) := FormatLabel(row.name, language);
      Ok((SubsetClass(id, row.importId, title, definition, Emitted(ParentOf(refs)), Restrictions(refs)), refs))
  }

  // ---------------------------------------------------------------------
  // The whole table

  /** The rows of the table that the generator uses, in order. */
  function AcceptedRows(lines: seq<string>): (rows: seq<Row>)
    ensures |rows| <= |lines|
    ensures forall k :: 0 <= k < |rows| ==> Codes(rows[k].langualIds)
  {
    if lines == [] then []
    else
      var rows := AcceptedRows(lines[..|lines| - 1]);
      match AcceptRow(lines[|lines| - 1])
      case None => rows
      case Some(row) => rows + [row]
  }

  /** The class for a used row, or the error that stops Python: an id without a
      non-zero digit, or a code that cannot be rendered. */
  function RowClass(index: map<string, Entity>, reverse: map<string, string>, row: Row, subsetIdStart: nat, language: string)
    : (r: Result<(SubsetClass, seq<Ref>)>)
    requires LookupInIndex(index, reverse) && Codes(row.langualIds)
    ensures r.Ok? ==> GetNewSubsetId(row.importId, subsetIdStart) == Ok(r.value.0.id) && r.value.0.importId == row.importId
    ensures r.Ok? <==> GetNewSubsetId(row.importId, subsetIdStart).Ok? && Facets(index, reverse, row.langualIds).Ok?
  {
    match GetNewSubsetId(row.importId, subsetIdStart)
    case Err(m) => Err(m)
    case Ok(id) => RenderedClass(index, reverse, row, id, language)
  }

  /** A line of the table: not used, or the class of its row, or the error that
      stops Python. */
  function LineClass(index: map<string, Entity>, reverse: map<string, string>, line: string, subsetIdStart: nat, language: string)
    : (r: Result<Option<(SubsetClass, seq<Ref>)>>)
    requires LookupInIndex(index, reverse)
    ensures r.Ok? && r.value.None? <==> AcceptRow(line).None?
  {
    match AcceptRow(line)
    case None => Ok(None)
    case Some(row) =>
      match RowClass(index, reverse, row, subsetIdStart, language)
      case Err(m) => Err(m)
      case Ok(x) => Ok(Some(x))
  }

  /** The classes of the used rows and all the codes they used, or the first
      error. */
  function Generated(index: map<string, Entity>, reverse: map<string, string>, rows: seq<Row>, subsetIdStart: nat, language: string)
    : (r: Result<(seq<SubsetClass>, seq<Ref>)>)
    requires LookupInIndex(index, reverse) && forall k :: 0 <= k < |rows| ==> Codes(rows[k].langualIds)
    decreases |rows|
  {
    if rows == [] then Ok(([], []))
    else
      match Generated(index, reverse, rows[..|rows| - 1], subsetIdStart, language)
      case Err(m) => Err(m)
      case Ok((classes, refs)) =>
        match RowClass(index, reverse, rows[|rows| - 1], subsetIdStart, language)
        case Err(m) => Err(m)
        case Ok((c, used)) => Ok((classes + [c], refs + used))
  }

  /** One class per used row, in row order, each with the subset id of its row's
      source id and that id as its cross-reference. */
  lemma {:induction false} GeneratedRows(index: map<string, Entity>, reverse: map<string, string>, rows: seq<Row>, subsetIdStart: nat, language: string)
    requires LookupInIndex(index, reverse) && forall k :: 0 <= k < |rows| ==> Codes(rows[k].langualIds)
    ensures var r := Generated(index, reverse, rows, subsetIdStart, language);
            r.Ok? ==>
              |r.value.0| == |rows|
              && forall k :: 0 <= k < |rows| ==>
                   GetNewSubsetId(rows[k].importId, subsetIdStart) == Ok(r.value.0[k].id)
                   && r.value.0[k].importId == rows[k].importId
    decreases |rows|
  {
    if rows != [] {
      var prefix, row := rows[..|rows| - 1], rows[|rows| - 1];
      GeneratedRows(index, reverse, prefix, subsetIdStart, language);
      var r := Generated(index, reverse, rows, subsetIdStart, language);
      if r.Ok? {
        var r0 := Generated(index, reverse, prefix, subsetIdStart, language);
        var rc := RowClass(index, reverse, row, subsetIdStart, language);
        assert r0.Ok? && rc.Ok?;
        var cs, cs0, c := r.value.0, r0.value.0, rc.value.0;
        assert cs == cs0 + [c];
        assert |cs0| == |prefix|;
        forall k | 0 <= k < |rows|
          ensures GetNewSubsetId(rows[k].importId, subsetIdStart) == Ok(cs[k].id)
          ensures cs[k].importId == rows[k].importId
        {
          if k < |prefix| {
            assert rows[k] == prefix[k] && cs[k] == cs0[k];
          } else {
            assert k == |cs0|;
            assert rows[k] == row && cs[k] == c;
          }
        }
      }
    }
  }

  /** A used row whose id has a non-zero digit and whose codes all render. */
  predicate RowRenders(index: map<string, Entity>, reverse: map<string, string>, row: Row)
    requires LookupInIndex(index, reverse) && Codes(row.langualIds)
  {
    DecimalValue(DigitsOf(row.importId)) != 0 && Facets(index, reverse, row.langualIds).Ok?
  }

  /** Every used row of the table renders. */
  predicate AllRender(index: map<string, Entity>, reverse: map<string, string>, rows: seq<Row>)
    requires LookupInIndex(index, reverse) && forall k :: 0 <= k < |rows| ==> Codes(rows[k].langualIds)
  {
    forall k :: 0 <= k < |rows| ==> RowRenders(index, reverse, rows[k])
  }

  lemma RowClassOk(index: map<string, Entity>, reverse: map<string, string>, row: Row, subsetIdStart: nat, language: string)
    requires LookupInIndex(index, reverse) && Codes(row.langualIds)
    ensures RowClass(index, reverse, row, subsetIdStart, language).Ok? <==> RowRenders(index, reverse, row)
  {
    SubsetIdFails(row.importId, subsetIdStart);
  }

  lemma GeneratedStep(index: map<string, Entity>, reverse: map<string, string>, rows: seq<Row>, subsetIdStart: nat, language: string)
    requires LookupInIndex(index, reverse) && forall k :: 0 <= k < |rows| ==> Codes(rows[k].langualIds)
    requires rows != []
    ensures Generated(index, reverse, rows, subsetIdStart, language).Ok? <==>
              Generated(index, reverse, rows[..|rows| - 1], subsetIdStart, language).Ok?
              && RowClass(index, reverse, rows[|rows| - 1], subsetIdStart, language).Ok?
  {
  }

  /** A table is generated without error exactly when every used row has an id
      with a non-zero digit and codes that all render. */
  lemma {:induction false} GeneratedSucceeds(index: map<string, Entity>, reverse: map<string, string>, rows: seq<Row>, subsetIdStart: nat, language: string)
    requires LookupInIndex(index, reverse) && forall k :: 0 <= k < |rows| ==> Codes(rows[k].langualIds)
    ensures Generated(index, reverse, rows, subsetIdStart, language).Ok? <==> AllRender(index, reverse, rows)
    decreases |rows|
  {
    if rows != [] {
      var prefix, row := rows[..|rows| - 1], rows[|rows| - 1];
      GeneratedSucceeds(index, reverse, prefix, subsetIdStart, language);
      RowClassOk(index, reverse, row, subsetIdStart, language);
      GeneratedStep(index, reverse, rows, subsetIdStart, language);
      AllRowsSplit(index, reverse, rows);
    }
  }

  lemma AllRowsSplit(index: map<string, Entity>, reverse: map<string, string>, rows: seq<Row>)
    requires LookupInIndex(index, reverse) && forall k :: 0 <= k < |rows| ==> Codes(rows[k].langualIds)
    requires rows != []
    ensures AllRender(index, reverse, rows) <==>
              AllRender(index, reverse, rows[..|rows| - 1]) && RowRenders(index, reverse, rows[|rows| - 1])
  {
    var prefix := rows[..|rows| - 1];
    assert forall k :: 0 <= k < |prefix| ==> prefix[k] == rows[k];
  }

  // ---------------------------------------------------------------------
  // Loading the database

  /** The key order of an `OrderedDict` after assigning `keys` in turn: a key it
      already holds keeps its place, a new key goes to the end. */
  function Appended(order: seq<string>, keys: seq<string>): (r: seq<string>)
    ensures |order| <= |r| && r[..|order|] == order
  {
    if keys == [] then order
    else
      var o := Appended(order, keys[..|keys| - 1]);
      if keys[|keys| - 1] in o then o else o + [keys[|keys| - 1]]
  }

  /** The order after the merge starts with the old order, lists each key of
      either dictionary, and lists none twice. */
  lemma {:induction false} AppendedOrder(order: seq<string>, keys: seq<string>)
    requires forall i, j :: 0 <= i < j < |order| ==> order[i] != order[j]
    ensures var o := Appended(order, keys);
            o[..|order|] == order
            && (forall k :: k in o <==> k in order || k in keys)
            && forall i, j :: 0 <= i < j < |o| ==> o[i] != o[j]
  {
    if keys != [] {
      var prefix := keys[..|keys| - 1];
      AppendedOrder(order, prefix);
      assert forall k :: k in keys <==> k in prefix || k == keys[|keys| - 1];
    }
  }

  lemma AppendedStep(order: seq<string>, keys: seq<string>, i: nat)
    requires i < |keys|
    ensures var o := Appended(order, keys[..i]);
            Appended(order, keys[..i + 1]) == if keys[i] in o then o else o + [keys[i]]
    ensures forall k :: k in keys[..i + 1] <==> k in keys[..i] || k == keys[i]
  {
    assert keys[..i + 1][..i] == keys[..i];
    assert keys[..i + 1] == keys[..i] + [keys[i]];
  }

  /** The index after assigning the entries of `keys` into `main`. */
  ghost predicate MergedSoFar(main: map<string, Entity>, facetA: map<string, Entity>, keys: seq<string>, index: map<string, Entity>)
    requires forall k :: k in keys ==> k in facetA
  {
    (forall k :: k in index <==> k in main || k in keys)
    && forall k :: k in index ==> index[k] == if k in keys then facetA[k] else main[k]
  }

  lemma MergedStep(main: map<string, Entity>, facetA: map<string, Entity>, keys: seq<string>, i: nat, index: map<string, Entity>)
    requires i < |keys| && forall k :: k in keys ==> k in facetA
    requires MergedSoFar(main, facetA, keys[..i], index)
    ensures MergedSoFar(main, facetA, keys[..i + 1], index[keys[i] := facetA[keys[i]]])
  {
    assert keys[..i + 1] == keys[..i] + [keys[i]];
  }

  lemma MergedAll(main: map<string, Entity>, facetA: map<string, Entity>, keys: seq<string>, index: map<string, Entity>)
    requires forall k :: k in keys <==> k in facetA
    requires MergedSoFar(main, facetA, keys, index)
    ensures index == main + facetA
  {
  }

  /** The index merge of `get_database_JSON`: every Product Type entry is
      assigned into the main index in its own order, so on a shared key the
      Product Type entity wins, and new keys join the end of the order. */
  method MergeIndex(main: map<string, Entity>, mainOrder: seq<string>, facetA: map<string, Entity>, aOrder: seq<string>)
    returns (index: map<string, Entity>, order: seq<string>)
    requires IndexOrdered(main, mainOrder) && IndexOrdered(facetA, aOrder)
    ensures index == main + facetA
    ensures order == Appended(mainOrder, aOrder)
    ensures IndexOrdered(index, order)
  {
    index, order := main, mainOrder;
    for i := 0 to |aOrder|
      invariant order == Appended(mainOrder, aOrder[..i])
      invariant forall k :: k in index <==> k in order
      invariant MergedSoFar(main, facetA, aOrder[..i], index)
    {
      var key := aOrder[i];
      AppendedStep(mainOrder, aOrder, i);
      MergedStep(main, facetA, aOrder, i, index);
      if key !in index {
        order := order + [key];
      }
      index := index[key := facetA[key]];
    }
    assert aOrder[..|aOrder|] == aOrder;
    MergedAll(main, facetA, aOrder, index);
    AppendedOrder(mainOrder, aOrder);
  }

  // ---------------------------------------------------------------------
  // The generator

  /** The `Langual` object of the subset script: the merged database, the
      reverse label lookup, the per-facet statistics (kept across the subsets
      generated with one object) and the id offset of the current subset. */
  class SubsetGenerator {
    var index: map<string, Entity>
    var order: seq<string>
    /** `label_reverse_lookup`: lowercased label to database id. */
    var reverse: map<string, string>
    var counts: map<char, nat>
    var subsetIdStart: nat

    /** The reverse lookup holds eligible entities under their own labels. */
    ghost predicate Valid()
      reads this`index, this`order, this`reverse
    {
      IndexOrdered(index, order)
      && LookupInIndex(index, reverse)
      && forall l :: l in reverse ==> Eligible(index, reverse[l]) && LabelKey(index[reverse[l]]) == Some(l)
    }

    constructor ()
      ensures Valid()
      ensures index == map[] && order == [] && reverse == map[] && counts == map[]
    {
      index, order, reverse, counts, subsetIdStart := map[], [], map[], map[], 0;
    }

    /** `get_database_JSON`: merge the Product Type index into the main index, then
        enter every eligible entity under its lowercased label. */
    method Load(main: map<string, Entity>, mainOrder: seq<string>, facetA: map<string, Entity>, aOrder: seq<string>)
      returns (ok: bool)
      requires IndexOrdered(main, mainOrder) && IndexOrdered(facetA, aOrder)
      modifies this`index, this`order, this`reverse
      ensures index == main + facetA && order == Appended(mainOrder, aOrder)
      ensures ok ==> Valid()
      ensures ok ==> forall i :: 0 <= i < |order| && Eligible(index, order[i]) ==>
                       LabelKey(index[order[i]]).Some? && LabelKey(index[order[i]]).value in reverse
      ensures ok ==> forall l :: l in reverse ==> exists i :: LastLabelled(index, order, i, l) && order[i] == reverse[l]
      ensures !ok ==> exists i :: 0 <= i < |order| && Unlabelled(index, order[i])
    {
      index, order := MergeIndex(main, mainOrder, facetA, aOrder);
      reverse, ok := BuildLabelReverseLookup(index, order);
    }

    /** `__main__` for one subset: read the table line by line, give each used
        row its subset id and render it; Python stops at the first error. */
    method Generate(lines: seq<string>, start: nat, language: string) returns (r: Result<seq<SubsetClass>>)
      requires Valid()
      modifies this`counts, this`subsetIdStart
      ensures subsetIdStart == start
      ensures var spec := Generated(index, reverse, AcceptedRows(lines), start, language);
              (spec.Ok? ==> r == Ok(spec.value.0) && counts == Bumped(old(counts), spec.value.1))
              && (spec.Err? ==> r == Err(spec.reason))
    {
      subsetIdStart := start;
      ghost var counts0, idx, rev := counts, index, reverse;
      ghost var refs: seq<Ref> := [];
      var classes: seq<SubsetClass> := [];
      for i := 0 to |lines|
        invariant subsetIdStart == start && index == idx && reverse == rev
        invariant Generated(idx, rev, AcceptedRows(lines[..i]), start, language) == Ok((classes, refs))
        invariant counts == Bumped(counts0, refs)
      {
        var line := lines[i];
        var c := GenerateLine(line, language);
        GenerateStep(idx, rev, lines, i, start, language, classes, refs);
        if c.Err? {
          GeneratedStops(idx, rev, lines, i + 1, start, language);
          return Err(c.reason);
        }
        if c.value.Some? {
          ghost var used := LineClass(idx, rev, line, start, language).value.value.1;
          BumpedAppend(counts0, refs, used);
          classes := classes + [c.value.value];
          refs := refs + used;
        }
      }
      assert lines[..|lines|] == lines;
      r := Ok(classes);
    }

    /** One line of the table: skipped, or the class of the row it holds. */
    method GenerateLine(line: string, language: string) returns (r: Result<Option<SubsetClass>>)
      requires Valid()
      modifies this`counts
      ensures var spec := LineClass(index, reverse, line, subsetIdStart, language);
              (spec.Ok? && spec.value.None? ==> r == Ok(None) && counts == old(counts))
              && (spec.Ok? && spec.value.Some? ==> r == Ok(Some(spec.value.value.0)) && counts == Bumped(old(counts), spec.value.value.1))
              && (spec.Err? ==> r == Err(spec.reason))
    {
      var row := AcceptRow(line);
      if row.None? {
        return Ok(None);
      }
      var c := RenderRow(row.value, language);
      if c.Err? {
        return Err(c.reason);
      }
      r := Ok(Some(c.value));
    }

    /** A used row: its subset id, then its class. */
    method RenderRow(row: Row, language: string) returns (r: Result<SubsetClass>)
      requires Valid() && Codes(row.langualIds)
      modifies this`counts
      ensures var spec := RowClass(index, reverse, row, subsetIdStart, language);
              (spec.Ok? ==> r == Ok(spec.value.0) && counts == Bumped(old(counts), spec.value.1))
              && (spec.Err? ==> r == Err(spec.reason))
    {
      var id := GetNewSubsetId(row.importId, subsetIdStart);
      if id.Err? {
        return Err(id.reason);
      }
      r := SubsetEntryRender(row, id.value, language);
    }

    /** `subset_entry_render` for a row with its new id: the facets of its codes,
        then the label and definition. */
    method SubsetEntryRender(row: Row, id: string, language: string) returns (r: Result<SubsetClass>)
      requires Valid() && Codes(row.langualIds)
      modifies this`counts
      ensures var spec := RenderedClass(index, reverse, row, id, language);
              (spec.Ok? ==> r == Ok(spec.value.0) && counts == Bumped(old(counts), spec.value.1))
              && (spec.Err? ==> r == Err(spec.reason))
    {
      var facets := RenderFacets(row.langualIds);
      if facets.Err? {
        return Err(facets.reason);
      }
      var (parent, restrictions) := facets.value;
      var (title, definition) := FormatLabel(row.name, language);
      r := Ok(SubsetClass(id, row.importId, title, definition, Emitted(parent), restrictions));
    }

    /** The loop of `subset_entry_render` over a row's codes: resolve each code,
        count it, take a facet A code as the parent and turn the others into
        restrictions. */
    method RenderFacets(codes: seq<string>) returns (r: Result<(Option<string>, seq<Restriction>)>)
      requires Valid() && Codes(codes)
      modifies this`counts
      ensures var spec := Facets(index, reverse, codes);
              (spec.Ok? ==> r == Ok((ParentOf(spec.value), Restrictions(spec.value))) && counts == Bumped(old(counts), spec.value))
              && (spec.Err? ==> r == Err(spec.reason))
    {
      ghost var counts0, idx, rev := counts, index, reverse;
      ghost var refs: seq<Ref> := [];
      var parent: Option<string> := None;
      var restrictions: seq<Restriction> := [];
      for i := 0 to |codes|
        invariant index == idx && reverse == rev
        invariant Facets(idx, rev, codes[..i]) == Ok(refs)
        invariant parent == ParentOf(refs) && restrictions == Restrictions(refs)
        invariant counts == Bumped(counts0, refs)
      {
        var resolved := Resolve(index, reverse, codes[i]);
        FacetsStep(idx, rev, codes, i, refs);
        if resolved.Err? {
          FacetsStopsAt(idx, rev, codes, i + 1);
          return Err(resolved.reason);
        }
        if resolved.value.Some? {
          var ref := resolved.value.value;
          RefsStep(counts0, refs, ref);
          counts := Bump(counts, ref.category);
          if ref.category == 'A' {
            parent := Some(ref.ontologyId);
          }
          var relation := FacetRelation(ref);
          if relation.Some? {
            restrictions := restrictions + [Restriction(relation.value, ref.ontologyId)];
          }
          refs := refs + [ref];
        }
      }
      assert codes[..|codes|] == codes;
      r := Ok((parent, restrictions));
    }
  }

  lemma FacetsStep(index: map<string, Entity>, reverse: map<string, string>, codes: seq<string>, i: nat, refs: seq<Ref>)
    requires LookupInIndex(index, reverse) && Codes(codes) && i < |codes|
    requires Facets(index, reverse, codes[..i]) == Ok(refs)
    ensures Facets(index, reverse, codes[..i + 1]) ==
              match Resolve(index, reverse, codes[i])
              case Err(m) => Err(m)
              case Ok(None) => Ok(refs)
              case Ok(Some(ref)) => Ok(refs + [ref])
  {
    assert codes[..i + 1][..i] == codes[..i];
  }

  lemma RefsStep(counts: map<char, nat>, refs: seq<Ref>, ref: Ref)
    ensures ParentOf(refs + [ref]) == if ref.category == 'A' then Some(ref.ontologyId) else ParentOf(refs)
    ensures Restrictions(refs + [ref]) ==
              if FacetRelation(ref).Some? then Restrictions(refs) + [Restriction(FacetRelation(ref).value, ref.ontologyId)]
              else Restrictions(refs)
    ensures Bumped(counts, refs + [ref]) == Bump(Bumped(counts, refs), ref.category)
  {
    assert (refs + [ref])[..|refs|] == refs;
  }

  /** An error at a code is the error of every longer prefix of the codes. */
  lemma {:induction false} FacetsStopsAt(index: map<string, Entity>, reverse: map<string, string>, codes: seq<string>, n: nat)
    requires LookupInIndex(index, reverse) && Codes(codes) && 1 <= n <= |codes|
    requires Facets(index, reverse, codes[..n - 1]).Ok? && Resolve(index, reverse, codes[n - 1]).Err?
    ensures Facets(index, reverse, codes) == Err(Resolve(index, reverse, codes[n - 1]).reason)
    decreases |codes|
  {
    assert codes[..n][..n - 1] == codes[..n - 1];
    if n < |codes| {
      var prefix := codes[..|codes| - 1];
      assert prefix[..n - 1] == codes[..n - 1] && prefix[n - 1] == codes[n - 1];
      FacetsStopsAt(index, reverse, prefix, n);
    } else {
      assert codes[..|codes| - 1] == codes[..n - 1];
    }
  }

  lemma AcceptedStep(lines: seq<string>, i: nat)
    requires i < |lines|
    ensures AcceptedRows(lines[..i + 1]) ==
              match AcceptRow(lines[i])
              case None => AcceptedRows(lines[..i])
              case Some(row) => AcceptedRows(lines[..i]) + [row]
  {
    assert lines[..i + 1][..i] == lines[..i];
  }

  /** The used rows of a table are those of its first part followed by those of
      the rest. */
  lemma {:induction false} AcceptedRowsAppend(a: seq<string>, b: seq<string>)
    ensures AcceptedRows(a + b) == AcceptedRows(a) + AcceptedRows(b)
    decreases |b|
  {
    if b != [] {
      var b0, last := b[..|b| - 1], b[|b| - 1];
      AcceptedRowsAppend(a, b0);
      assert (a + b)[..|a + b| - 1] == a + b0 && (a + b)[|a + b| - 1] == last;
      var x := AcceptRow(last);
      assert AcceptedRows(a + b) == if x.Some? then AcceptedRows(a + b0) + [x.value] else AcceptedRows(a + b0);
      assert AcceptedRows(b) == if x.Some? then AcceptedRows(b0) + [x.value] else AcceptedRows(b0);
    } else {
      assert a + b == a;
    }
  }

  lemma GeneratedRowStep(index: map<string, Entity>, reverse: map<string, string>, rows: seq<Row>, row: Row, subsetIdStart: nat, language: string)
    requires LookupInIndex(index, reverse) && Codes(row.langualIds)
    requires forall k :: 0 <= k < |rows| ==> Codes(rows[k].langualIds)
    ensures forall k :: 0 <= k < |rows + [row]| ==> Codes((rows + [row])[k].langualIds)
    ensures Generated(index, reverse, rows + [row], subsetIdStart, language) ==
              match Generated(index, reverse, rows, subsetIdStart, language)
              case Err(m) => Err(m)
              case Ok((classes, refs)) =>
                match RowClass(index, reverse, row, subsetIdStart, language)
                case Err(m) => Err(m)
                case Ok((c, used)) => Ok((classes + [c], refs + used))
  {
    assert (rows + [row])[..|rows|] == rows;
  }

  /** Once a row fails, the table fails with the same error however many rows
      follow. */
  lemma {:induction false} GeneratedErrSticks(index: map<string, Entity>, reverse: map<string, string>, rows: seq<Row>, n: nat, subsetIdStart: nat, language: string)
    requires LookupInIndex(index, reverse) && forall k :: 0 <= k < |rows| ==> Codes(rows[k].langualIds)
    requires n <= |rows| && Generated(index, reverse, rows[..n], subsetIdStart, language).Err?
    ensures Generated(index, reverse, rows, subsetIdStart, language) == Generated(index, reverse, rows[..n], subsetIdStart, language)
    decreases |rows|
  {
    if n < |rows| {
      var prefix := rows[..|rows| - 1];
      assert prefix[..n] == rows[..n];
      GeneratedErrSticks(index, reverse, prefix, n, subsetIdStart, language);
    } else {
      assert rows[..n] == rows;
    }
  }

  /** An error in the first `n` lines is the error of the whole table. */
  lemma GeneratedStops(index: map<string, Entity>, reverse: map<string, string>, lines: seq<string>, n: nat, subsetIdStart: nat, language: string)
    requires LookupInIndex(index, reverse) && n <= |lines|
    requires Generated(index, reverse, AcceptedRows(lines[..n]), subsetIdStart, language).Err?
    ensures Generated(index, reverse, AcceptedRows(lines), subsetIdStart, language)
              == Generated(index, reverse, AcceptedRows(lines[..n]), subsetIdStart, language)
  {
    assert lines == lines[..n] + lines[n..];
    AcceptedRowsAppend(lines[..n], lines[n..]);
    var rows := AcceptedRows(lines);
    assert rows[..|AcceptedRows(lines[..n])|] == AcceptedRows(lines[..n]);
    GeneratedErrSticks(index, reverse, rows, |AcceptedRows(lines[..n])|, subsetIdStart, language);
  }

  /** Counting two runs of codes one after the other is counting them together. */
  lemma {:induction false} BumpedAppend(counts: map<char, nat>, a: seq<Ref>, b: seq<Ref>)
    ensures Bumped(counts, a + b) == Bumped(Bumped(counts, a), b)
    decreases |b|
  {
    if b != [] {
      var b0 := b[..|b| - 1];
      BumpedAppend(counts, a, b0);
      assert (a + b)[..|a + b| - 1] == a + b0 && (a + b)[|a + b| - 1] == b[|b| - 1];
    } else {
      assert a + b == a;
    }
  }

  /** One more line of the table. */
  lemma GenerateStep(index: map<string, Entity>, reverse: map<string, string>, lines: seq<string>, i: nat, subsetIdStart: nat, language: string,
                     classes: seq<SubsetClass>, refs: seq<Ref>)
    requires LookupInIndex(index, reverse) && i < |lines|
    requires Generated(index, reverse, AcceptedRows(lines[..i]), subsetIdStart, language) == Ok((classes, refs))
    ensures Generated(index, reverse, AcceptedRows(lines[..i + 1]), subsetIdStart, language) ==
              match LineClass(index, reverse, lines[i], subsetIdStart, language)
              case Err(m) => Err(m)
              case Ok(None) => Ok((classes, refs))
              case Ok(Some((c, used))) => Ok((classes + [c], refs + used))
  {
    AcceptedStep(lines, i);
    var row := AcceptRow(lines[i]);
    if row.Some? {
      GeneratedRowStep(index, reverse, AcceptedRows(lines[..i]), row.value, subsetIdStart, language);
    }
  }
}
