// The differential attribute records of the LanguaL term database
// (src/ontology/imports/langual/langual.py): every imported datum is kept as
// {value, import, locked, changed, language?}, and a fresh import is merged
// into the stored record field by field.
module AttributeStore {
  import opened Wrappers
  import opened PyStr

  /** One attribute record. `doImport` is the record's `import` flag; a missing
      `language` key is `None`. A `value` of JSON null is `None`. */
  datatype Attr = Attr(value: Option<string>, doImport: bool, locked: bool, changed: bool, language: Option<string>)

  /** A dictionary of attribute records (an entity's `is_a`, `xrefs`, `synonyms`,
      one `taxon` entry, or the entity's own attributes). */
  type Attrs = map<string, Attr>

  /** `set_attribute_diff(entity, key, value, language)`. */
  function SetAttributeDiff(m: Attrs, key: string, value: Option<string>, language: Option<string>): (r: Attrs)
    // no key is removed, and only `key` is touched
    ensures r.Keys == m.Keys + {key}
    ensures forall k :: k in m && k != key ==> r[k] == m[k]
    // a new key gets a fresh, importable, unlocked record
    ensures key !in m ==> r[key] == Attr(value, true, false, true, language)
    // `changed` says whether the candidate differed from what was stored
    ensures key in m ==> (r[key].changed <==> m[key].value != value)
    // the flags survive a merge, and so does a locked record's content
    ensures key in m ==> r[key].doImport == m[key].doImport && r[key].locked == m[key].locked
    ensures key in m && m[key].locked ==> r[key].value == m[key].value && r[key].language == m[key].language
    // an unlocked record takes the candidate; an equal candidate leaves the language alone
    ensures key in m && !m[key].locked ==> r[key].value == value
    ensures key in m && !m[key].locked && m[key].value != value ==>
              r[key].language == (if language.Some? then language else m[key].language)
    ensures key in m && m[key].value == value ==> r[key].language == m[key].language
  {
    if key !in m then
      m[key := Attr(value, true, false, true, language)]
    else if m[key].value != value then
      var a := m[key].(changed := true);
      if !a.locked then
        m[key := a.(value := value, language := if language.Some? then language else a.language)]
      else
        m[key := a]
    else
      m[key := m[key].(changed := false)]
  }

  /** A merge whose candidate equals the stored value changes nothing but the `changed` flag. */
  lemma MergeEqualIsNoop(m: Attrs, key: string, language: Option<string>)
    requires key in m
    ensures SetAttributeDiff(m, key, m[key].value, language) == m[key := m[key].(changed := false)]
  {
  }

  /** Importing the same candidate twice: the second merge keeps the record and
      reports no change, except where a lock holds back a different value. */
  lemma MergeTwice(m: Attrs, key: string, value: Option<string>, language: Option<string>)
    ensures var r1 := SetAttributeDiff(m, key, value, language);
            var r2 := SetAttributeDiff(r1, key, value, language);
            r2.Keys == r1.Keys
            && (forall k :: k in r1 && k != key ==> r2[k] == r1[k])
            && r2[key].value == r1[key].value
            && r2[key].language == r1[key].language
            && (r2[key].changed <==> key in m && m[key].locked && m[key].value != value)
  {
  }

  /** One pending merge of a candidate into a key. */
  datatype Merge = Merge(key: string, value: Option<string>, language: Option<string>)

  /** The merges applied one after the other, as the importer does record by record. */
  function MergeAll(m: Attrs, merges: seq<Merge>): Attrs
    decreases |merges|
  {
    if merges == [] then m
    else MergeAll(SetAttributeDiff(m, merges[0].key, merges[0].value, merges[0].language), merges[1..])
  }

  /** The lock invariant over a whole import: a locked record keeps its value and
      language and stays locked, and no key is ever lost, whatever is merged. */
  lemma {:induction false} LockedSurvivesMerges(m: Attrs, merges: seq<Merge>, key: string)
    requires key in m && m[key].locked
    ensures key in MergeAll(m, merges)
    ensures MergeAll(m, merges)[key].locked
    ensures MergeAll(m, merges)[key].value == m[key].value
    ensures MergeAll(m, merges)[key].language == m[key].language
    decreases |merges|
  {
    if merges != [] {
      var m' := SetAttributeDiff(m, merges[0].key, merges[0].value, merges[0].language);
      LockedSurvivesMerges(m', merges[1..], key);
    }
  }

  /** Keys only accumulate over a sequence of merges. */
  lemma {:induction false} MergesKeepKeys(m: Attrs, merges: seq<Merge>)
    ensures m.Keys <= MergeAll(m, merges).Keys
    ensures forall i :: 0 <= i < |merges| ==> merges[i].key in MergeAll(m, merges)
    decreases |merges|
  {
    if merges != [] {
      var m' := SetAttributeDiff(m, merges[0].key, merges[0].value, merges[0].language);
      MergesKeepKeys(m', merges[1..]);
      forall i | 0 <= i < |merges| ensures merges[i].key in MergeAll(m, merges) {
        if i > 0 {
          assert merges[i] == merges[1..][i - 1];
        }
      }
    }
  }

  /** Every locked record is still there, locked, with its value and language. */
  ghost predicate LocksKept(m0: Attrs, m: Attrs) {
    (forall k :: k in m0 && m0[k].locked ==>
       k in m && m[k].locked && m[k].value == m0[k].value && m[k].language == m0[k].language)
    && NoNewLocks(m0, m)
  }

  /** An import never locks a record: only curators do. */
  ghost predicate NoNewLocks(m0: Attrs, m: Attrs) {
    forall k :: k in m && m[k].locked ==> k in m0 && m0[k].locked
  }

  lemma MergeKeepsLocks(m: Attrs, key: string, value: Option<string>, language: Option<string>)
    ensures LocksKept(m, SetAttributeDiff(m, key, value, language))
  {
  }

  lemma LocksKeptTrans(m0: Attrs, m1: Attrs, m2: Attrs)
    requires LocksKept(m0, m1) && LocksKept(m1, m2)
    ensures LocksKept(m0, m2)
  {
  }

  /** `term_import(entity, term)`: whether an attribute is written to the ontology file. */
  predicate TermImport(m: Attrs, term: string) {
    term in m && m[term].value.Some? && m[term].doImport
  }

  /** A record created by a merge with a real value is emitted; a merge into an
      existing record leaves the emit decision to that record's `import` flag. */
  lemma TermImportAfterMerge(m: Attrs, key: string, v: string, language: Option<string>)
    ensures key !in m ==> TermImport(SetAttributeDiff(m, key, Some(v), language), key)
    ensures key in m && !m[key].locked ==>
              (TermImport(SetAttributeDiff(m, key, Some(v), language), key) <==> m[key].doImport)
  {
  }

  /** The record the taxon write-back leaves as a "never look up again" marker. */
  const NoLookupMarker := Attr(None, false, false, false, None)

  lemma MarkerNotImported(m: Attrs, key: string)
    ensures !TermImport(m[key := NoLookupMarker], key)
  {
  }

  // ---------------------------------------------------------------------
  // load_attribute on a text string

  /** The 4 characters backslash, n, backslash, n that replace each `<DICTION>`. */
  const DictionBreak: string := ['\\', 'n', '\\', 'n']

  predicate OneLinerTag(tag: string) {
    tag == "<MANSFELD>" || tag == "<GRIN>" || tag == "<ITIS>"
  }

  /** The value found after the first occurrence of `tag` in `content`, or `None`
      when `tag` does not occur. */
  function LoadAttributeText(content: string, tag: string): (r: Option<string>)
    requires tag != ""
    ensures r.None? <==> !Contains(content, tag)
    ensures r.Some? && OneLinerTag(tag) ==> !Contains(r.value, "\n")
  {
    var ptr := Find(content, tag);
    if ptr < 0 then None
    else
      var v := ReplaceAll(Strip(content[ptr + |tag|..]), "<DICTION>", DictionBreak);
      if OneLinerTag(tag) then Some(FirstLine(v)) else Some(v)
  }

  /** `v.split('\n', 1)[0]` */
  function FirstLine(v: string): (r: string)
    ensures !Contains(r, "\n")
  {
    var parts := SplitOn(v, "\n");
    assert parts[0] in parts;
    parts[0]
  }

  /** Every `<DICTION>` after the tag is turned into the literal line-break marker. */
  lemma LoadAttributeTextNoDiction(content: string, tag: string)
    requires tag != "" && !OneLinerTag(tag) && Contains(content, tag)
    ensures !Contains(LoadAttributeText(content, tag).value, "<DICTION>")
  {
    ReplaceNoDiction(Strip(content[Find(content, tag) + |tag|..]));
  }

  lemma ReplaceNoDiction(s: string)
    ensures !Contains(ReplaceAll(s, "<DICTION>", DictionBreak), "<DICTION>")
  {
    ReplaceAllSplitsAndJoins(s, "<DICTION>", DictionBreak);
    JoinWithoutDiction(SplitOn(s, "<DICTION>"));
  }

  /** Gluing pieces free of `<DICTION>` with a separator that has no `<` gives a text free of it. */
  lemma {:induction false} JoinWithoutDiction(parts: seq<string>)
    requires forall p :: p in parts ==> !Contains(p, "<DICTION>")
    ensures !Contains(Join(parts, DictionBreak), "<DICTION>")
    decreases |parts|
  {
    if |parts| > 1 {
      JoinWithoutDiction(parts[1..]);
      NoTagAcross(parts[0], Join(parts[1..], DictionBreak));
    }
  }

  /** Neither side holds `<DICTION>` and the glue holds none of its characters,
      so no occurrence can straddle the glue. */
  lemma NoTagAcross(a: string, b: string)
    requires !Contains(a, "<DICTION>") && !Contains(b, "<DICTION>")
    ensures !Contains(a + DictionBreak + b, "<DICTION>")
  {
    ContainsIffOccurs(a + DictionBreak + b, "<DICTION>");
    forall i ensures !OccursAt(a + DictionBreak + b, "<DICTION>", i) {
      GlueClash(a, b, i);
    }
  }

  lemma GlueClash(a: string, b: string, i: int)
    requires !Contains(a, "<DICTION>") && !Contains(b, "<DICTION>")
    ensures !OccursAt(a + DictionBreak + b, "<DICTION>", i)
  {
    var tag := "<DICTION>";
    var s := a + DictionBreak + b;
    if 0 <= i && i + 9 <= |s| {
      var w := s[i..i + 9];
      if i + 9 <= |a| {
        assert w == a[i..i + 9];
        ContainsIffOccurs(a, tag);
        assert !OccursAt(a, tag, i);
      } else if i >= |a| + 4 {
        assert w == b[i - |a| - 4..i - |a| + 5];
        ContainsIffOccurs(b, tag);
        assert !OccursAt(b, tag, i - |a| - 4);
      } else {
        var j := if i < |a| then |a| else i;
        assert s[j] == DictionBreak[j - |a|];
        assert w[j - i] == s[j] != tag[j - i];
      }
    }
  }

  /** The attribute merge of `load_attribute(entity, text, tag, attribute, language)`:
      nothing is merged when the tag is missing. */
  function LoadAttributeTextInto(m: Attrs, content: string, tag: string, attribute: string, language: Option<string>): (r: Attrs)
    requires tag != ""
    ensures !Contains(content, tag) ==> r == m
    ensures Contains(content, tag) ==> r == SetAttributeDiff(m, attribute, LoadAttributeText(content, tag), language)
  {
    var v := LoadAttributeText(content, tag);
    if v.Some? then SetAttributeDiff(m, attribute, v, language) else m
  }

  /** Round trip: a clean value written right after the tag is read back exactly,
      when the tag opens with `<` and the text before it has none. */
  lemma LoadAttributeTextRoundTrip(before: string, tag: string, v: string)
    requires tag != "" && tag[0] == '<' && forall k :: 0 <= k < |before| ==> before[k] != '<'
    requires v == "" || (!IsSpace(v[0]) && !IsSpace(v[|v| - 1]))
    requires !Contains(v, "<DICTION>") && !Contains(v, "\n")
    ensures LoadAttributeText(before + tag + v, tag) == Some(v)
  {
    var content := before + tag + v;
    FindAfterClearPrefix(before, tag, v);
    assert content[|before| + |tag|..] == v;
    ReplaceAllAbsent(v, "<DICTION>", DictionBreak);
    if OneLinerTag(tag) {
      SplitOnAbsent(v, "\n");
    }
  }

  lemma SplitOnAbsent(s: string, sep: string)
    requires sep != "" && !Contains(s, sep)
    ensures SplitOn(s, sep) == [s]
  {
  }

  lemma FindAfterClearPrefix(before: string, tag: string, rest: string)
    requires tag != "" && tag[0] == '<' && forall k :: 0 <= k < |before| ==> before[k] != '<'
    ensures Find(before + tag + rest, tag) == |before|
  {
    var s := before + tag + rest;
    assert s[|before|..|before| + |tag|] == tag;
    assert OccursAt(s, tag, |before|);
    forall k | 0 <= k < |before| ensures !OccursAt(s, tag, k) {
      assert s[k] == before[k];
    }
  }
}
