// The Ancestro-to-GAZ rewrite of the ancestry import
// (src/ontology/imports/crossreference/ancestro/gaz_conversion.py): the
// ontology is one string, and each line of a tab-separated lookup table rewrites
// every quoted Ancestro IRI it names into a GAZ IRI, then cuts the first
// rdfs:label out of the class now about that GAZ IRI. Lines apply in order, each
// to the text the previous ones left. Reading and writing the files is left out:
// the text and the lines are parameters and the final text is the result.
module GazConversion {
  import opened Wrappers
  import opened PyStr

  const AncestroBase := "http://www.ebi.ac.uk/ancestro/"
  const OboBase := "http://purl.obolibrary.org/obo/"
  const ClassOpen := "<owl:Class rdf:about=\""
  const ClassClose := "</owl:Class>"
  const LabelOpen := "<rdfs:label"
  const LabelClose := "</rdfs:label>"

  /** A lookup line with no tab, or with more than one. */
  const TooFew := "ValueError: not enough values to unpack"
  const TooMany := "ValueError: too many values to unpack"

  /** One line of the lookup table: an Ancestro id and the GAZ id replacing it. */
  datatype Pair = Pair(search: string, replace: string)

  /** `(search, replace) = line.strip().split('\t')` */
  function ParseLine(line: string): (r: Result<Pair>)
  {
    var parts := SplitOn(Strip(line), "\t");
    if |parts| < 2 then Err(TooFew)
    else if |parts| > 2 then Err(TooMany)
    else Ok(Pair(parts[0], parts[1]))
  }

  /** Every quoted occurrence of the Ancestro IRI becomes the GAZ IRI. */
  function Renamed(text: string, pair: Pair): string {
    ReplaceAll(text, AncestroBase + pair.search + "\"", OboBase + pair.replace + "\"")
  }

  /** The label cut, with the script's raw indices: the class start, the class end
      searched from there, the first label searched from there, and the end of the
      closing label tag. A search from -1 starts at the last character, and a slice
      bound of -1 counts from the end. */
  function LabelDropped(text: string, iri: string): string {
    var startClass := Find(text, ClassOpen + iri);
    var endClass := FindFrom(text, ClassClose, startClass);
    var startLabel := FindFrom(text, LabelOpen, startClass);
    if startLabel < endClass then
      var endLabel := FindFrom(text, LabelClose, startLabel) + |LabelClose|;
      Slice(text, 0, startLabel) + SliceFrom(text, endLabel)
    else text
  }

  /** One line of the lookup table applied to the text. */
  function LineStep(text: string, line: string): Result<string> {
    match ParseLine(line)
    case Err(e) => Err(e)
    case Ok(pair) => Ok(LabelDropped(Renamed(text, pair), OboBase + pair.replace))
  }

  /** The lines applied in order; the first bad line stops the script. */
  function Converted(text: string, lines: seq<string>): Result<string> {
    if lines == [] then Ok(text)
    else match Converted(text, lines[..|lines| - 1])
      case Err(e) => Err(e)
      case Ok(t) => LineStep(t, lines[|lines| - 1])
  }

  // ---------------------------------------------------------------------
  // Properties

  /** A line is read exactly when, once stripped, it holds one tab. */
  lemma ParseLineParts(line: string)
    ensures ParseLine(line).Ok? <==> |SplitOn(Strip(line), "\t")| == 2
    ensures ParseLine(line).Ok? ==>
              Join([ParseLine(line).value.search, ParseLine(line).value.replace], "\t") == Strip(line)
  {
    if |SplitOn(Strip(line), "\t")| == 2 {
      SplitJoin(Strip(line), "\t");
    }
  }

  /** A line written as `search`, a tab and `replace` reads back as that pair. */
  lemma ParseLineRoundTrip(search: string, replace: string)
    requires search != "" && replace != ""
    requires !IsSpace(search[0]) && !IsSpace(replace[|replace| - 1])
    requires '\t' !in search && '\t' !in replace
    ensures ParseLine(search + "\t" + replace) == Ok(Pair(search, replace))
  {
    var line := search + "\t" + replace;
    assert line[0] == search[0] && line[|line| - 1] == replace[|replace| - 1];
    SplitAtTab(search, replace);
    SplitWithoutTab(replace);
  }

  lemma SplitAtTab(a: string, b: string)
    requires '\t' !in a
    ensures SplitOn(a + "\t" + b, "\t") == [a] + SplitOn(b, "\t")
  {
    var line := a + "\t" + b;
    assert OccursAt(line, "\t", |a|) by {
      assert line[|a|..|a| + 1] == "\t";
    }
    forall k | 0 <= k < |a| ensures !OccursAt(line, "\t", k) {
      assert line[k] == a[k];
    }
    assert line[|a| + 1..] == b && line[..|a|] == a;
  }

  lemma SplitWithoutTab(s: string)
    requires '\t' !in s
    ensures SplitOn(s, "\t") == [s]
  {
    forall k | 0 <= k < |s| ensures !OccursAt(s, "\t", k) {
      assert s[k] in s;
      assert s[k..k + 1] == [s[k]];
    }
  }

  /** The rename cuts the text at every quoted Ancestro IRI and glues the pieces back
      with the GAZ IRI; a text without the quoted Ancestro IRI is left as it is. */
  lemma RenamedCutsAndGlues(text: string, pair: Pair)
    ensures var quoted := AncestroBase + pair.search + "\"";
            Renamed(text, pair) == Join(SplitOn(text, quoted), OboBase + pair.replace + "\"")
            && Join(SplitOn(text, quoted), quoted) == text
    ensures !Contains(text, AncestroBase + pair.search + "\"") ==> Renamed(text, pair) == text
  {
    ReplaceAllSplitsAndJoins(text, AncestroBase + pair.search + "\"", OboBase + pair.replace + "\"");
  }

  /** A search from -1 finds nothing longer than one character. */
  lemma FindFromLast(text: string, pat: string)
    requires |pat| >= 2
    ensures FindFrom(text, pat, -1) == -1
  {
  }

  /** When the class is missing, or its first label comes after its end, the text
      is left as it is. */
  lemma LabelKept(text: string, iri: string)
    requires Find(text, ClassOpen + iri) == -1
             || FindFrom(text, LabelOpen, Find(text, ClassOpen + iri)) >= FindFrom(text, ClassClose, Find(text, ClassOpen + iri))
    ensures LabelDropped(text, iri) == text
  {
    if Find(text, ClassOpen + iri) == -1 {
      FindFromLast(text, ClassClose);
      FindFromLast(text, LabelOpen);
    }
  }

  /** When the class holds a closed label, exactly the span from its first label's
      opening tag through the end of the next closing tag is cut out. */
  lemma LabelCut(text: string, iri: string)
    requires var c := Find(text, ClassOpen + iri);
             var l := FindFrom(text, LabelOpen, c);
             c >= 0 && 0 <= l < FindFrom(text, ClassClose, c) && FindFrom(text, LabelClose, l) >= 0
    ensures var c := Find(text, ClassOpen + iri);
            var l := FindFrom(text, LabelOpen, c);
            var m := FindFrom(text, LabelClose, l) + |LabelClose|;
            c <= l < m <= |text|
            && OccursAt(text, LabelOpen, l) && OccursAt(text, LabelClose, m - |LabelClose|)
            && (forall k :: c <= k < l ==> !OccursAt(text, LabelOpen, k))
            && LabelDropped(text, iri) == text[..l] + text[m..]
  {
  }

  /** When the class and its end are found but no label follows the class start,
      the search for the label answers -1, which is less than the class end, so the
      cut still happens: with `text[0:-1] + text[12:]` the text loses its last
      character and gains a second copy of all but its first twelve. */
  lemma NoLabelSplice(text: string, iri: string)
    requires var c := Find(text, ClassOpen + iri);
             c >= 0 && FindFrom(text, ClassClose, c) >= 0 && FindFrom(text, LabelOpen, c) == -1
    ensures |text| > |LabelClose|
    ensures LabelDropped(text, iri) == text[..|text| - 1] + text[|LabelClose| - 1..]
    ensures |LabelDropped(text, iri)| == 2 * |text| - |LabelClose|
  {
    var c := Find(text, ClassOpen + iri);
    assert OccursAt(text, ClassOpen + iri, c);
    FindFromLast(text, LabelClose);
  }

  /** Lines apply one after the other: the lines of `a` and then those of `b` are the
      lines of `b` on the text the lines of `a` produce, and an error stops it. */
  lemma {:induction false} ConvertedAppend(text: string, a: seq<string>, b: seq<string>)
    ensures Converted(text, a + b) == match Converted(text, a)
                                      case Err(e) => Err(e)
                                      case Ok(t) => Converted(t, b)
  {
    if b == [] {
      assert a + b == a;
    } else {
      var init := b[..|b| - 1];
      ConvertedAppend(text, a, init);
      assert (a + b)[..|a + b| - 1] == a + init;
      assert (a + b)[|a + b| - 1] == b[|b| - 1];
    }
  }

  /** One more line. */
  lemma ConvertedNext(text: string, lines: seq<string>, k: nat, t: string)
    requires k < |lines| && Converted(text, lines[..k]) == Ok(t)
    ensures Converted(text, lines[..k + 1]) == LineStep(t, lines[k])
  {
    assert lines[..k + 1][..k] == lines[..k];
  }

  /** After a bad line, the rest of the lines are not read. */
  lemma ConvertedStops(text: string, lines: seq<string>, k: nat)
    requires k <= |lines| && Converted(text, lines[..k]).Err?
    ensures Converted(text, lines) == Converted(text, lines[..k])
  {
    ConvertedAppend(text, lines[..k], lines[k..]);
    assert lines[..k] + lines[k..] == lines;
  }

  // ---------------------------------------------------------------------
  // The script, in place

  /** The script: the lookup lines in order, each rewriting the ontology text. */
  method ConvertAncestro(ontology: string, lines: seq<string>) returns (r: Result<string>)
    ensures r == Converted(ontology, lines)
  {
    var text := ontology;
    for k := 0 to |lines|
      invariant Converted(ontology, lines[..k]) == Ok(text)
    {
      var next := ApplyLine(text, lines[k]);
      ConvertedNext(ontology, lines, k, text);
      if next.Err? {
        ConvertedStops(ontology, lines, k + 1);
        return next;
      }
      text := next.value;
    }
    assert lines[..|lines|] == lines;
    r := Ok(text);
  }

  /** One lookup line: read the pair, rename, then cut the label. */
  method ApplyLine(text: string, line: string) returns (r: Result<string>)
    ensures r == LineStep(text, line)
  {
    var parts := SplitOn(Strip(line), "\t");
    if |parts| != 2 {
      return Err(if |parts| < 2 then TooFew else TooMany);
    }
    var searchIri := AncestroBase + parts[0];
    var replaceIri := OboBase + parts[1];
    var ontology := ReplaceAll(text, searchIri + "\"", replaceIri + "\"");
    var startClass := Find(ontology, ClassOpen + replaceIri);
    var endClass := FindFrom(ontology, ClassClose, startClass);
    var startLabel := FindFrom(ontology, LabelOpen, startClass);
    if startLabel < endClass {
      var endLabel := FindFrom(ontology, LabelClose, startLabel) + |LabelClose|;
      ontology := Slice(ontology, 0, startLabel) + SliceFrom(ontology, endLabel);
    }
    return Ok(ontology);
  }
}
