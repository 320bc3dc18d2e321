// `get_ontology_id` of the LanguaL importer: a LanguaL code (facet letter and
// four digits) becomes a FoodOn id in the FOODON_034xxxxx-FOODON_0353xxxx range.
module OntologyIds {
  import opened Wrappers
  import opened PyStr

  /** The facet letters, in the order that gives their offset (D, I, L, O are not facets). */
  const FacetLetters: string := "ABCEFGHJKMNPRZ"

  /** `'ABCEFGHJKMNPRZ'.index(c)`, or -1 where Python raises ValueError. */
  function LetterIndex(c: char): (r: int)
    ensures -1 <= r < |FacetLetters|
    ensures r >= 0 ==> FacetLetters[r] == c
    ensures r == -1 <==> c !in FacetLetters
    ensures forall k :: 0 <= k < r ==> FacetLetters[k] != c
  {
    var r := Find(FacetLetters, [c]);
    assert forall k :: 0 <= k < |FacetLetters| ==> (OccursAt(FacetLetters, [c], k) <==> FacetLetters[k] == c) by {
      forall k | 0 <= k < |FacetLetters| ensures OccursAt(FacetLetters, [c], k) <==> FacetLetters[k] == c {
        assert FacetLetters[k..k + 1] == [FacetLetters[k]];
      }
    }
    r
  }

  /** `get_ontology_id(database_id)`: the reserved root `00000`, else the facet
      letter's offset added to 40 followed by characters 1 to 4 of the code. An empty
      code (IndexError) or a first character that is not a facet letter (ValueError)
      is an error. */
  function GetOntologyId(databaseId: string): (r: Result<string>)
    ensures r.Ok? <==> databaseId == "00000" || (databaseId != "" && databaseId[0] in FacetLetters)
    ensures r.Ok? ==> |r.value| >= 11 && r.value[..9] == "FOODON_03"
  {
    if databaseId == "00000" then Ok("FOODON_03400000")
    else if databaseId == "" then Err("IndexError: string index out of range")
    else
      var offset := LetterIndex(databaseId[0]);
      if offset < 0 then Err("ValueError: substring not found")
      else
        TwoDigits(40 + offset);
        Ok("FOODON_03" + Decimal(40 + offset) + Slice(databaseId, 1, 5))
  }

  lemma TwoDigits(n: nat)
    requires 10 <= n < 100
    ensures Decimal(n) == [DigitChar(n / 10), DigitChar(n % 10)]
  {
    assert Decimal(n) == Decimal(n / 10) + [DigitChar(n % 10)];
  }

  /** A LanguaL code: a facet letter followed by four digits. */
  predicate IsLangualCode(id: string) {
    |id| == 5 && id[0] in FacetLetters && AllDigits(id[1..])
  }

  /** The root code maps to the root of the range. */
  lemma RootId()
    ensures GetOntologyId("00000") == Ok("FOODON_03400000")
  {
  }

  /** For a LanguaL code the id is FOODON_ followed by eight digits whose value is
      3400000 + 10000 * (offset of the letter) + the code's number. */
  lemma LangualCodeId(id: string)
    requires IsLangualCode(id)
    ensures GetOntologyId(id).Ok?
    ensures var v := GetOntologyId(id).value;
            |v| == 15 && v[..7] == "FOODON_" && AllDigits(v[7..])
            && v[11..] == id[1..]
            && DecimalValue(v[7..]) == 3400000 + 10000 * LetterIndex(id[0]) + DecimalValue(id[1..])
  {
    var offset := LetterIndex(id[0]);
    var d := Decimal(40 + offset);
    assert Slice(id, 1, 5) == id[1..];
    var v := GetOntologyId(id).value;
    assert v == "FOODON_03" + d + id[1..];
    assert v[7..] == ("03" + d) + id[1..];
    NumberPart(offset, id[1..]);
  }

  lemma NumberPart(offset: nat, digits: string)
    requires offset < 14 && |digits| == 4 && AllDigits(digits)
    ensures AllDigits("03" + Decimal(40 + offset) + digits)
    ensures DecimalValue("03" + Decimal(40 + offset) + digits) == 3400000 + 10000 * offset + DecimalValue(digits)
  {
    var d := Decimal(40 + offset);
    TwoDigits(40 + offset);
    DecimalAppend("03", d);
    assert DecimalValue("03") == 3 by {
      assert "03"[..1] == "0";
    }
    assert Pow10(2) == 100;
    assert DecimalValue("03" + d) == 340 + offset;
    DecimalAppend("03" + d, digits);
    assert Pow10(4) == 10000;
  }

  /** Distinct LanguaL codes get distinct ids. */
  lemma LangualCodesInjective(a: string, b: string)
    requires IsLangualCode(a) && IsLangualCode(b) && a != b
    ensures GetOntologyId(a) != GetOntologyId(b)
  {
    if a[1..] != b[1..] {
      NumbersDiffer(a, b);
    } else {
      LettersDiffer(a, b);
    }
  }

  lemma NumbersDiffer(a: string, b: string)
    requires IsLangualCode(a) && IsLangualCode(b) && a[1..] != b[1..]
    ensures GetOntologyId(a) != GetOntologyId(b)
  {
    LangualCodeId(a);
    LangualCodeId(b);
  }

  lemma LettersDiffer(a: string, b: string)
    requires IsLangualCode(a) && IsLangualCode(b) && a[1..] == b[1..] && a != b
    ensures GetOntologyId(a) != GetOntologyId(b)
  {
    assert a == [a[0]] + a[1..] && b == [b[0]] + b[1..];
    assert LetterIndex(a[0]) != LetterIndex(b[0]);
    LangualCodeId(a);
    LangualCodeId(b);
  }

  /** `A0000` lands on the id reserved for the root `00000`. */
  lemma FirstCodeMeetsRoot()
    ensures GetOntologyId("A0000") == GetOntologyId("00000")
  {
    assert LetterIndex('A') == 0 by {
      assert FacetLetters[0] == 'A';
    }
    TwoDigits(40);
    assert Decimal(40) == "40";
    assert Slice("A0000", 1, 5) == "0000";
    assert "FOODON_03" + "40" + "0000" == "FOODON_03400000";
  }
}
