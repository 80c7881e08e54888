/**
 * `getStarTypeName`: the descriptive name the info panel shows for a
 * spectral class code such as "G2V" or "M5.5Ve". Only the first letter,
 * upper-cased, matters.
 */
module StarTypes {
  import opened Wrappers

  /** `toUpperCase` on one character, for the ASCII letters spectral codes use. */
  function UpperChar(c: char): char {
    if 'a' <= c <= 'z' then (c as int - 'a' as int + 'A' as int) as char else c
  }

  const UnknownStar: string := "Unknown Star"
  const PlainStar: string := "Star"

  /**
   * The `switch` on the upper-cased first letter. A missing code (`undefined`)
   * and the empty string are both falsy and give "Unknown Star".
   */
  function StarTypeName(spectralClass: Option<string>): string {
    if spectralClass.None? || spectralClass.value == [] then UnknownStar
    else match UpperChar(spectralClass.value[0])
      case 'O' => "Blue Supergiant"
      case 'B' => "Blue-white Giant"
      case 'A' => "Blue-white Star"
      case 'F' => "White Star"
      case 'G' => "Yellow Dwarf"
      case 'K' => "Orange Dwarf"
      case 'M' => "Red Dwarf"
      case 'D' => "White Dwarf"
      case 'L' => "Brown Dwarf"
      case 'T' => "Brown Dwarf"
      case 'Y' => "Brown Dwarf"
      case _ => PlainStar
  }

  /**
   * The same letter-to-name mapping written as a table. For a plain lookup
   * there is no more abstract statement to give; the table is a second
   * transcription, which SwitchMatchesTable checks letter for letter
   * against the switch, along with the "Star" default for unlisted letters.
   */
  const ClassNames: map<char, string> := map[
    'O' := "Blue Supergiant", 'B' := "Blue-white Giant", 'A' := "Blue-white Star",
    'F' := "White Star", 'G' := "Yellow Dwarf", 'K' := "Orange Dwarf",
    'M' := "Red Dwarf", 'D' := "White Dwarf",
    'L' := "Brown Dwarf", 'T' := "Brown Dwarf", 'Y' := "Brown Dwarf"
  ]

  /** The switch agrees with the table: a listed letter gives its name, any other letter gives "Star". */
  lemma SwitchMatchesTable(code: string)
    requires code != []
    ensures var k := UpperChar(code[0]);
      StarTypeName(Some(code)) == if k in ClassNames then ClassNames[k] else PlainStar
  {
  }

  /** "Unknown Star" means exactly that the code is missing or empty. */
  lemma UnknownOnlyWhenMissing(spectralClass: Option<string>)
    ensures StarTypeName(spectralClass) == UnknownStar <==> spectralClass.None? || spectralClass.value == []
  {
  }

  /** Only the first letter counts, and its case does not. */
  lemma FirstLetterDecides(a: string, b: string)
    requires a != [] && b != [] && UpperChar(a[0]) == UpperChar(b[0])
    ensures StarTypeName(Some(a)) == StarTypeName(Some(b))
  {
  }

  /** Lower-case codes are classified like their upper-case form ("g2v" is a Yellow Dwarf). */
  lemma CaseDoesNotMatter(c: char, rest: string)
    ensures StarTypeName(Some([c] + rest)) == StarTypeName(Some([UpperChar(c)] + rest))
  {
    assert UpperChar(UpperChar(c)) == UpperChar(c);
  }

  /** Sol's class "G2V" is a Yellow Dwarf; Proxima's "M5.5Ve" a Red Dwarf. */
  lemma CatalogueExamples()
    ensures StarTypeName(Some("G2V")) == "Yellow Dwarf"
    ensures StarTypeName(Some("M5.5Ve")) == "Red Dwarf"
    ensures StarTypeName(Some("DA2")) == "White Dwarf"
    ensures StarTypeName(Some("T8")) == "Brown Dwarf"
    ensures StarTypeName(Some("WC8")) == PlainStar
  {
  }
}
