/**
  * The colour swatch lookup: a colour name from the catalogue (in Spanish)
  * is translated to a CSS colour through two parallel lists. The lists are
  * data of the application; here they are parameters.
  */
module Colors {
  import Seqs

  /** `colorToEnglish`: the CSS value paired with the first occurrence of
      `color` in `names`, or `color` itself when it is not listed. */
  function ColorToEnglish(color: string, names: seq<string>, cssValues: seq<string>): (r: string)
    requires |names| == |cssValues|
    ensures forall i | FirstAt(color, names, i) :: r == cssValues[i]
    ensures color !in names ==> r == color
    ensures r == color || r in cssValues
  {
    var index := Seqs.IndexOf(names, color);
    if index != -1 then cssValues[index] else color
  }

  /** `i` is where `color` first appears in `names`. */
  predicate FirstAt(color: string, names: seq<string>, i: int) {
    0 <= i < |names| && names[i] == color && forall j | 0 <= j < i :: names[j] != color
  }

  /** Earlier entries take precedence: putting a pair in front overrides
      any later pair for the same name, and leaves other names alone. */
  lemma FrontPairWins(color: string, name: string, css: string, names: seq<string>, cssValues: seq<string>)
    requires |names| == |cssValues|
    ensures ColorToEnglish(name, [name] + names, [css] + cssValues) == css
    ensures color != name ==>
      ColorToEnglish(color, [name] + names, [css] + cssValues) == ColorToEnglish(color, names, cssValues)
  {
    assert ([name] + names)[1..] == names;
  }
}
