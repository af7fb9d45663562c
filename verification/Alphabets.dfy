/**
 * The Unicode facts that search depends on, as a table: character classes, digit values and case folding.
 */
module Alphabets {
  import opened Utf8

  datatype Class = Separator | Letter | Digit | Other

  datatype Alphabet = Alphabet(classOf: CodePoint -> Class, digit: CodePoint -> nat, fold: CodePoint -> Text)
  {
    predicate Separates(c: CodePoint) {
      classOf(c).Separator?
    }

    predicate IsDigit(c: CodePoint) {
      classOf(c).Digit?
    }

    function Fold(text: Text): Text {
      if text == [] then [] else Fold(text[..|text| - 1]) + fold(text[|text| - 1])
    }
  }

  const Space: CodePoint := 0x20
  const Quote: CodePoint := 0x22
  const Slash: CodePoint := 0x2F

  // Spaces and slashes separate, and decimal digits have decimal values.
  ghost predicate Sound(u: Alphabet) {
    u.Separates(Space) && u.Separates(Slash) && !u.Separates(Quote) &&
    forall c: CodePoint :: u.IsDigit(c) ==> u.digit(c) < 10
  }
}
