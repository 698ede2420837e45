/** The entities the question-paper generator works with. */
module Types {

  /** Python's `None` or a value. */
  datatype Option<+T> = None | Some(value: T)

  /** The sub-part letter of a tag: part A, B or C of a unit. */
  datatype Part = A | B | C

  /** A tag such as "3B": a unit number and a part. Units in the bank are 1..5;
      a part-C tag built from the part-C selector carries whatever unit was chosen. */
  datatype Tag = Tag(unit: nat, part: Part)

  /** A bank question: its identifier, its tag and its Bloom level (1..6), if the row names one.
      The question's formatted cell, answer text and images are not modelled. */
  datatype Question = Question(id: nat, tag: Tag, bloom: Option<nat>)

  /** A template slot: the coordinates of the numbered cell and the number it carries. */
  datatype Slot = Slot(table: nat, row: nat, cell: nat, number: nat)

  /** What a slot receives in one set: a question, or the "TAG_NOT_FOUND" sentinel. */
  datatype Pick = Assigned(question: Question) | TagNotFound
}
