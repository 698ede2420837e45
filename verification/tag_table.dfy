/** The fixed table that says which tag each template slot needs, per exam type. */
module TagTable {
  import opened Types

  const EndSem := "EndSem"
  const Cat1 := "CAT 1"
  const Cat2 := "CAT 2"

  /** The slots an exam type's table covers: 1..22 for the final exam, 1..11 for either
      cycle test, none for any other exam type. */
  predicate InTable(exam: string, slot: nat)
  {
    || (exam == EndSem && 1 <= slot <= 22)
    || ((exam == Cat1 || exam == Cat2) && 1 <= slot <= 11)
  }

  /** The lower of the two units a cycle test covers: units 1 and 2 for CAT 1, 3 and 4 for CAT 2. */
  function CatBase(exam: string): nat
  {
    if exam == Cat1 then 1 else 3
  }

  /** A cycle test's table, for a test over units `base` and `base + 1`. `second` is the outcome of
      the random choice at slot 5: the second of the two part-A tags when true. */
  function CatTag(slot: nat, base: nat, partC: nat, second: bool): Option<Tag>
  {
    if slot in {1, 2} then Some(Tag(base, A))
    else if slot in {3, 4} then Some(Tag(base + 1, A))
    else if slot == 5 then (if second then Some(Tag(base + 1, A)) else Some(Tag(base, A)))
    else if slot in {6, 7} then Some(Tag(base, B))
    else if slot in {8, 9} then Some(Tag(base + 1, B))
    else if slot in {10, 11} then Some(Tag(partC, C))
    else None
  }

  /** The final exam's parts A and B, written out as the program writes them. */
  const EndSemMapping: map<nat, Tag> := map[
    1 := Tag(1, A), 2 := Tag(1, A), 3 := Tag(2, A), 4 := Tag(2, A), 5 := Tag(3, A),
    6 := Tag(3, A), 7 := Tag(4, A), 8 := Tag(4, A), 9 := Tag(5, A), 10 := Tag(5, A),
    11 := Tag(1, B), 12 := Tag(1, B), 13 := Tag(2, B), 14 := Tag(2, B), 15 := Tag(3, B),
    16 := Tag(3, B), 17 := Tag(4, B), 18 := Tag(4, B), 19 := Tag(5, B), 20 := Tag(5, B)]

  /** The tag slot `slot` needs. `partC` is the cycle tests' part-C unit, `endsemUnit` the final
      exam's; `second` is the outcome of the random choice a cycle test makes at slot 5. */
  function TagForSlot(slot: nat, exam: string, partC: nat, endsemUnit: nat, second: bool): (r: Option<Tag>)
    // the final exam: two part-A slots per unit, then two part-B slots per unit, then part C
    ensures exam == EndSem && 1 <= slot <= 10 ==> r == Some(Tag((slot + 1) / 2, A))
    ensures exam == EndSem && 11 <= slot <= 20 ==> r == Some(Tag((slot - 9) / 2, B))
    ensures exam == EndSem && 21 <= slot <= 22 ==> r == Some(Tag(endsemUnit, C))
    // the cycle tests: 2 + 2 part-A slots, a fifth part-A slot drawn from either unit,
    // 2 + 2 part-B slots, and two part-C slots
    ensures (exam == Cat1 || exam == Cat2) && 1 <= slot <= 4 ==>
              r == Some(Tag(CatBase(exam) + (slot - 1) / 2, A))
    ensures (exam == Cat1 || exam == Cat2) && slot == 5 ==>
              r == Some(Tag(CatBase(exam) + (if second then 1 else 0), A))
    ensures (exam == Cat1 || exam == Cat2) && 6 <= slot <= 9 ==>
              r == Some(Tag(CatBase(exam) + (slot - 6) / 2, B))
    ensures (exam == Cat1 || exam == Cat2) && 10 <= slot <= 11 ==> r == Some(Tag(partC, C))
    // everything else, including an unknown exam type, has no tag
    ensures r.Some? <==> InTable(exam, slot)
  {
    if exam == EndSem then
      if slot in EndSemMapping then Some(EndSemMapping[slot])
      else if slot in {21, 22} then Some(Tag(endsemUnit, C))
      else None
    else if exam == Cat1 then CatTag(slot, 1, partC, second)
    else if exam == Cat2 then CatTag(slot, 3, partC, second)
    else None
  }

  /** Only the cycle tests' slot 5 depends on the random choice. */
  lemma TagForSlotChoiceOnlyAtFive(slot: nat, exam: string, partC: nat, endsemUnit: nat)
    requires slot != 5 || exam !in {Cat1, Cat2}
    ensures TagForSlot(slot, exam, partC, endsemUnit, false) == TagForSlot(slot, exam, partC, endsemUnit, true)
  {
  }

  /** With the part-C unit chosen among the units the exam covers, as the settings offer it,
      every slot of a recognised exam needs a tag that can occur in the bank (unit 1 to 5). */
  lemma TagForSlotBankUnits(slot: nat, exam: string, partC: nat, endsemUnit: nat, second: bool)
    requires exam == Cat1 ==> partC in {1, 2}
    requires exam == Cat2 ==> partC in {3, 4}
    requires exam == EndSem ==> 1 <= endsemUnit <= 5
    requires InTable(exam, slot)
    ensures 1 <= TagForSlot(slot, exam, partC, endsemUnit, second).value.unit <= 5
  {
  }
}
