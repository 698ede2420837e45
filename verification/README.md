# Endsem-qb question selection, modelled in Dafny

Endsem-qb is a small question-paper generator, `endsem.py`. It reads two Word documents.
The first is a question bank whose table rows carry tags such as "3B": unit 3, part B.
The second is a paper template whose numbered cells are slots. The generator then fills
one to three sets. Each slot gets a question whose tag is the one a fixed table assigns
to the slot's number under the chosen exam type ("CAT 1", "CAT 2" or "EndSem"). A single
used-set spans the whole run, so no question appears twice, not even across sets. When
a tag's questions run out, the slot gets the sentinel `TAG_NOT_FOUND`.

This project models that core:

- **Types** (`types.dfy`): the tags, the questions, the template slots, and what a slot
  receives.
- **Text** (`text.dfy`): Python's `str.strip` over the `str.isspace` characters, ASCII
  case mapping, and decimal digits.
- **Classify** (`classify.dfy`): how a bank row is recognised as a question. That covers
  the `^[1-5][ABC]$` tag cell, the "ans" exclusion and the Bloom level read by
  `BLOOM_RE`. It also covers how the bank's questions are listed.
- **Template** (`template.dfy`): how a template cell is read as a slot by
  `NUM_PREFIX_RE`, and how slots are discovered in document order.
- **TagTable** (`tag_table.dfy`): `get_tag_for_slot`.
- **Selection** (`selection.dfy`): the per-tag groups, the pool, and the pick of one
  slot. It also fills one set and fills `n` sets against the global used-set.
- **SelectionProperties** (`properties.dfy`): counting and supply facts about whole runs.
- **Generate** (`generate.dfy`): one press of Generate, from the two documents to the
  sets.

The random choices become parameters.

- The draw at a slot is `Draw(second, pick)`.
- `second` is the outcome of `random.choice` between the two part-A tags at a cycle
  test's slot 5.
- `pick` is any natural number. `pool[pick % |pool|]` is the question
  `random.choice(pool)` returns. Every element of the pool is reachable this way
  (`Selection.SelectSlotCanPickAny`).
- `draws(i, j)` is the draw at slot `j` of set `i`.
- A question's `random.random()` identifier is its position in the bank, so identifiers
  are distinct naturals.

## Model

| member | source | states |
|---|---|---|
| TagTable.TagForSlot | endsem.py:109-134 | The final exam maps slots 1-10 to units 1-5 part A, two slots per unit. Slots 11-20 map the same way to part B, and slots 21-22 to the chosen unit's part C. A cycle test over units b and b+1 maps slots 1-2 to bA, 3-4 to (b+1)A, 5 to either bA or (b+1)A by the draw, 6-7 to bB, 8-9 to (b+1)B, and 10-11 to the part-C unit. A slot has a tag exactly when it is in the exam's table; an unknown exam type gives no tag. |
| TagTable.TagForSlotChoiceOnlyAtFive | endsem.py:121 | Only a cycle test's slot 5 depends on the random choice. |
| TagTable.TagForSlotBankUnits | endsem.py:109-134 | With the part-C unit taken from the choices the settings offer, every tag in the table has unit 1 to 5, so it can occur in the bank. |
| Classify.TagTextInjective | endsem.py:224 | `by_tag.get(tag, [])` compares tag strings; distinct tags are spelled differently, so this is comparing tags. |
| Classify.ParseTagSound | endsem.py:83-84 | A cell read as a tag upper-cases to exactly that tag's spelling. |
| Classify.ParseTagComplete | endsem.py:83-84 | A cell that upper-cases to the spelling of a tag with unit 1-5 is read as that tag. |
| Classify.ParseTagText | endsem.py:83 | A bank tag written in upper or lower case is read back as itself. |
| Classify.FirstSomeIsFirst | endsem.py:81-85 | The row's tag is that of its first cell that spells a tag. No tag means no cell spells one. |
| Classify.ClassifyRow | endsem.py:87-88 | A row yields a question exactly when it has a tag cell and its stripped first cell does not contain "ans" in any case. The question's tag is the row's tag, and its Bloom level, when present, is 1 to 6. |
| Classify.BloomAtMatches | endsem.py:16 | A level is read at a position exactly when `K`, optional whitespace and a digit 1-6 start there. The level is that digit. |
| Classify.BloomSearchLeftmost | endsem.py:88 | The row's Bloom level comes from the leftmost match of the pattern in the joined row text. No level means no position matches. |
| Classify.ExtractBank | endsem.py:71-106 | The bank's questions each carry a tag with unit 1 to 5, and their identifiers are distinct: each is the question's position. |
| Classify.ExtractBankAppend | endsem.py:73-106 | Reading one more row appends that row's question, if it is a question row, numbered after the earlier ones. |
| Classify.ExtractBankCount | endsem.py:87-106 | The bank has exactly one question per question row. |
| Template.SlotPrefixDetermines | endsem.py:15 | Whenever `NUM_PREFIX_RE` matches a cell text, the slot number read is the matched digits' value. |
| Template.PrefixNumberMatches | endsem.py:15 | A number is read from a text exactly when the pattern (whitespace, digits, whitespace, then `.` or `)`) matches at its start. |
| Template.ParseSlotNumberOfNumbered | endsem.py:208-209 | A cell reading like "12." or "7) ..." is slot 12 or slot 7. |
| Template.DiscoverSlotsExact | endsem.py:205-209 | The discovered slots are exactly the template cells whose stripped text carries a slot number, with that number. They come in document order: table, row, then cell. |
| Text.StripRemovesOnlyEnds | endsem.py:74 | Stripping removes only leading and trailing whitespace. |
| Text.StripIdempotent | endsem.py:74 | Stripping twice is stripping once. |
| Text.Decimal | endsem.py:116 | The spelling of a unit in `f"{unit}C"` is a non-empty run of digits whose value is the unit, one digit exactly for units below 10. |
| Selection.WithTagMembers | endsem.py:218-219 | A tag group holds exactly the bank questions with that tag. |
| Selection.ByTagGroups | endsem.py:218-224 | `by_tag.get(tag, [])` is the bank filtered by the tag, in bank order. A tag with no question has an empty group. |
| Selection.ByTagKeys | endsem.py:218-219 | `by_tag` has a key for exactly the tags that occur in the bank. |
| Selection.UnusedMembers | endsem.py:224 | The filter keeps exactly the questions whose identifier is not in the used-set. |
| Selection.PoolMembers | endsem.py:224 | The pool holds exactly the bank questions with the slot's tag whose identifiers are not used. |
| Selection.SelectSlot | endsem.py:224-231 | An assigned question is from the bank, has the slot's tag and an unused identifier, and that identifier is added to the used-set. The sentinel leaves the used-set unchanged. |
| Selection.SelectSlotSentinel | endsem.py:226-228 | A slot gets the sentinel exactly when every bank question with its tag is already used. That holds trivially for a slot with no tag and for a tag absent from the bank. There is no fallback to a used question. |
| Selection.SelectSlotCanPickAny | endsem.py:230 | Every question in the pool is a possible outcome of the draw. |
| Selection.IdsOfMembers | endsem.py:231 | Every assigned question's identifier is among the identifiers a set records. |
| Selection.IdsOfOnlyMembers | endsem.py:231 | A set records no identifier except those of questions it assigned. |
| Selection.FillSetUsed | endsem.py:221-233 | After a set, the used-set is the earlier one plus the identifiers the set assigned. |
| Selection.FillSetSound | endsem.py:221-233 | Every question a set assigns is from the bank, carries its slot's tag, and was not used before the set. |
| Selection.FillSetDistinct | endsem.py:221-233 | No identifier is assigned to two slots of one set. |
| Selection.FillSetSentinel | endsem.py:221-233 | A slot gets the sentinel only when every question with its tag is used once the set is done. |
| Selection.RoundsSound | endsem.py:213-233 | Every question of every set is from the bank and carries the tag its slot needs. |
| Selection.RoundsNoReuse | endsem.py:213-233 | Across the run no identifier is assigned twice, and the final used-set is exactly the identifiers assigned. |
| Selection.RunSetsSound | endsem.py:213-233 | Each set has one pick per slot, each assigned question has the tag the table gives its slot under that slot's draw, and no question repeats across sets. |
| Selection.NoReuseExtend | endsem.py:224-231 | A set whose picks are distinct and unused keeps the whole run free of repetition. |
| SelectionProperties.UnusedTake | endsem.py:224-231 | Using a pooled question's identifier shrinks the pool. |
| SelectionProperties.ExhaustedGrows | endsem.py:213-231 | The used-set only grows, so an exhausted tag stays exhausted. |
| SelectionProperties.FillSetCount | endsem.py:221-233 | Over a set, a tag's assignments plus its remaining unused questions never exceed its unused questions before the set. |
| SelectionProperties.RoundsCount | endsem.py:213-233 | Over a run, a tag is never assigned more often than the bank holds questions with it. |
| SelectionProperties.RoundsSentinelMeansExhausted | endsem.py:224-228 | Any slot of the run that got the sentinel needs a tag all of whose questions are used by the end of the run. |
| SelectionProperties.WithTagUnique | endsem.py:218-219 | A tag group of a bank with unique identifiers has unique identifiers. |
| SelectionProperties.UnusedDropOne | endsem.py:224-231 | With unique identifiers, recording one identifier removes at most one question from a pool. |
| SelectionProperties.PickLoss | endsem.py:224-231 | One slot shrinks only its own tag's pool, and by at most one. |
| SelectionProperties.FillSetSupply | endsem.py:221-233 | A set uses up at most its demand of each tag. |
| SelectionProperties.FillSetEnough | endsem.py:221-233 | When each tag's unused questions cover the set's demand for it, every slot whose number has a tag gets a question. |
| SelectionProperties.RoundsEnough | endsem.py:213-233 | When each tag's questions cover the whole run's demand for it, no slot whose number has a tag gets the sentinel. |
| Generate.BankRowsMembers | endsem.py:71-73 | The rows read are exactly the rows of the bank's tables. |
| Generate.GenerateSound | endsem.py:198-233 | For one press of Generate: every slot is a numbered template cell, and each set has a pick per slot. Each question is a bank question with its slot's tag, and no question appears twice in the run. |
| Generate.GenerateSentinel | endsem.py:224-228 | For one press of Generate, a slot gets the sentinel only when all questions with its tag are used. |
| Generate.GenerateEnough | endsem.py:213-233 | For one press of Generate, a bank that has enough questions of every tag for all slots of all sets leaves no tabled slot without a question. |
| Generate.OneQuestionTwoSlots | endsem.py:224-231 | Two slots needing "1A" over a bank with one "1A" question get the question, then the sentinel. |
| Generate.NoRepetitionFallback | endsem.py:213-233 | The same holds for a CAT 1 template whose slots 1 and 2 both need "1A": the one question is not repeated. |

## Left out

- The Streamlit user interface, reading and writing `.docx` files, zip archives and
  session state. Documents are modelled as tables of rows of cell texts.
- `CO_DESC_RE` and the course-outcome map, because they do not influence selection.
- `assemble_doc` is not modelled: the rendering of picks into the paper, the
  "Error: Tag missing in Bank" text, images, answer rows and the CO/Bloom cells. It
  writes every slot into cell 1 of the slot's row. So when a row holds two slots, the
  later one overwrites the earlier, though both consumed a question.
- Answer lookup in the row after a question (lines 92-97) and the choice of the longest
  cell as the question cell, because they only affect rendering.
- `random.random()` identifiers are modelled as bank positions. Two equal floats would
  let one pick hide another question; that event is ignored.
- Randomness is modelled as the `draws` parameter. The model says which outcomes are
  possible, not how likely each is.
- `\d` and `int()` also accept non-ASCII decimal digits; the model reads ASCII digits
  only.
- `str.upper`/`str.lower` are modelled on ASCII letters only. No other character maps
  to the ASCII letters these tests look at.
- The settings' ranges (1 to 3 sets, part-C units offered per exam) are not imposed on
  `Generate`. `TagForSlotBankUnits` states what they guarantee.
- The final exam's part-C unit is always given; the `None` default of
  `get_tag_for_slot`, which would spell "NoneC", is unreachable from the interface.
- TagTable.TagForSlotChoiceOnlyAtFive and TagTable.TagForSlotBankUnits: their proofs are
  direct unfoldings of the table.
- The system's description mentions other behaviour that `endsem.py` does not have: a
  fallback to a repeated question when a tag's pool is exhausted, a mode that tracks used
  questions per set instead of per run, a cognitive-level table for the final exam, and
  paired "OR" slots. The model follows the code, which emits the sentinel when a pool is
  empty and keeps one used-set for the whole run.
