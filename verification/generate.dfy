/** The Generate handler as a whole: the bank document's questions, the template's slots, and
    `n` sets filled against one used-set that is never reset. */
module Generate {
  import opened Types
  import opened Classify
  import opened Template
  import opened TagTable
  import opened Selection
  import opened SelectionProperties

  /** The bank document's rows, table after table, each table's rows in order. */
  function BankRows(doc: Document): seq<Row>
  {
    if |doc| == 0 then [] else BankRows(doc[..|doc| - 1]) + doc[|doc| - 1]
  }

  /** A row is read from the bank exactly when it is a row of one of its tables. */
  lemma {:induction false} BankRowsMembers(doc: Document)
    ensures forall row :: row in BankRows(doc) <==> exists ti :: 0 <= ti < |doc| && row in doc[ti]
  {
    if |doc| > 0 {
      var init := doc[..|doc| - 1];
      BankRowsMembers(init);
      assert forall ti :: 0 <= ti < |init| ==> init[ti] == doc[ti];
    }
  }

  /** One press of Generate: the bank's questions, the template's slots, and the requested
      number of sets, with `draws(i, j)` the random outcomes at slot `j` of set `i`. */
  function Generate(bankDoc: Document, template: Document, s: Settings, n: nat, draws: (nat, nat) -> Draw): (r: Run)
    ensures |r.sets| == n
  {
    RunSets(ExtractBank(BankRows(bankDoc)), s, DiscoverSlots(template), n, draws)
  }

  /** What each slot needs over the first `n` sets: how many of its slots need tag `t`. */
  function SlotDemand(s: Settings, slots: seq<Slot>, n: nat, draws: (nat, nat) -> Draw, t: Tag): nat
  {
    TotalDemand((i: nat) => SetTags(s, slots, i, draws), n, t)
  }

  /** Every set has a pick per discovered slot, and every discovered slot is a template cell
      carrying its number; an assigned question is one of the bank's questions and has the tag
      the table gives the slot's number under that slot's draw; no question appears twice in the
      whole run. */
  lemma GenerateSound(bankDoc: Document, template: Document, s: Settings, n: nat, draws: (nat, nat) -> Draw)
    ensures var bank := ExtractBank(BankRows(bankDoc));
            var slots := DiscoverSlots(template);
            var r := Generate(bankDoc, template, s, n, draws);
            && (forall k :: 0 <= k < |slots| ==> Numbered(ParseSlotNumber, template, slots[k]))
            && (forall i :: 0 <= i < n ==> |r.sets[i]| == |slots|)
            && (forall i, j :: 0 <= i < n && 0 <= j < |slots| ==>
                  Fits(bank, SlotTag(s, slots[j], draws(i, j)), r.sets[i][j]))
            && NoReuse(r.sets)
  {
    var bank := ExtractBank(BankRows(bankDoc));
    var slots := DiscoverSlots(template);
    DiscoverSlotsExact(template);
    assert forall k :: 0 <= k < |slots| ==> slots[k] in slots;
    RunSetsSound(bank, s, slots, n, draws);
  }

  /** A slot of the run gets the sentinel only when every bank question with the tag it needs
      is used somewhere in the run. */
  lemma GenerateSentinel(bankDoc: Document, template: Document, s: Settings, n: nat, draws: (nat, nat) -> Draw)
    ensures var bank := ExtractBank(BankRows(bankDoc));
            var slots := DiscoverSlots(template);
            var r := Generate(bankDoc, template, s, n, draws);
            forall i, j :: 0 <= i < n && 0 <= j < |slots| && 0 <= j < |r.sets[i]| && r.sets[i][j].TagNotFound? ==>
              Exhausted(bank, SlotTag(s, slots[j], draws(i, j)), r.used)
  {
    var bank := ExtractBank(BankRows(bankDoc));
    var slots := DiscoverSlots(template);
    var tags := (i: nat) => SetTags(s, slots, i, draws);
    var choice := (i: nat, j: nat) => draws(i, j).pick;
    var r := Rounds(bank, n, tags, choice);
    assert r == Generate(bankDoc, template, s, n, draws);
    RoundsSentinelMeansExhausted(bank, n, tags, choice);
    forall i, j | 0 <= i < n && 0 <= j < |slots| && 0 <= j < |r.sets[i]| && r.sets[i][j].TagNotFound?
      ensures Exhausted(bank, SlotTag(s, slots[j], draws(i, j)), r.used)
    {
      assert tags(i)[j] == SlotTag(s, slots[j], draws(i, j));
    }
  }

  /** When the bank holds, for every tag, at least as many questions as the run's slots need,
      every slot whose number is in the exam's table receives a question. */
  lemma GenerateEnough(bankDoc: Document, template: Document, s: Settings, n: nat, draws: (nat, nat) -> Draw)
    requires forall t :: SlotDemand(s, DiscoverSlots(template), n, draws, t)
                         <= |WithTag(ExtractBank(BankRows(bankDoc)), t)|
    ensures var slots := DiscoverSlots(template);
            var r := Generate(bankDoc, template, s, n, draws);
            forall i, j :: 0 <= i < n && 0 <= j < |slots| && 0 <= j < |r.sets[i]| && InTable(s.exam, slots[j].number) ==>
              r.sets[i][j].Assigned?
  {
    var bank := ExtractBank(BankRows(bankDoc));
    var slots := DiscoverSlots(template);
    var tags := (i: nat) => SetTags(s, slots, i, draws);
    var choice := (i: nat, j: nat) => draws(i, j).pick;
    var r := Rounds(bank, n, tags, choice);
    assert r == Generate(bankDoc, template, s, n, draws);
    assert UniqueIds(bank);
    RoundsEnough(bank, n, tags, choice);
    forall i, j | 0 <= i < n && 0 <= j < |slots| && 0 <= j < |r.sets[i]| && InTable(s.exam, slots[j].number)
      ensures r.sets[i][j].Assigned?
    {
      assert tags(i)[j] == SlotTag(s, slots[j], draws(i, j));
    }
  }

  /** One set of two slots both needing "1A" over a bank with a single "1A" question: the first
      slot gets the question, the second the sentinel, whatever the draws. */
  lemma OneQuestionTwoSlots(choice: nat -> nat)
    ensures var q := Question(0, Tag(1, A), None);
            FillSet([q], [Some(Tag(1, A)), Some(Tag(1, A))], choice, {}).picks == [Assigned(q), TagNotFound]
  {
    var q := Question(0, Tag(1, A), None);
    var tags := [Some(Tag(1, A)), Some(Tag(1, A))];
    var first := SelectSlot([q], tags[0], {}, choice(0));
    SelectSlotSentinel([q], tags[0], {}, choice(0));
    assert !Exhausted([q], tags[0], {}) by {
      assert q in [q];
    }
    assert first == Step(Assigned(q), {0});
    SelectSlotSentinel([q], tags[1], {0}, choice(1));
    FillSetStep([q], tags, choice, {});
    FillSetStep([q], tags[..1], choice, {});
    assert tags[..1][..0] == [];
  }

  /** A bank with a single "1A" question and a cycle-test template whose slots 1 and 2 both need
      "1A": the first slot gets the question and the second the sentinel; the question is not
      repeated. */
  lemma NoRepetitionFallback(draws: (nat, nat) -> Draw)
    ensures var q := Question(0, Tag(1, A), None);
            var slots := [Slot(0, 0, 0, 1), Slot(0, 1, 0, 2)];
            RunSets([q], Settings(Cat1, 1, 1), slots, 1, draws).sets == [[Assigned(q), TagNotFound]]
  {
    var q := Question(0, Tag(1, A), None);
    var s := Settings(Cat1, 1, 1);
    var slots := [Slot(0, 0, 0, 1), Slot(0, 1, 0, 2)];
    var tagsOf := (i: nat) => SetTags(s, slots, i, draws);
    var choice := (i: nat, j: nat) => draws(i, j).pick;
    assert TagForSlot(1, Cat1, 1, 1, draws(0, 0).second) == Some(Tag(1, A));
    assert TagForSlot(2, Cat1, 1, 1, draws(0, 1).second) == Some(Tag(1, A));
    assert tagsOf(0) == [Some(Tag(1, A)), Some(Tag(1, A))];
    OneQuestionTwoSlots(RoundChoice(choice, 0));
    RoundsStep([q], 1, tagsOf, choice);
    assert RunSets([q], s, slots, 1, draws) == Rounds([q], 1, tagsOf, choice);
  }
}
