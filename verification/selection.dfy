/** The question-selection engine: questions grouped by tag in bank order, and every slot of
    every requested set given a question not used anywhere earlier in the run, or the
    "TAG_NOT_FOUND" sentinel when none is left. */
module Selection {
  import opened Types
  import opened TagTable

  /** The generation settings: exam type, the cycle tests' part-C unit and the final exam's. */
  datatype Settings = Settings(exam: string, partC: nat, endsemUnit: nat)

  /** The outcomes of the random choices made when one slot of one set is filled: which of the
      two part-A tags slot 5 of a cycle test takes, and which question of the pool is drawn
      (any natural number, taken modulo the pool's size). */
  datatype Draw = Draw(second: bool, pick: nat)

  /** What filling one slot yields: the pick and the used-set afterwards. */
  datatype Step = Step(pick: Pick, used: set<nat>)

  /** What filling one set yields: a pick per slot and the used-set afterwards. */
  datatype Filled = Filled(picks: seq<Pick>, used: set<nat>)

  /** What a whole run yields: the picks of every set, and the final used-set. */
  datatype Run = Run(sets: seq<seq<Pick>>, used: set<nat>)

  /** The questions of `qs` carrying tag `t`, in order: the reference meaning of a tag group. */
  function WithTag(qs: seq<Question>, t: Tag): (r: seq<Question>)
    ensures |r| <= |qs|
  {
    if |qs| == 0 then []
    else
      var last := qs[|qs| - 1];
      WithTag(qs[..|qs| - 1], t) + (if last.tag == t then [last] else [])
  }

  /** A tag group holds exactly the questions of `qs` with that tag. */
  lemma {:induction false} WithTagMembers(qs: seq<Question>, t: Tag)
    ensures forall q :: q in WithTag(qs, t) <==> q in qs && q.tag == t
  {
    if |qs| > 0 {
      WithTagMembers(qs[..|qs| - 1], t);
      assert qs == qs[..|qs| - 1] + [qs[|qs| - 1]];
    }
  }

  /** `by_tag.get(tag, [])`; a missing tag, `None` included, has no questions. */
  function Lookup(groups: map<Tag, seq<Question>>, tag: Option<Tag>): seq<Question>
  {
    if tag.Some? && tag.value in groups then groups[tag.value] else []
  }

  /** `by_tag`: the bank's questions grouped by tag, each group in bank order. */
  function ByTag(bank: seq<Question>): map<Tag, seq<Question>>
  {
    if |bank| == 0 then map[]
    else
      var prev := ByTag(bank[..|bank| - 1]);
      var q := bank[|bank| - 1];
      prev[q.tag := Lookup(prev, Some(q.tag)) + [q]]
  }

  /** Each group is the bank filtered by its tag, in bank order; an absent tag's group is empty. */
  lemma {:induction false} ByTagGroups(bank: seq<Question>)
    ensures forall t :: Lookup(ByTag(bank), Some(t)) == WithTag(bank, t)
  {
    if |bank| > 0 {
      ByTagGroups(bank[..|bank| - 1]);
    }
  }

  /** The groups are keyed by exactly the tags that occur in the bank. */
  lemma ByTagKeys(bank: seq<Question>)
    ensures forall t :: t in ByTag(bank) <==> exists q :: q in bank && q.tag == t
  {
    ByTagGroups(bank);
    forall t ensures t in ByTag(bank) <==> exists q :: q in bank && q.tag == t {
      WithTagMembers(bank, t);
      ByTagKeyNonEmpty(bank, t);
      if t in ByTag(bank) {
        assert WithTag(bank, t)[0] in WithTag(bank, t);
      }
    }
  }

  /** A group that is present is never empty. */
  lemma {:induction false} ByTagKeyNonEmpty(bank: seq<Question>, t: Tag)
    ensures t in ByTag(bank) ==> |ByTag(bank)[t]| > 0
  {
    if |bank| > 0 {
      ByTagKeyNonEmpty(bank[..|bank| - 1], t);
    }
  }

  /** `[q for q in qs if q["id"] not in used]`. */
  function Unused(qs: seq<Question>, used: set<nat>): (r: seq<Question>)
    ensures |r| <= |qs|
  {
    if |qs| == 0 then []
    else
      var last := qs[|qs| - 1];
      Unused(qs[..|qs| - 1], used) + (if last.id !in used then [last] else [])
  }

  /** The pool holds exactly the questions of `qs` whose identifier is not used. */
  lemma {:induction false} UnusedMembers(qs: seq<Question>, used: set<nat>)
    ensures forall q :: q in Unused(qs, used) <==> q in qs && q.id !in used
  {
    if |qs| > 0 {
      UnusedMembers(qs[..|qs| - 1], used);
      assert qs == qs[..|qs| - 1] + [qs[|qs| - 1]];
    }
  }

  /** `pool`: the unused questions of the tag's group. */
  function Pool(bank: seq<Question>, tag: Option<Tag>, used: set<nat>): seq<Question>
  {
    Unused(Lookup(ByTag(bank), tag), used)
  }

  /** The pool holds exactly the bank questions with the tag whose identifier is not used. */
  lemma PoolMembers(bank: seq<Question>, tag: Option<Tag>, used: set<nat>)
    ensures forall q :: q in Pool(bank, tag, used) <==> q in bank && Some(q.tag) == tag && q.id !in used
  {
    UnusedMembers(Lookup(ByTag(bank), tag), used);
    ByTagGroups(bank);
    if tag.Some? {
      WithTagMembers(bank, tag.value);
    }
  }

  /** No question with tag `tag` is left: every bank question carrying it has been used. */
  predicate Exhausted(bank: seq<Question>, tag: Option<Tag>, used: set<nat>)
  {
    forall q :: q in bank && Some(q.tag) == tag ==> q.id in used
  }

  /** One slot: build the pool of the tag's unused questions, draw one and mark it used, or
      emit the sentinel when the pool is empty. */
  function SelectSlot(bank: seq<Question>, tag: Option<Tag>, used: set<nat>, pick: nat): (r: Step)
    ensures r.pick.Assigned? ==>
              && r.pick.question in bank
              && Some(r.pick.question.tag) == tag
              && r.pick.question.id !in used
              && r.used == used + {r.pick.question.id}
    ensures r.pick.TagNotFound? ==> r.used == used
  {
    var pool := Pool(bank, tag, used);
    PoolMembers(bank, tag, used);
    if |pool| == 0 then Step(TagNotFound, used)
    else
      var q := pool[pick % |pool|];
      assert q in pool;
      Step(Assigned(q), used + {q.id})
  }

  /** A slot gets the sentinel exactly when every bank question with its tag is already used;
      there is no fallback to a used question. */
  lemma SelectSlotSentinel(bank: seq<Question>, tag: Option<Tag>, used: set<nat>, pick: nat)
    ensures SelectSlot(bank, tag, used, pick).pick.TagNotFound? <==> Exhausted(bank, tag, used)
  {
    PoolMembers(bank, tag, used);
    var pool := Pool(bank, tag, used);
    if |pool| > 0 {
      assert pool[0] in pool;
    }
  }

  /** The draw can land on any question left in the pool: every unused question with the tag
      is a possible outcome. */
  lemma SelectSlotCanPickAny(bank: seq<Question>, tag: Option<Tag>, used: set<nat>, q: Question)
    requires q in bank && Some(q.tag) == tag && q.id !in used
    ensures exists pick: nat :: SelectSlot(bank, tag, used, pick) == Step(Assigned(q), used + {q.id})
  {
    var pool := Pool(bank, tag, used);
    PoolMembers(bank, tag, used);
    assert q in pool;
    var k :| 0 <= k < |pool| && pool[k] == q;
    ModOfSmaller(k, |pool|);
    assert SelectSlot(bank, tag, used, k) == Step(Assigned(q), used + {q.id});
  }

  lemma ModOfSmaller(k: nat, n: nat)
    requires k < n
    ensures k % n == k
  {
  }

  /** The tag slot `slot` needs, under the settings and the draw made for it. */
  function SlotTag(s: Settings, slot: Slot, d: Draw): Option<Tag>
  {
    TagForSlot(slot.number, s.exam, s.partC, s.endsemUnit, d.second)
  }

  /** The tags the slots of set number `round` need, in template order. */
  function SetTags(s: Settings, slots: seq<Slot>, round: nat, draws: (nat, nat) -> Draw): (tags: seq<Option<Tag>>)
    ensures |tags| == |slots|
    ensures forall j :: 0 <= j < |slots| ==> tags[j] == SlotTag(s, slots[j], draws(round, j))
  {
    seq(|slots|, j requires 0 <= j < |slots| => SlotTag(s, slots[j], draws(round, j)))
  }

  /** The identifiers of the questions assigned among `picks`. */
  function IdsOf(picks: seq<Pick>): set<nat>
  {
    if |picks| == 0 then {}
    else
      var last := picks[|picks| - 1];
      IdsOf(picks[..|picks| - 1]) + (if last.Assigned? then {last.question.id} else {})
  }

  /** The identifier of every question assigned among `picks` is in `IdsOf(picks)`. */
  lemma {:induction false} IdsOfMembers(picks: seq<Pick>)
    ensures forall j :: 0 <= j < |picks| && picks[j].Assigned? ==> picks[j].question.id in IdsOf(picks)
  {
    if |picks| > 0 {
      var init := picks[..|picks| - 1];
      IdsOfMembers(init);
      forall j | 0 <= j < |picks| && picks[j].Assigned?
        ensures picks[j].question.id in IdsOf(picks)
      {
        if j < |init| {
          assert picks[j] == init[j];
        }
      }
    }
  }

  /** `IdsOf(picks)` holds nothing but identifiers of questions assigned among `picks`. */
  lemma {:induction false} IdsOfOnlyMembers(picks: seq<Pick>)
    ensures forall id :: id in IdsOf(picks) ==>
              exists j :: 0 <= j < |picks| && picks[j].Assigned? && picks[j].question.id == id
  {
    if |picks| > 0 {
      var init := picks[..|picks| - 1];
      IdsOfOnlyMembers(init);
      forall id | id in IdsOf(picks)
        ensures exists j :: 0 <= j < |picks| && picks[j].Assigned? && picks[j].question.id == id
      {
        if id in IdsOf(init) {
          var j :| 0 <= j < |init| && init[j].Assigned? && init[j].question.id == id;
          assert picks[j] == init[j];
        } else {
          assert picks[|picks| - 1].Assigned? && picks[|picks| - 1].question.id == id;
        }
      }
    }
  }

  /** One set: the slots, needing `tags` in template order, filled one after the other against
      the used-set, `choice(j)` being the draw at slot `j`. */
  function FillSet(bank: seq<Question>, tags: seq<Option<Tag>>, choice: nat -> nat, used: set<nat>): (r: Filled)
    ensures |r.picks| == |tags|
  {
    if |tags| == 0 then Filled([], used)
    else
      var j := |tags| - 1;
      var prev := FillSet(bank, tags[..j], choice, used);
      var step := SelectSlot(bank, tags[j], prev.used, choice(j));
      Filled(prev.picks + [step.pick], step.used)
  }

  /** The used-set after a set is the one before it plus the identifiers the set assigned. */
  lemma {:induction false} FillSetUsed(bank: seq<Question>, tags: seq<Option<Tag>>, choice: nat -> nat, used: set<nat>)
    ensures var r := FillSet(bank, tags, choice, used);
            r.used == used + IdsOf(r.picks)
  {
    if |tags| > 0 {
      var j := |tags| - 1;
      var prev := FillSet(bank, tags[..j], choice, used);
      FillSetUsed(bank, tags[..j], choice, used);
      var step := SelectSlot(bank, tags[j], prev.used, choice(j));
      FillSetStep(bank, tags, choice, used);
      var picks := prev.picks + [step.pick];
      assert picks[..j] == prev.picks;
    }
  }

  /** One set of slots is the set without its last slot, followed by that slot. */
  lemma FillSetStep(bank: seq<Question>, tags: seq<Option<Tag>>, choice: nat -> nat, used: set<nat>)
    requires |tags| > 0
    ensures var j := |tags| - 1;
            var prev := FillSet(bank, tags[..j], choice, used);
            var step := SelectSlot(bank, tags[j], prev.used, choice(j));
            FillSet(bank, tags, choice, used) == Filled(prev.picks + [step.pick], step.used)
  {
  }

  /** A pick fits a slot needing `tag` when, if it is a question, that question is from the bank
      and carries the tag. */
  predicate Fits(bank: seq<Question>, tag: Option<Tag>, p: Pick)
  {
    p.Assigned? ==> p.question in bank && Some(p.question.tag) == tag
  }

  /** A pick is fresh with respect to `used` when, if it is a question, its identifier is not
      in `used`. */
  predicate Fresh(used: set<nat>, p: Pick)
  {
    p.Assigned? ==> p.question.id !in used
  }

  /** Each pick of `picks` fits the tag `tags` gives its slot and is fresh with respect to
      `used`. */
  predicate SetFits(bank: seq<Question>, tags: seq<Option<Tag>>, used: set<nat>, picks: seq<Pick>)
  {
    forall j :: 0 <= j < |tags| && j < |picks| ==> Fits(bank, tags[j], picks[j]) && Fresh(used, picks[j])
  }

  /** Every question a set assigns comes from the bank, carries its slot's tag and was not used
      before the set. */
  lemma {:induction false} FillSetSound(bank: seq<Question>, tags: seq<Option<Tag>>, choice: nat -> nat, used: set<nat>)
    ensures SetFits(bank, tags, used, FillSet(bank, tags, choice, used).picks)
  {
    if |tags| > 0 {
      FillSetSound(bank, tags[..|tags| - 1], choice, used);
      FillSetSoundStep(bank, tags, choice, used);
    }
  }

  /** The inductive step of `FillSetSound`. */
  lemma FillSetSoundStep(bank: seq<Question>, tags: seq<Option<Tag>>, choice: nat -> nat, used: set<nat>)
    requires |tags| > 0
    requires SetFits(bank, tags[..|tags| - 1], used, FillSet(bank, tags[..|tags| - 1], choice, used).picks)
    ensures SetFits(bank, tags, used, FillSet(bank, tags, choice, used).picks)
  {
    var j := |tags| - 1;
    var prev := FillSet(bank, tags[..j], choice, used);
    FillSetUsed(bank, tags[..j], choice, used);
    assert used <= prev.used;
    var step := SelectSlot(bank, tags[j], prev.used, choice(j));
    FillSetStep(bank, tags, choice, used);
    SetFitsAppend(bank, tags, used, prev.picks, step.pick);
  }

  /** Appending a pick that fits the last slot and is fresh extends a fitting set. */
  lemma SetFitsAppend(bank: seq<Question>, tags: seq<Option<Tag>>, used: set<nat>, picks: seq<Pick>, p: Pick)
    requires |tags| > 0 && SetFits(bank, tags[..|tags| - 1], used, picks) && |picks| == |tags| - 1
    requires Fits(bank, tags[|tags| - 1], p) && Fresh(used, p)
    ensures SetFits(bank, tags, used, picks + [p])
  {
    var all := picks + [p];
    forall k | 0 <= k < |tags| && k < |all| ensures Fits(bank, tags[k], all[k]) && Fresh(used, all[k]) {
      if k < |picks| {
        assert all[k] == picks[k] && tags[k] == tags[..|tags| - 1][k];
      }
    }
  }

  /** No identifier is assigned to two slots of `picks`. */
  predicate DistinctIds(picks: seq<Pick>)
  {
    forall j, j' :: 0 <= j < j' < |picks| && picks[j].Assigned? && picks[j'].Assigned? ==>
      picks[j].question.id != picks[j'].question.id
  }

  /** Appending a pick whose identifier is outside every identifier already assigned keeps the
      identifiers distinct. */
  lemma DistinctAppend(picks: seq<Pick>, p: Pick, ids: set<nat>)
    requires DistinctIds(picks) && IdsOf(picks) <= ids
    requires p.Assigned? ==> p.question.id !in ids
    ensures DistinctIds(picks + [p])
  {
    IdsOfMembers(picks);
    var all := picks + [p];
    forall k, k' | 0 <= k < k' < |all| && all[k].Assigned? && all[k'].Assigned?
      ensures all[k].question.id != all[k'].question.id
    {
      assert all[k] == picks[k];
      if k' < |picks| {
        assert all[k'] == picks[k'];
      } else {
        assert all[k'] == p;
      }
    }
  }

  /** No identifier is assigned to two slots of one set. */
  lemma {:induction false} FillSetDistinct(bank: seq<Question>, tags: seq<Option<Tag>>, choice: nat -> nat, used: set<nat>)
    ensures DistinctIds(FillSet(bank, tags, choice, used).picks)
  {
    if |tags| > 0 {
      FillSetDistinct(bank, tags[..|tags| - 1], choice, used);
      FillSetDistinctStep(bank, tags, choice, used);
    }
  }

  /** The inductive step of `FillSetDistinct`. */
  lemma FillSetDistinctStep(bank: seq<Question>, tags: seq<Option<Tag>>, choice: nat -> nat, used: set<nat>)
    requires |tags| > 0 && DistinctIds(FillSet(bank, tags[..|tags| - 1], choice, used).picks)
    ensures DistinctIds(FillSet(bank, tags, choice, used).picks)
  {
    var j := |tags| - 1;
    var prev := FillSet(bank, tags[..j], choice, used);
    FillSetUsed(bank, tags[..j], choice, used);
    var step := SelectSlot(bank, tags[j], prev.used, choice(j));
    FillSetStep(bank, tags, choice, used);
    DistinctAppend(prev.picks, step.pick, prev.used);
  }

  /** Each slot of `picks` that got the sentinel needs a tag with no question left outside
      `used`. */
  predicate SentinelsJustified(bank: seq<Question>, tags: seq<Option<Tag>>, used: set<nat>, picks: seq<Pick>)
  {
    forall j :: 0 <= j < |tags| && j < |picks| && picks[j].TagNotFound? ==> Exhausted(bank, tags[j], used)
  }

  /** A slot of a set gets the sentinel only if its tag has no unused question left once the
      set is filled. */
  lemma {:induction false} FillSetSentinel(bank: seq<Question>, tags: seq<Option<Tag>>, choice: nat -> nat, used: set<nat>)
    ensures var r := FillSet(bank, tags, choice, used);
            SentinelsJustified(bank, tags, r.used, r.picks)
  {
    if |tags| > 0 {
      FillSetSentinel(bank, tags[..|tags| - 1], choice, used);
      FillSetSentinelStep(bank, tags, choice, used);
    }
  }

  /** The inductive step of `FillSetSentinel`. */
  lemma FillSetSentinelStep(bank: seq<Question>, tags: seq<Option<Tag>>, choice: nat -> nat, used: set<nat>)
    requires |tags| > 0
    requires var prev := FillSet(bank, tags[..|tags| - 1], choice, used);
             SentinelsJustified(bank, tags[..|tags| - 1], prev.used, prev.picks)
    ensures var r := FillSet(bank, tags, choice, used);
            SentinelsJustified(bank, tags, r.used, r.picks)
  {
    var j := |tags| - 1;
    var prev := FillSet(bank, tags[..j], choice, used);
    var step := SelectSlot(bank, tags[j], prev.used, choice(j));
    SelectSlotSentinel(bank, tags[j], prev.used, choice(j));
    FillSetStep(bank, tags, choice, used);
    SentinelsAppend(bank, tags, prev.used, step.used, prev.picks, step.pick);
  }

  /** Appending a justified pick to justified picks, while the used-set grows, keeps every
      sentinel justified. */
  lemma SentinelsAppend(bank: seq<Question>, tags: seq<Option<Tag>>, used: set<nat>, more: set<nat>,
                        picks: seq<Pick>, p: Pick)
    requires |tags| > 0 && |picks| == |tags| - 1 && used <= more
    requires SentinelsJustified(bank, tags[..|tags| - 1], used, picks)
    requires p.TagNotFound? ==> Exhausted(bank, tags[|tags| - 1], more)
    ensures SentinelsJustified(bank, tags, more, picks + [p])
  {
    var all := picks + [p];
    forall k | 0 <= k < |tags| && k < |all| && all[k].TagNotFound? ensures Exhausted(bank, tags[k], more) {
      if k < |picks| {
        assert all[k] == picks[k] && tags[k] == tags[..|tags| - 1][k];
      }
    }
  }

  /** Identifiers of all assigned questions of a run. */
  function AllIds(sets: seq<seq<Pick>>): set<nat>
  {
    if |sets| == 0 then {}
    else AllIds(sets[..|sets| - 1]) + IdsOf(sets[|sets| - 1])
  }

  /** Every identifier assigned anywhere in a run is in `AllIds`. */
  lemma {:induction false} AllIdsMembers(sets: seq<seq<Pick>>)
    ensures forall i, j :: 0 <= i < |sets| && 0 <= j < |sets[i]| && sets[i][j].Assigned? ==>
              sets[i][j].question.id in AllIds(sets)
  {
    if |sets| > 0 {
      var init := sets[..|sets| - 1];
      AllIdsMembers(init);
      IdsOfMembers(sets[|sets| - 1]);
      forall i, j | 0 <= i < |sets| && 0 <= j < |sets[i]| && sets[i][j].Assigned?
        ensures sets[i][j].question.id in AllIds(sets)
      {
        if i < |init| {
          assert sets[i] == init[i];
        }
      }
    }
  }

  /** No question identifier is assigned to two slots, whether in one set or in two. */
  predicate NoReuse(sets: seq<seq<Pick>>)
  {
    forall i, j, i', j' ::
      && 0 <= i < |sets| && 0 <= j < |sets[i]| && 0 <= i' < |sets| && 0 <= j' < |sets[i']|
      && (i != i' || j != j') && sets[i][j].Assigned? && sets[i'][j'].Assigned?
      ==> sets[i][j].question.id != sets[i'][j'].question.id
  }

  /** The draws of set number `round`, slot by slot. */
  function RoundChoice(choice: (nat, nat) -> nat, round: nat): nat -> nat
  {
    j => choice(round, j)
  }

  /** `n` sets filled one after the other against one used-set that starts empty and is never
      reset; set `i` needs the tags `tags(i)` and draws `choice(i, j)` at its slot `j`. */
  function Rounds(bank: seq<Question>, n: nat, tags: nat -> seq<Option<Tag>>, choice: (nat, nat) -> nat): (r: Run)
    ensures |r.sets| == n && forall i :: 0 <= i < n ==> |r.sets[i]| == |tags(i)|
  {
    if n == 0 then Run([], {})
    else
      var prev := Rounds(bank, n - 1, tags, choice);
      var f := FillSet(bank, tags(n - 1), RoundChoice(choice, n - 1), prev.used);
      var sets: seq<seq<Pick>> := prev.sets + [f.picks];
      assert sets[..n - 1] == prev.sets;
      Run(sets, f.used)
  }

  /** A run of `n` sets is the run of `n - 1` sets followed by one more set. */
  lemma RoundsStep(bank: seq<Question>, n: nat, tags: nat -> seq<Option<Tag>>, choice: (nat, nat) -> nat)
    requires n > 0
    ensures var prev := Rounds(bank, n - 1, tags, choice);
            var f := FillSet(bank, tags(n - 1), RoundChoice(choice, n - 1), prev.used);
            Rounds(bank, n, tags, choice) == Run(prev.sets + [f.picks], f.used)
  {
  }

  /** Every pick of `sets` fits the tag `tags` gives its slot. */
  predicate RunFits(bank: seq<Question>, tags: nat -> seq<Option<Tag>>, sets: seq<seq<Pick>>)
  {
    forall i: nat, j :: i < |sets| && 0 <= j < |sets[i]| && j < |tags(i)| ==> Fits(bank, tags(i)[j], sets[i][j])
  }

  /** Every question a run assigns comes from the bank and carries the tag its slot needs. */
  lemma {:induction false} RoundsSound(bank: seq<Question>, n: nat, tags: nat -> seq<Option<Tag>>, choice: (nat, nat) -> nat)
    ensures RunFits(bank, tags, Rounds(bank, n, tags, choice).sets)
  {
    var k := 0;
    while k < n
      invariant k <= n && RunFits(bank, tags, Rounds(bank, k, tags, choice).sets)
    {
      RoundsSoundStep(bank, k + 1, tags, choice);
      k := k + 1;
    }
  }

  /** The inductive step of `RoundsSound`. */
  lemma RoundsSoundStep(bank: seq<Question>, n: nat, tags: nat -> seq<Option<Tag>>, choice: (nat, nat) -> nat)
    requires n > 0 && RunFits(bank, tags, Rounds(bank, n - 1, tags, choice).sets)
    ensures RunFits(bank, tags, Rounds(bank, n, tags, choice).sets)
  {
    var prev := Rounds(bank, n - 1, tags, choice);
    var f := FillSet(bank, tags(n - 1), RoundChoice(choice, n - 1), prev.used);
    RoundsStep(bank, n, tags, choice);
    FillSetSound(bank, tags(n - 1), RoundChoice(choice, n - 1), prev.used);
    var sets: seq<seq<Pick>> := prev.sets + [f.picks];
    forall i: nat, j: nat | i < |sets| && j < |sets[i]| && j < |tags(i)|
      ensures Fits(bank, tags(i)[j], sets[i][j])
    {
      if i < n - 1 {
        assert sets[i] == prev.sets[i];
      } else {
        assert sets[i] == f.picks;
      }
    }
  }

  /** A run that assigns no identifier twice and whose used-set is exactly the identifiers it
      assigned. */
  predicate Consistent(r: Run)
  {
    NoReuse(r.sets) && r.used == AllIds(r.sets)
  }

  /** Across the whole run no identifier is assigned twice, and the final used-set is exactly
      the identifiers assigned. */
  lemma {:induction false} RoundsNoReuse(bank: seq<Question>, n: nat, tags: nat -> seq<Option<Tag>>, choice: (nat, nat) -> nat)
    ensures Consistent(Rounds(bank, n, tags, choice))
  {
    var k := 0;
    while k < n
      invariant k <= n && Consistent(Rounds(bank, k, tags, choice))
    {
      RoundsNoReuseStep(bank, k + 1, tags, choice);
      k := k + 1;
    }
  }

  /** The inductive step of `RoundsNoReuse`. */
  lemma RoundsNoReuseStep(bank: seq<Question>, n: nat, tags: nat -> seq<Option<Tag>>, choice: (nat, nat) -> nat)
    requires n > 0
    requires Consistent(Rounds(bank, n - 1, tags, choice))
    ensures Consistent(Rounds(bank, n, tags, choice))
  {
    var prev := Rounds(bank, n - 1, tags, choice);
    var f := FillSet(bank, tags(n - 1), RoundChoice(choice, n - 1), prev.used);
    RoundsStep(bank, n, tags, choice);
    var sets: seq<seq<Pick>> := prev.sets + [f.picks];
    assert sets[..n - 1] == prev.sets;
    FillSetSound(bank, tags(n - 1), RoundChoice(choice, n - 1), prev.used);
    FillSetDistinct(bank, tags(n - 1), RoundChoice(choice, n - 1), prev.used);
    FillSetUsed(bank, tags(n - 1), RoundChoice(choice, n - 1), prev.used);
    NoReuseExtend(prev.sets, f.picks, prev.used);
  }

  /** The Generate handler's loop over the requested sets: every slot's tag comes from the tag
      table under the settings, and `draws(i, j)` are the random outcomes at slot `j` of set `i`. */
  function RunSets(bank: seq<Question>, s: Settings, slots: seq<Slot>, n: nat, draws: (nat, nat) -> Draw): (r: Run)
    ensures |r.sets| == n
  {
    Rounds(bank, n, (i: nat) => SetTags(s, slots, i, draws), (i: nat, j: nat) => draws(i, j).pick)
  }

  /** Every set of a run has one pick per slot; each assigned question is from the bank and has
      the tag the table gives its slot under that slot's draw; and no question appears twice. */
  lemma RunSetsSound(bank: seq<Question>, s: Settings, slots: seq<Slot>, n: nat, draws: (nat, nat) -> Draw)
    ensures var r := RunSets(bank, s, slots, n, draws);
            && (forall i :: 0 <= i < n ==> |r.sets[i]| == |slots|)
            && (forall i, j :: 0 <= i < n && 0 <= j < |slots| ==>
                  Fits(bank, SlotTag(s, slots[j], draws(i, j)), r.sets[i][j]))
            && NoReuse(r.sets)
  {
    var tags := (i: nat) => SetTags(s, slots, i, draws);
    var choice := (i: nat, j: nat) => draws(i, j).pick;
    var r := Rounds(bank, n, tags, choice);
    assert r == RunSets(bank, s, slots, n, draws);
    RoundsSound(bank, n, tags, choice);
    RoundsNoReuse(bank, n, tags, choice);
    forall i | 0 <= i < n ensures |r.sets[i]| == |slots| {
      assert |tags(i)| == |slots|;
    }
    forall i, j | 0 <= i < n && 0 <= j < |slots| ensures Fits(bank, SlotTag(s, slots[j], draws(i, j)), r.sets[i][j]) {
      assert tags(i)[j] == SlotTag(s, slots[j], draws(i, j));
    }
  }

  /** A set whose assigned identifiers are distinct and all fresh with respect to the earlier sets
      keeps the run free of reuse. */
  lemma NoReuseExtend(sets: seq<seq<Pick>>, picks: seq<Pick>, used: set<nat>)
    requires NoReuse(sets) && used == AllIds(sets)
    requires forall j :: 0 <= j < |picks| && picks[j].Assigned? ==> picks[j].question.id !in used
    requires DistinctIds(picks)
    ensures NoReuse(sets + [picks])
  {
    var all: seq<seq<Pick>> := sets + [picks];
    AllIdsMembers(sets);
    forall i: nat, j: nat, i': nat, j': nat |
      && 0 <= i < |all| && 0 <= j < |all[i]| && 0 <= i' < |all| && 0 <= j' < |all[i']|
      && (i != i' || j != j') && all[i][j].Assigned? && all[i'][j'].Assigned?
      ensures all[i][j].question.id != all[i'][j'].question.id
    {
      if i < |sets| && i' < |sets| {
        assert all[i] == sets[i] && all[i'] == sets[i'];
      } else if i < |sets| {
        assert all[i] == sets[i] && all[i'] == picks;
      } else if i' < |sets| {
        assert all[i'] == sets[i'] && all[i] == picks;
      } else {
        assert all[i] == picks && all[i'] == picks;
      }
    }
  }
}
