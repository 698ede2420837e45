/** What a whole run promises beyond one call: the sentinel only appears once a tag is used up,
    a tag never yields more assignments than the bank has questions with it, and, with distinct
    identifiers, a bank large enough for every slot's demand never runs out. */
module SelectionProperties {
  import opened Types
  import opened Selection

  /** Number of slots among `picks` that received a question with tag `t`. */
  function CountTag(picks: seq<Pick>, t: Tag): nat
  {
    if |picks| == 0 then 0
    else
      var last := picks[|picks| - 1];
      CountTag(picks[..|picks| - 1], t) + (if last.Assigned? && last.question.tag == t then 1 else 0)
  }

  /** Number of slots of a whole run that received a question with tag `t`. */
  function CountAll(sets: seq<seq<Pick>>, t: Tag): nat
  {
    if |sets| == 0 then 0 else CountAll(sets[..|sets| - 1], t) + CountTag(sets[|sets| - 1], t)
  }

  /** With nothing used, every question is in the pool. */
  lemma {:induction false} UnusedOfNothing(qs: seq<Question>)
    ensures Unused(qs, {}) == qs
  {
    if |qs| > 0 {
      UnusedOfNothing(qs[..|qs| - 1]);
      assert qs == qs[..|qs| - 1] + [qs[|qs| - 1]];
    }
  }

  /** Using more never enlarges a pool. */
  lemma {:induction false} UnusedAntitone(qs: seq<Question>, used: set<nat>, more: set<nat>)
    requires used <= more
    ensures |Unused(qs, more)| <= |Unused(qs, used)|
  {
    if |qs| > 0 {
      UnusedAntitone(qs[..|qs| - 1], used, more);
    }
  }

  /** Using the identifier of a question still in the pool shrinks the pool. */
  lemma {:induction false} UnusedTake(qs: seq<Question>, used: set<nat>, q: Question)
    requires q in qs && q.id !in used
    ensures |Unused(qs, used + {q.id})| < |Unused(qs, used)|
  {
    var init := qs[..|qs| - 1];
    var last := qs[|qs| - 1];
    assert qs == init + [last];
    if q in init {
      UnusedTake(init, used, q);
    } else {
      assert last == q;
      UnusedAntitone(init, used, used + {q.id});
    }
  }

  /** A used-set only grows, so an exhausted tag stays exhausted. */
  lemma ExhaustedGrows(bank: seq<Question>, tag: Option<Tag>, used: set<nat>, more: set<nat>)
    requires used <= more && Exhausted(bank, tag, used)
    ensures Exhausted(bank, tag, more)
  {
  }

  /** One slot's pick removes its question, if any, from the pool of its tag and from no other
      pool. */
  lemma PickCount(bank: seq<Question>, t: Tag, used: set<nat>, p: Pick, more: set<nat>)
    requires p.Assigned? ==> p.question in bank && p.question.id !in used && more == used + {p.question.id}
    requires p.TagNotFound? ==> more == used
    ensures (if p.Assigned? && p.question.tag == t then 1 else 0) + |Unused(WithTag(bank, t), more)|
              <= |Unused(WithTag(bank, t), used)|
  {
    if p.Assigned? {
      if p.question.tag == t {
        WithTagMembers(bank, t);
        UnusedTake(WithTag(bank, t), used, p.question);
      } else {
        UnusedAntitone(WithTag(bank, t), used, more);
      }
    }
  }

  /** Over one set, each assignment of a tag-`t` question removes at least one question from the
      tag's pool. */
  lemma {:induction false} FillSetCount(bank: seq<Question>, tags: seq<Option<Tag>>, choice: nat -> nat,
                                        used: set<nat>, t: Tag)
    ensures var f := FillSet(bank, tags, choice, used);
            CountTag(f.picks, t) + |Unused(WithTag(bank, t), f.used)| <= |Unused(WithTag(bank, t), used)|
  {
    if |tags| > 0 {
      FillSetCount(bank, tags[..|tags| - 1], choice, used, t);
      FillSetCountStep(bank, tags, choice, used, t);
    }
  }

  /** The inductive step of `FillSetCount`. */
  lemma FillSetCountStep(bank: seq<Question>, tags: seq<Option<Tag>>, choice: nat -> nat, used: set<nat>, t: Tag)
    requires |tags| > 0
    ensures var prev := FillSet(bank, tags[..|tags| - 1], choice, used);
            var f := FillSet(bank, tags, choice, used);
            CountTag(prev.picks, t) + |Unused(WithTag(bank, t), prev.used)| <= |Unused(WithTag(bank, t), used)| ==>
            CountTag(f.picks, t) + |Unused(WithTag(bank, t), f.used)| <= |Unused(WithTag(bank, t), used)|
  {
    var j := |tags| - 1;
    var prev := FillSet(bank, tags[..j], choice, used);
    var step := SelectSlot(bank, tags[j], prev.used, choice(j));
    FillSetStep(bank, tags, choice, used);
    PickCount(bank, t, prev.used, step.pick, step.used);
    CountTagAppend(prev.picks, step.pick, t);
  }

  /** Appending a pick adds one to the count when it is a tag-`t` question. */
  lemma CountTagAppend(picks: seq<Pick>, p: Pick, t: Tag)
    ensures CountTag(picks + [p], t) == CountTag(picks, t) + (if p.Assigned? && p.question.tag == t then 1 else 0)
  {
    assert (picks + [p])[..|picks|] == picks;
  }

  /** Appending a set adds its tag-`t` assignments to the run's count. */
  lemma CountAllAppend(sets: seq<seq<Pick>>, picks: seq<Pick>, t: Tag)
    ensures CountAll(sets + [picks], t) == CountAll(sets, t) + CountTag(picks, t)
  {
    assert (sets + [picks])[..|sets|] == sets;
  }

  /** Over a whole run, the tag-`t` assignments plus the tag-`t` questions still unused never
      exceed the bank's tag-`t` questions; in particular a tag is never assigned more often than
      the bank holds questions with it. */
  lemma {:induction false} RoundsCount(bank: seq<Question>, n: nat, tags: nat -> seq<Option<Tag>>,
                                       choice: (nat, nat) -> nat, t: Tag)
    ensures var r := Rounds(bank, n, tags, choice);
            CountAll(r.sets, t) + |Unused(WithTag(bank, t), r.used)| <= |WithTag(bank, t)|
  {
    UnusedOfNothing(WithTag(bank, t));
    var k := 0;
    while k < n
      invariant k <= n
      invariant var r := Rounds(bank, k, tags, choice);
                CountAll(r.sets, t) + |Unused(WithTag(bank, t), r.used)| <= |WithTag(bank, t)|
    {
      RoundsCountStep(bank, k + 1, tags, choice, t);
      k := k + 1;
    }
  }

  /** The inductive step of `RoundsCount`: one more set keeps the balance. */
  lemma RoundsCountStep(bank: seq<Question>, n: nat, tags: nat -> seq<Option<Tag>>,
                        choice: (nat, nat) -> nat, t: Tag)
    requires n > 0
    requires var prev := Rounds(bank, n - 1, tags, choice);
             CountAll(prev.sets, t) + |Unused(WithTag(bank, t), prev.used)| <= |WithTag(bank, t)|
    ensures var r := Rounds(bank, n, tags, choice);
            CountAll(r.sets, t) + |Unused(WithTag(bank, t), r.used)| <= |WithTag(bank, t)|
  {
    var prev := Rounds(bank, n - 1, tags, choice);
    var f := FillSet(bank, tags(n - 1), RoundChoice(choice, n - 1), prev.used);
    FillSetCount(bank, tags(n - 1), RoundChoice(choice, n - 1), prev.used, t);
    RoundsStep(bank, n, tags, choice);
    CountAllAppend(prev.sets, f.picks, t);
  }

  /** Every slot of the run that got the sentinel needs a tag all of whose questions are used. */
  predicate SentinelsExhausted(bank: seq<Question>, tags: nat -> seq<Option<Tag>>, r: Run)
  {
    forall i: nat, j :: i < |r.sets| && 0 <= j < |r.sets[i]| && j < |tags(i)| && r.sets[i][j].TagNotFound? ==>
      Exhausted(bank, tags(i)[j], r.used)
  }

  /** A slot gets the sentinel only when every bank question with its tag is used somewhere in
      the run: there is no fallback to repeating a question. */
  lemma {:induction false} RoundsSentinelMeansExhausted(bank: seq<Question>, n: nat, tags: nat -> seq<Option<Tag>>,
                                                        choice: (nat, nat) -> nat)
    ensures SentinelsExhausted(bank, tags, Rounds(bank, n, tags, choice))
  {
    var k := 0;
    while k < n
      invariant k <= n && SentinelsExhausted(bank, tags, Rounds(bank, k, tags, choice))
    {
      RoundsSentinelStep(bank, k + 1, tags, choice);
      k := k + 1;
    }
  }

  /** The inductive step of `RoundsSentinelMeansExhausted`: the used-set only grows, so earlier
      sentinels stay justified. */
  lemma RoundsSentinelStep(bank: seq<Question>, n: nat, tags: nat -> seq<Option<Tag>>, choice: (nat, nat) -> nat)
    requires n > 0 && SentinelsExhausted(bank, tags, Rounds(bank, n - 1, tags, choice))
    ensures SentinelsExhausted(bank, tags, Rounds(bank, n, tags, choice))
  {
    var prev := Rounds(bank, n - 1, tags, choice);
    var f := FillSet(bank, tags(n - 1), RoundChoice(choice, n - 1), prev.used);
    RoundsStep(bank, n, tags, choice);
    FillSetSentinel(bank, tags(n - 1), RoundChoice(choice, n - 1), prev.used);
    FillSetUsed(bank, tags(n - 1), RoundChoice(choice, n - 1), prev.used);
    var sets: seq<seq<Pick>> := prev.sets + [f.picks];
    forall i: nat, j: nat | i < |sets| && j < |sets[i]| && j < |tags(i)| && sets[i][j].TagNotFound?
      ensures Exhausted(bank, tags(i)[j], f.used)
    {
      if i < n - 1 {
        assert sets[i] == prev.sets[i];
        ExhaustedGrows(bank, tags(i)[j], prev.used, f.used);
      } else {
        assert sets[i] == f.picks;
      }
    }
  }

  /** No two questions of `qs` share an identifier. */
  predicate UniqueIds(qs: seq<Question>)
  {
    forall i, k :: 0 <= i < k < |qs| ==> qs[i].id != qs[k].id
  }

  /** Two questions of a bank with unique identifiers that share an identifier are the same. */
  lemma UniqueIdsSame(qs: seq<Question>, a: Question, b: Question)
    requires UniqueIds(qs) && a in qs && b in qs && a.id == b.id
    ensures a == b
  {
    var i :| 0 <= i < |qs| && qs[i] == a;
    var k :| 0 <= k < |qs| && qs[k] == b;
    assert i == k;
  }

  /** A tag group of a bank with unique identifiers has unique identifiers. */
  lemma {:induction false} WithTagUnique(qs: seq<Question>, t: Tag)
    requires UniqueIds(qs)
    ensures UniqueIds(WithTag(qs, t))
  {
    if |qs| > 0 {
      var init := qs[..|qs| - 1];
      var last := qs[|qs| - 1];
      assert UniqueIds(init) by {
        forall i, k | 0 <= i < k < |init| ensures init[i].id != init[k].id {
          assert init[i] == qs[i] && init[k] == qs[k];
        }
      }
      WithTagUnique(init, t);
      var w := WithTag(init, t);
      WithTagMembers(init, t);
      if last.tag == t {
        var all := w + [last];
        forall i, k | 0 <= i < k < |all| ensures all[i].id != all[k].id {
          assert all[i] == w[i];
          if k < |w| {
            assert all[k] == w[k];
          } else {
            assert w[i] in init;
            var m :| 0 <= m < |init| && init[m] == w[i];
            assert qs[m] == w[i] && m < |qs| - 1;
          }
        }
      }
    }
  }

  /** Using an identifier that no question of `qs` carries leaves the pool as it is. */
  lemma {:induction false} UnusedUnaffected(qs: seq<Question>, used: set<nat>, x: nat)
    requires forall i :: 0 <= i < |qs| ==> qs[i].id != x
    ensures Unused(qs, used + {x}) == Unused(qs, used)
  {
    if |qs| > 0 {
      var init := qs[..|qs| - 1];
      assert forall i :: 0 <= i < |init| ==> init[i] == qs[i];
      UnusedUnaffected(init, used, x);
    }
  }

  /** With unique identifiers, using one more identifier removes at most one question from a
      pool. */
  lemma {:induction false} UnusedDropOne(qs: seq<Question>, used: set<nat>, x: nat)
    requires UniqueIds(qs)
    ensures |Unused(qs, used)| <= |Unused(qs, used + {x})| + 1
  {
    if |qs| > 0 {
      var init := qs[..|qs| - 1];
      var last := qs[|qs| - 1];
      assert forall i :: 0 <= i < |init| ==> init[i] == qs[i];
      if last.id == x {
        assert forall i :: 0 <= i < |init| ==> qs[i].id != qs[|qs| - 1].id;
        UnusedUnaffected(init, used, x);
      } else {
        assert UniqueIds(init);
        UnusedDropOne(init, used, x);
      }
    }
  }

  /** Number of slots among `tags` that need tag `t`: the set's demand for it. */
  function Demand(tags: seq<Option<Tag>>, t: Tag): nat
  {
    if |tags| == 0 then 0
    else Demand(tags[..|tags| - 1], t) + (if tags[|tags| - 1] == Some(t) then 1 else 0)
  }

  /** With unique identifiers, one slot needing `tag` shrinks the pool of every tag `t` by at
      most its demand for `t`. */
  lemma PickLoss(bank: seq<Question>, tag: Option<Tag>, used: set<nat>, pick: nat, t: Tag)
    requires UniqueIds(bank)
    ensures var step := SelectSlot(bank, tag, used, pick);
            |Unused(WithTag(bank, t), used)| <= |Unused(WithTag(bank, t), step.used)| + (if tag == Some(t) then 1 else 0)
  {
    var step := SelectSlot(bank, tag, used, pick);
    if step.pick.Assigned? {
      var q := step.pick.question;
      var w := WithTag(bank, t);
      if q.tag == t {
        WithTagUnique(bank, t);
        UnusedDropOne(w, used, q.id);
      } else {
        WithTagMembers(bank, t);
        forall i | 0 <= i < |w| ensures w[i].id != q.id {
          assert w[i] in w;
          if w[i].id == q.id {
            UniqueIdsSame(bank, w[i], q);
          }
        }
        UnusedUnaffected(w, used, q.id);
      }
    }
  }

  /** After a set, every tag's pool has lost at most the set's demand for it. */
  ghost predicate Supplied(bank: seq<Question>, tags: seq<Option<Tag>>, used: set<nat>, f: Filled)
  {
    forall t :: |Unused(WithTag(bank, t), used)| <= |Unused(WithTag(bank, t), f.used)| + Demand(tags, t)
  }

  /** With unique identifiers, a set uses up at most its demand of each tag. */
  lemma {:induction false} FillSetSupply(bank: seq<Question>, tags: seq<Option<Tag>>, choice: nat -> nat, used: set<nat>)
    requires UniqueIds(bank)
    ensures Supplied(bank, tags, used, FillSet(bank, tags, choice, used))
  {
    if |tags| > 0 {
      var j := |tags| - 1;
      var prev := FillSet(bank, tags[..j], choice, used);
      FillSetSupply(bank, tags[..j], choice, used);
      FillSetStep(bank, tags, choice, used);
      forall t ensures |Unused(WithTag(bank, t), used)| <= |Unused(WithTag(bank, t), FillSet(bank, tags, choice, used).used)| + Demand(tags, t) {
        PickLoss(bank, tags[j], prev.used, choice(j), t);
      }
    }
  }

  /** Every slot of `picks` that needs some tag received a question. */
  predicate AllAssigned(tags: seq<Option<Tag>>, picks: seq<Pick>)
  {
    forall j :: 0 <= j < |tags| && j < |picks| && tags[j].Some? ==> picks[j].Assigned?
  }

  /** With unique identifiers, a set whose demand for each tag is within the tag's unused
      questions gets a question at every slot whose number has a tag. */
  lemma {:induction false} FillSetEnough(bank: seq<Question>, tags: seq<Option<Tag>>, choice: nat -> nat, used: set<nat>)
    requires UniqueIds(bank)
    requires forall t :: Demand(tags, t) <= |Unused(WithTag(bank, t), used)|
    ensures AllAssigned(tags, FillSet(bank, tags, choice, used).picks)
  {
    if |tags| > 0 {
      var j := |tags| - 1;
      var prefix := tags[..j];
      var prev := FillSet(bank, prefix, choice, used);
      FillSetEnough(bank, prefix, choice, used);
      FillSetStep(bank, tags, choice, used);
      var step := SelectSlot(bank, tags[j], prev.used, choice(j));
      if tags[j].Some? {
        var t := tags[j].value;
        FillSetSupply(bank, prefix, choice, used);
        assert |Unused(WithTag(bank, t), used)| <= |Unused(WithTag(bank, t), prev.used)| + Demand(prefix, t);
        ByTagGroups(bank);
        assert Pool(bank, tags[j], prev.used) == Unused(WithTag(bank, t), prev.used);
      }
      var picks := prev.picks + [step.pick];
      forall k | 0 <= k < |tags| && k < |picks| && tags[k].Some? ensures picks[k].Assigned? {
        if k < j {
          assert picks[k] == prev.picks[k] && tags[k] == prefix[k];
        }
      }
    }
  }

  /** The demand for tag `t` of the first `n` sets of a run. */
  function TotalDemand(tags: nat -> seq<Option<Tag>>, n: nat, t: Tag): nat
  {
    if n == 0 then 0 else TotalDemand(tags, n - 1, t) + Demand(tags(n - 1), t)
  }

  /** The demand of fewer sets is no larger. */
  lemma {:induction false} TotalDemandMono(tags: nat -> seq<Option<Tag>>, k: nat, n: nat, t: Tag)
    requires k <= n
    ensures TotalDemand(tags, k, t) <= TotalDemand(tags, n, t)
    decreases n - k
  {
    if k < n {
      TotalDemandMono(tags, k + 1, n, t);
    }
  }

  /** After the first `n` sets, every tag's unused questions cover all its questions but the
      demand so far. */
  ghost predicate RunSupplied(bank: seq<Question>, tags: nat -> seq<Option<Tag>>, n: nat, r: Run)
  {
    forall t :: |WithTag(bank, t)| <= |Unused(WithTag(bank, t), r.used)| + TotalDemand(tags, n, t)
  }

  /** Every slot of the run whose number has a tag received a question. */
  predicate RunAssigned(tags: nat -> seq<Option<Tag>>, sets: seq<seq<Pick>>)
  {
    forall i: nat, j :: i < |sets| && 0 <= j < |sets[i]| && j < |tags(i)| && tags(i)[j].Some? ==> sets[i][j].Assigned?
  }

  /** With unique identifiers, a run whose total demand for each tag is within the bank's
      questions with that tag never emits the sentinel at a slot whose number has a tag. */
  lemma {:induction false} RoundsEnough(bank: seq<Question>, n: nat, tags: nat -> seq<Option<Tag>>,
                                        choice: (nat, nat) -> nat)
    requires UniqueIds(bank)
    requires forall t :: TotalDemand(tags, n, t) <= |WithTag(bank, t)|
    ensures RunAssigned(tags, Rounds(bank, n, tags, choice).sets)
  {
    forall t ensures |WithTag(bank, t)| <= |Unused(WithTag(bank, t), Rounds(bank, 0, tags, choice).used)| + TotalDemand(tags, 0, t) {
      UnusedOfNothing(WithTag(bank, t));
    }
    var k := 0;
    while k < n
      invariant k <= n
      invariant RunSupplied(bank, tags, k, Rounds(bank, k, tags, choice))
      invariant RunAssigned(tags, Rounds(bank, k, tags, choice).sets)
    {
      RoundsEnoughStep(bank, k + 1, n, tags, choice);
      k := k + 1;
    }
  }

  /** The inductive step of `RoundsEnough`. */
  lemma RoundsEnoughStep(bank: seq<Question>, k: nat, n: nat, tags: nat -> seq<Option<Tag>>,
                         choice: (nat, nat) -> nat)
    requires 0 < k <= n && UniqueIds(bank)
    requires forall t :: TotalDemand(tags, n, t) <= |WithTag(bank, t)|
    requires RunSupplied(bank, tags, k - 1, Rounds(bank, k - 1, tags, choice))
    requires RunAssigned(tags, Rounds(bank, k - 1, tags, choice).sets)
    ensures RunSupplied(bank, tags, k, Rounds(bank, k, tags, choice))
    ensures RunAssigned(tags, Rounds(bank, k, tags, choice).sets)
  {
    var prev := Rounds(bank, k - 1, tags, choice);
    var c := RoundChoice(choice, k - 1);
    var f := FillSet(bank, tags(k - 1), c, prev.used);
    RoundsStep(bank, k, tags, choice);
    forall t ensures Demand(tags(k - 1), t) <= |Unused(WithTag(bank, t), prev.used)| {
      TotalDemandMono(tags, k, n, t);
    }
    FillSetEnough(bank, tags(k - 1), c, prev.used);
    FillSetSupply(bank, tags(k - 1), c, prev.used);
    var sets: seq<seq<Pick>> := prev.sets + [f.picks];
    forall i: nat, j: nat | i < |sets| && j < |sets[i]| && j < |tags(i)| && tags(i)[j].Some?
      ensures sets[i][j].Assigned?
    {
      if i < k - 1 {
        assert sets[i] == prev.sets[i];
      } else {
        assert sets[i] == f.picks;
      }
    }
  }
}
