/** Each delegate's stake and vote weight, added up bucket by bucket before the chain's own figures
    replace some of them. */
module DelegateMap {
  import opened Sums

  /** A candidate id, in a record of its own, so that comparing two of them never looks into the text. */
  datatype Id = Id(text: string)

  /** A native bucket's latest row. */
  datatype Staking = Staking(bucket: nat, owner: Id, candidate: Id, autoStake: bool, duration: nat)

  /** A contract bucket's latest row. */
  datatype SystemBucket = SystemBucket(delegateOwner: Id, staked: int, votingPower: int)

  datatype Tally = Tally(stake: int, weight: int)

  /** Vote weight of an amount by auto-stake, duration and self-stake; its arithmetic is not modelled. */
  type Weigh = (int, bool, nat, bool) -> int

  type Board = map<Id, Tally>

  function AmountOf(amounts: map<nat, int>, bucket: nat): int {
    if bucket in amounts then amounts[bucket] else 0
  }

  function WeightOf(weigh: Weigh, amounts: map<nat, int>, s: Staking): int {
    weigh(AmountOf(amounts, s.bucket), s.autoStake, s.duration, s.owner == s.candidate)
  }

  function Only(b: bool, v: int): int {
    if b then v else 0
  }

  /** What a delegate should be credited with: its native buckets and the contract buckets naming it. */
  function TallyOf(stakings: seq<Staking>, buckets: seq<SystemBucket>, amounts: map<nat, int>, weigh: Weigh, c: Id): Tally {
    Tally(SumSeq(stakings, (s: Staking) => Only(s.candidate == c, AmountOf(amounts, s.bucket)))
          + SumSeq(buckets, (b: SystemBucket) => Only(b.delegateOwner == c, b.staked)),
          SumSeq(stakings, (s: Staking) => Only(s.candidate == c, WeightOf(weigh, amounts, s)))
          + SumSeq(buckets, (b: SystemBucket) => Only(b.delegateOwner == c, b.votingPower)))
  }

  /** The order in which buckets arrive does not matter. */
  lemma OrderDoesNotMatter(stakings: seq<Staking>, stakings': seq<Staking>,
                           buckets: seq<SystemBucket>, buckets': seq<SystemBucket>,
                           amounts: map<nat, int>, weigh: Weigh, c: Id)
    requires multiset(stakings) == multiset(stakings') && multiset(buckets) == multiset(buckets')
    ensures TallyOf(stakings, buckets, amounts, weigh, c) == TallyOf(stakings', buckets', amounts, weigh, c)
  {
    SumSeqPermutation(stakings, stakings', (s: Staking) => Only(s.candidate == c, AmountOf(amounts, s.bucket)));
    SumSeqPermutation(stakings, stakings', (s: Staking) => Only(s.candidate == c, WeightOf(weigh, amounts, s)));
    SumSeqPermutation(buckets, buckets', (b: SystemBucket) => Only(b.delegateOwner == c, b.staked));
    SumSeqPermutation(buckets, buckets', (b: SystemBucket) => Only(b.delegateOwner == c, b.votingPower));
  }

  ghost function WeightIn(m: Board): Id -> int {
    c => if c in m then m[c].weight else 0
  }

  ghost function TotalWeight(m: Board): int {
    SumSet(m.Keys, WeightIn(m))
  }

  lemma TotalWeightPut(m: Board, c: Id, t: Tally)
    ensures TotalWeight(m[c := t]) == TotalWeight(m) - WeightIn(m)(c) + t.weight
  {
    var n := m[c := t];
    SumSetBump(m.Keys, WeightIn(m), WeightIn(n), c);
    assert n.Keys == m.Keys + {c};
  }

  /** The board after native buckets and then contract buckets. */
  function Credit(m: Board, c: Id, stake: int, weight: int): Board {
    m[c := if c in m then Tally(m[c].stake + stake, m[c].weight + weight) else Tally(stake, weight)]
  }

  predicate StakedIn(stakings: seq<Staking>, c: Id) {
    exists i :: 0 <= i < |stakings| && stakings[i].candidate == c
  }

  /** Every native bucket has a known candidate and a known amount. */
  predicate Complete(stakings: seq<Staking>, candidates: seq<Id>, amounts: map<nat, int>) {
    forall i :: 0 <= i < |stakings| ==> stakings[i].candidate in candidates && stakings[i].bucket in amounts
  }

  function Concat(lists: seq<seq<SystemBucket>>): seq<SystemBucket> {
    if lists == [] then [] else Concat(lists[..|lists| - 1]) + lists[|lists| - 1]
  }

  /** The board holds the tally of the buckets seen so far, for each of its delegates. */
  ghost predicate Tallies(m: Board, stakings: seq<Staking>, buckets: seq<SystemBucket>, amounts: map<nat, int>, weigh: Weigh) {
    forall c :: c in m ==> m[c] == TallyOf(stakings, buckets, amounts, weigh, c)
  }

  lemma CreditStaking(m: Board, stakings: seq<Staking>, s: Staking, amounts: map<nat, int>, weigh: Weigh)
    requires Tallies(m, stakings, [], amounts, weigh)
    requires s.candidate !in m ==> !StakedIn(stakings, s.candidate)
    ensures Tallies(Credit(m, s.candidate, AmountOf(amounts, s.bucket), WeightOf(weigh, amounts, s)),
                    stakings + [s], [], amounts, weigh)
  {
    assert (stakings + [s])[..|stakings|] == stakings;
    if s.candidate !in m {
      UnstakedIsZero(stakings, amounts, weigh, s.candidate);
    }
  }

  lemma {:induction false} UnstakedIsZero(stakings: seq<Staking>, amounts: map<nat, int>, weigh: Weigh, c: Id)
    requires !StakedIn(stakings, c)
    ensures TallyOf(stakings, [], amounts, weigh, c) == Tally(0, 0)
  {
    if stakings == [] {
    } else {
      var pre, n := stakings[..|stakings| - 1], |stakings| - 1;
      assert stakings[n].candidate != c;
      forall i | 0 <= i < |pre| ensures pre[i].candidate != c {
        assert stakings[i].candidate != c;
      }
      UnstakedIsZero(pre, amounts, weigh, c);
    }
  }

  lemma CreditBucket(m: Board, stakings: seq<Staking>, buckets: seq<SystemBucket>, b: SystemBucket,
                     amounts: map<nat, int>, weigh: Weigh)
    requires Tallies(m, stakings, buckets, amounts, weigh)
    ensures Tallies(if b.delegateOwner in m then Credit(m, b.delegateOwner, b.staked, b.votingPower) else m,
                    stakings, buckets + [b], amounts, weigh)
  {
    assert (buckets + [b])[..|buckets|] == buckets;
  }

  class Tallying {
    var delegates: Board
    var totalVotes: int

    ghost predicate Valid()
      reads this
    {
      totalVotes == TotalWeight(delegates)
    }

    constructor ()
      ensures Valid() && delegates == map[]
    {
      delegates, totalVotes := map[], 0;
    }

    method AddTo(c: Id, stake: int, weight: int)
      requires Valid()
      modifies this
      ensures Valid() && delegates == Credit(old(delegates), c, stake, weight)
    {
      var t := if c in delegates then delegates[c] else Tally(0, 0);
      TotalWeightPut(delegates, c, Tally(t.stake + stake, t.weight + weight));
      delegates := delegates[c := Tally(t.stake + stake, t.weight + weight)];
      totalVotes := totalVotes + weight;
    }

    /** Buckets naming nobody on the board are skipped. */
    method AddSystemStakings(buckets: seq<SystemBucket>, ghost stakings: seq<Staking>, ghost seen: seq<SystemBucket>,
                             ghost amounts: map<nat, int>, ghost weigh: Weigh)
      requires Valid() && Tallies(delegates, stakings, seen, amounts, weigh)
      modifies this
      ensures Valid() && Tallies(delegates, stakings, seen + buckets, amounts, weigh)
      ensures delegates.Keys == old(delegates).Keys
    {
      assert seen + buckets[..0] == seen;
      for i := 0 to |buckets|
        invariant Valid() && Tallies(delegates, stakings, seen + buckets[..i], amounts, weigh)
        invariant delegates.Keys == old(delegates).Keys
      {
        assert seen + buckets[..i + 1] == (seen + buckets[..i]) + [buckets[i]];
        CreditBucket(delegates, stakings, seen + buckets[..i], buckets[i], amounts, weigh);
        if buckets[i].delegateOwner in delegates {
          AddTo(buckets[i].delegateOwner, buckets[i].staked, buckets[i].votingPower);
        }
      }
      assert buckets[..|buckets|] == buckets;
    }

    /** Candidates without native buckets start at zero. */
    method AddUnstaked(candidates: seq<Id>, stakings: seq<Staking>)
      requires Valid() && delegates == map[]
      modifies this
      ensures Valid()
      ensures forall c :: c in delegates <==> c in candidates && !StakedIn(stakings, c)
      ensures forall c :: c in delegates ==> delegates[c] == Tally(0, 0)
    {
      for i := 0 to |candidates|
        invariant Valid()
        invariant forall c :: c in delegates <==> c in candidates[..i] && !StakedIn(stakings, c)
        invariant forall c :: c in delegates ==> delegates[c] == Tally(0, 0)
      {
        assert candidates[..i + 1] == candidates[..i] + [candidates[i]];
        if !StakedIn(stakings, candidates[i]) && candidates[i] !in delegates {
          AddTo(candidates[i], 0, 0);
        }
      }
      assert candidates[..|candidates|] == candidates;
    }

    /** Every delegate ends up with its native buckets plus the contract buckets naming it, and the total
        is the sum of the weights. Fails exactly when a native bucket has an unknown candidate or amount. */
    method GetDelegateMap(stakings: seq<Staking>, systems: seq<seq<SystemBucket>>, candidates: seq<Id>,
                          amounts: map<nat, int>, weigh: Weigh) returns (ok: bool)
      requires Valid() && delegates == map[]
      modifies this
      ensures ok <==> Complete(stakings, candidates, amounts)
      ensures ok ==> Valid() && Tallies(delegates, stakings, Concat(systems), amounts, weigh)
      ensures ok ==> forall c :: c in delegates <==> c in candidates
    {
      AddUnstaked(candidates, stakings);
      ok := AddStakings(stakings, candidates, amounts, weigh);
      if !ok {
        return;
      }
      for k := 0 to |systems|
        invariant Valid() && Tallies(delegates, stakings, Concat(systems[..k]), amounts, weigh)
        invariant forall c :: c in delegates <==> c in candidates
      {
        assert systems[..k + 1][..k] == systems[..k];
        AddSystemStakings(systems[k], stakings, Concat(systems[..k]), amounts, weigh);
      }
      assert systems[..|systems|] == systems;
    }

    method AddStakings(stakings: seq<Staking>, candidates: seq<Id>, amounts: map<nat, int>, weigh: Weigh) returns (ok: bool)
      requires Valid()
      requires forall c :: c in delegates <==> c in candidates && !StakedIn(stakings, c)
      requires forall c :: c in delegates ==> delegates[c] == Tally(0, 0)
      modifies this
      ensures ok <==> Complete(stakings, candidates, amounts)
      ensures ok ==> Valid() && Tallies(delegates, stakings, [], amounts, weigh)
      ensures ok ==> forall c :: c in delegates <==> c in candidates
    {
      for i := 0 to |stakings|
        invariant Valid() && Complete(stakings[..i], candidates, amounts)
        invariant Tallies(delegates, stakings[..i], [], amounts, weigh)
        invariant forall c :: c in delegates <==> (c in candidates && !StakedIn(stakings, c)) || StakedIn(stakings[..i], c)
      {
        var s := stakings[i];
        assert stakings[..i + 1] == stakings[..i] + [s];
        assert StakedIn(stakings, s.candidate);
        if s.candidate !in delegates && s.candidate !in candidates {
          return false;
        }
        if s.bucket !in amounts {
          return false;
        }
        CreditStaking(delegates, stakings[..i], s, amounts, weigh);
        StakedSnoc(stakings[..i], s);
        AddTo(s.candidate, amounts[s.bucket], weigh(amounts[s.bucket], s.autoStake, s.duration, s.owner == s.candidate));
      }
      assert stakings[..|stakings|] == stakings;
      return true;
    }
  }

  lemma StakedSnoc(stakings: seq<Staking>, s: Staking)
    ensures forall c :: StakedIn(stakings + [s], c) <==> StakedIn(stakings, c) || c == s.candidate
  {
    var all := stakings + [s];
    forall c ensures StakedIn(all, c) <==> StakedIn(stakings, c) || c == s.candidate {
      if StakedIn(stakings, c) {
        var i :| 0 <= i < |stakings| && stakings[i].candidate == c;
        assert all[i].candidate == c;
      }
      if c == s.candidate {
        assert all[|stakings|].candidate == c;
      }
    }
  }
}
