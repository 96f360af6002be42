/**
 Multi-signature ballots: the admin set stays usable, and a ballot's outcome is
 a function of its votes alone.
 */
module Ballots {
  import opened Types
  import opened Sequences
  import opened Insurance
  import opened Coverage
  import opened Runs

  // ------------------------------------------------------------- the admin set

  /** Admins are non-empty and distinct, and the threshold is between one and
      their number. */
  ghost predicate AdminsOk(inst: Instance) {
    && inst.admin.Some?
    && inst.admins != []
    && Distinct(inst.admins)
    && 1 <= inst.threshold <= |inst.admins|
  }

  function Voters(b: ClaimVotes): seq<Address> { b.approvals + b.rejections }

  /** Nobody appears twice on a ballot. */
  ghost predicate VotesOk(inst: Instance) {
    forall id :: id in inst.votes ==> Distinct(Voters(inst.votes[id]))
  }

  lemma {:induction false} InitAdmins(s: State, auth: set<Address>, admin: Address)
    requires s.world.inst.admin.None? && VotesOk(s.world.inst)
    ensures var t := Apply(s, auth, Configure(Init(admin))).0; AdminsOk(t.world.inst) && VotesOk(t.world.inst)
  {
  }

  lemma {:induction false} SettingKeepsAdmins(inst: Instance, now: nat, auth: set<Address>, setting: Setting)
    requires AdminsOk(inst) && VotesOk(inst)
    ensures var c := Update(inst, now, auth, setting); c.Updated? ==> AdminsOk(c.inst) && VotesOk(c.inst)
  {
    match setting
    case AddAdmin(_, target) =>
      if target !in inst.admins { DistinctSnoc(inst.admins, target); }
    case RemoveAdmin(_, target) => WithoutDistinct(inst.admins, target);
    case _ =>
  }

  lemma {:induction false} VoteKeepsAdmins(w: World, id: nat, p: Policy, voter: Address, approve: bool)
    requires AdminsOk(w.inst) && VotesOk(w.inst)
    ensures var v := VoteClaimOn(w, id, p, voter, approve);
      v.Accept? ==> AdminsOk(v.world.inst) && VotesOk(v.world.inst)
  {
    SettlementFrames(w, {}, id, p, VoteClaim(voter, approve));
    VoteWrites(w, id, p, voter, approve);
    var v := VoteClaimOn(w, id, p, voter, approve);
    if v.Accept? { VoteLeavesOk(w.inst, v.world.inst, id, Vote(voter, approve)); }
  }

  lemma {:induction false} VoteLeavesOk(was: Instance, now: Instance, id: nat, v: Vote)
    requires AdminsOk(was) && VotesOk(was) && v.voter !in Voters(Ballot(was, id))
    requires now.admin == was.admin && now.admins == was.admins && now.threshold == was.threshold
    requires now.votes == was.votes - {id} || now.votes == was.votes[id := Cast(Ballot(was, id), v)]
    ensures AdminsOk(now) && VotesOk(now)
  {
    OneMoreVoter(Ballot(was, id), v);
  }

  /** An accepted vote clears the claim's ballot or stores it with the vote added. */
  lemma {:induction false} VoteWrites(w: World, id: nat, p: Policy, voter: Address, approve: bool)
    ensures var v := VoteClaimOn(w, id, p, voter, approve);
      v.Accept? ==>
        && voter !in Voters(Ballot(w.inst, id))
        && (v.world.inst.votes == w.inst.votes - {id}
            || v.world.inst.votes == w.inst.votes[id := Cast(Ballot(w.inst, id), Vote(voter, approve))])
  {
    PayOutFrames(w, {}, id, p.policyholder, false);
  }

  lemma {:induction false} OpKeepsAdmins(w: World, auth: set<Address>, id: nat, p: Policy, op: PolicyOp)
    requires AdminsOk(w.inst) && VotesOk(w.inst)
    ensures var v := Operate(w, auth, id, p, op); v.Accept? ==> AdminsOk(v.world.inst) && VotesOk(v.world.inst)
  {
    if op.VoteClaim? {
      VoteKeepsAdmins(w, id, p, op.voter, op.approve);
    } else {
      OpFrames(w, auth, id, p, op);
    }
  }

  /** The admin set and the ballots stay well formed over every run. */
  lemma {:induction false} RunKeepsAdmins(s: State, txs: seq<Tx>)
    requires AdminsOk(s.world.inst) && VotesOk(s.world.inst)
    ensures AdminsOk(Run(s, txs).world.inst) && VotesOk(Run(s, txs).world.inst)
    decreases |txs|
  {
    if txs != [] {
      var tx, t := txs[0], Advance(s, txs[0].elapsed);
      match tx.call {
        case OnPolicy(id, op) =>
          if id in t.policies { OpKeepsAdmins(t.world, tx.auth, id, View(t.policies[id], t.world.now), op); }
        case Configure(setting) => SettingKeepsAdmins(t.world.inst, t.world.now, tx.auth, setting);
        case _ =>
      }
      RunKeepsAdmins(Step(s, tx).0, txs[1..]);
    }
  }

  /** Before init there is no admin and nobody can vote. */
  ghost predicate NoAdmins(inst: Instance) {
    inst.admin.None? && inst.admins == [] && inst.votes == map[]
  }

  lemma {:induction false} StepFromNoAdmins(s: State, tx: Tx)
    requires NoAdmins(s.world.inst)
    ensures var inst := Step(s, tx).0.world.inst; NoAdmins(inst) || (AdminsOk(inst) && VotesOk(inst))
  {
    var t := Advance(s, tx.elapsed);
    match tx.call
    case OnPolicy(id, op) =>
      OpShape(t, tx.auth, id, op);
      if id in t.policies { OpFrames(t.world, tx.auth, id, View(t.policies[id], t.world.now), op); }
    case Configure(setting) => if setting.Init? { InitAdmins(t, tx.auth, setting.admin); }
    case _ =>
  }

  /** In every state reachable from deployment nobody is twice on a ballot, and once
      there is an admin the admin set is well formed. */
  lemma {:induction false} ReachableAdmins(bank: Bank, token: Option<Address>, now: nat, txs: seq<Tx>)
    ensures var inst := Run(Genesis(bank, token, now), txs).world.inst;
      VotesOk(inst) && (inst.admin.Some? ==> AdminsOk(inst))
  {
    RunFromNoAdmins(Genesis(bank, token, now), txs);
  }

  lemma {:induction false} RunFromNoAdmins(s: State, txs: seq<Tx>)
    requires NoAdmins(s.world.inst)
    ensures var inst := Run(s, txs).world.inst; NoAdmins(inst) || (AdminsOk(inst) && VotesOk(inst))
    decreases |txs|
  {
    if txs != [] {
      StepFromNoAdmins(s, txs[0]);
      var t := Step(s, txs[0]).0;
      if NoAdmins(t.world.inst) { RunFromNoAdmins(t, txs[1..]); } else { RunKeepsAdmins(t, txs[1..]); }
    }
  }

  // ----------------------------------------------------------- voting sequences

  /** The ballot after the votes, if none of them decided it. */
  function CastAll(b: ClaimVotes, votes: seq<Vote>): (r: ClaimVotes)
    ensures |Voters(r)| == |Voters(b)| + |votes|
    ensures |r.approvals| == |b.approvals| + Yes(votes)
    ensures |r.rejections| == |b.rejections| + |votes| - Yes(votes)
  {
    if votes == [] then b else Cast(CastAll(b, votes[..|votes| - 1]), votes[|votes| - 1])
  }

  function Yes(votes: seq<Vote>): (n: nat)
    ensures n <= |votes|
  {
    if votes == [] then 0
    else Yes(votes[..|votes| - 1]) + if votes[|votes| - 1].approve then 1 else 0
  }

  function VoteTx(id: nat, v: Vote): Tx {
    Tx(0, {v.voter}, OnPolicy(id, VoteClaim(v.voter, v.approve)))
  }

  function VoteTxs(id: nat, votes: seq<Vote>): (txs: seq<Tx>)
    ensures |txs| == |votes|
  {
    if votes == [] then [] else VoteTxs(id, votes[..|votes| - 1]) + [VoteTx(id, votes[|votes| - 1])]
  }

  /** Votes of different current admins, none of whom is on the ballot yet. */
  ghost predicate Eligible(inst: Instance, b: ClaimVotes, votes: seq<Vote>) {
    && (forall i :: 0 <= i < |votes| ==> votes[i].voter in inst.admins && votes[i].voter !in Voters(b))
    && (forall i, j :: 0 <= i < j < |votes| ==> votes[i].voter != votes[j].voter)
  }

  /** Every name on the ballot is still an admin's.  remove_admin does not touch
      ballots, so this can fail. */
  ghost predicate Current(inst: Instance, b: ClaimVotes) {
    forall x :: x in Voters(b) ==> x in inst.admins
  }

  /** A pending claim with ballot b, in a running contract that can pay it. */
  ghost predicate Pending(s: State, id: nat, b: ClaimVotes) {
    var inst := s.world.inst;
    && AdminsOk(inst) && !inst.paused
    && id in s.policies && s.policies[id].status == ClaimPending
    && Ballot(inst, id) == b && Distinct(Voters(b))
    && Payable(s, id)
  }

  /** Whether the counts decide one way or the other. */
  predicate Decided(inst: Instance, b: ClaimVotes) {
    |b.approvals| >= inst.threshold || |b.rejections| > |inst.admins| - inst.threshold
  }

  /** A pending claim whose ballot is not decided as it stands. */
  ghost predicate Open(s: State, id: nat, b: ClaimVotes) { Pending(s, id, b) && !Decided(s.world.inst, b) }

  /** The approved payout would go through: token set, balances and totals in range. */
  ghost predicate Payable(s: State, id: nat)
    requires id in s.policies
  {
    && id in s.world.inst.claims
    && var p, amount := s.policies[id], s.world.inst.claims[id].amount;
       && FitsI128(p.totalClaimed + amount)
       && var paid := PayFromContract(s.world, p.policyholder, amount);
          && paid.Ok?
          && BookPayout(paid.value, id, p.policyholder, amount).Ok?
  }

  /** The one state an approving ballot leads to. */
  ghost function ApprovedState(s: State, id: nat): State
    requires id in s.policies && Payable(s, id)
  {
    var p, claim := s.policies[id], s.world.inst.claims[id];
    var paid := PayFromContract(s.world, p.policyholder, claim.amount).value;
    var booked := BookPayout(paid, id, p.policyholder, claim.amount).value;
    State(s.policies[id := Approved(p, claim.amount)],
          booked.(inst := booked.inst.(claims := s.world.inst.claims[id := claim.(approved := true)],
                                       votes := s.world.inst.votes - {id})))
  }

  /** The one state a rejecting ballot leads to. */
  ghost function RejectedState(s: State, id: nat): State
    requires id in s.policies
  {
    State(s.policies[id := Rejected(s.policies[id])],
          s.world.(inst := s.world.inst.(votes := s.world.inst.votes - {id})))
  }

  /** The state with the votes recorded and nothing decided. */
  ghost function RecordedState(s: State, id: nat, b: ClaimVotes, votes: seq<Vote>): State {
    if votes == [] then s
    else s.(world := s.world.(inst := s.world.inst.(votes := s.world.inst.votes[id := CastAll(b, votes)])))
  }

  /** The verdict of the first vote that decides: Some(true) approves, Some(false)
      rejects.  The counts are looked at only when a vote is cast. */
  function FirstVerdict(inst: Instance, b: ClaimVotes, votes: seq<Vote>): Option<bool> {
    if votes == [] then None
    else
      var earlier, cast := FirstVerdict(inst, b, votes[..|votes| - 1]), CastAll(b, votes);
      if earlier.Some? then earlier
      else if |cast.approvals| >= inst.threshold then Some(true)
      else if |cast.rejections| > |inst.admins| - inst.threshold then Some(false)
      else None
  }

  /** Where the votes lead. */
  ghost function Outcome(s: State, id: nat, b: ClaimVotes, votes: seq<Vote>): State
    requires Pending(s, id, b)
  {
    match FirstVerdict(s.world.inst, b, votes)
    case Some(approved) => if approved then ApprovedState(s, id) else RejectedState(s, id)
    case None => RecordedState(s, id, b, votes)
  }

  lemma {:induction false} OneVote(s: State, id: nat, b: ClaimVotes, v: Vote)
    requires Pending(s, id, b)
    requires v.voter in s.world.inst.admins && v.voter !in Voters(b)
    ensures Step(s, VoteTx(id, v)).1.Ok?
    ensures Step(s, VoteTx(id, v)).0
         == if |Cast(b, v).approvals| >= s.world.inst.threshold then ApprovedState(s, id)
            else if |Cast(b, v).rejections| > |s.world.inst.admins| - s.world.inst.threshold then RejectedState(s, id)
            else s.(world := s.world.(inst := s.world.inst.(votes := s.world.inst.votes[id := Cast(b, v)])))
  {
    assert Advance(s, 0) == s;
  }

  /** A decided claim takes no further vote. */
  lemma {:induction false} VoteAfterDecision(s: State, id: nat, v: Vote)
    requires id in s.policies && s.policies[id].status != ClaimPending
    ensures Step(s, VoteTx(id, v)).0 == s
  {
    assert Advance(s, 0) == s;
  }

  predicate Named(votes: seq<Vote>, x: Address) { exists i :: 0 <= i < |votes| && votes[i].voter == x }

  /** The names on a ballot after eligible votes. */
  lemma {:induction false} CastVoters(inst: Instance, b: ClaimVotes, votes: seq<Vote>)
    requires Distinct(Voters(b)) && Eligible(inst, b, votes)
    ensures Distinct(Voters(CastAll(b, votes)))
    ensures forall x :: x in Voters(CastAll(b, votes)) <==> x in Voters(b) || Named(votes, x)
    decreases |votes|
  {
    if votes != [] {
      var front, last := votes[..|votes| - 1], votes[|votes| - 1];
      var was := CastAll(b, front);
      CastVoters(inst, b, front);
      assert !Named(front, last.voter);
      OneMoreVoter(was, last);
      forall x ensures Named(votes, x) <==> Named(front, x) || x == last.voter {
        if Named(front, x) { var i :| 0 <= i < |front| && front[i].voter == x; assert votes[i].voter == x; }
        if x == last.voter { assert votes[|votes| - 1].voter == x; }
        if Named(votes, x) && x != last.voter {
          var i :| 0 <= i < |votes| && votes[i].voter == x;
          assert front[i].voter == x;
        }
      }
    }
  }

  lemma {:induction false} OneMoreVoter(b: ClaimVotes, v: Vote)
    requires Distinct(Voters(b)) && v.voter !in Voters(b)
    ensures Distinct(Voters(Cast(b, v)))
    ensures forall x :: x in Voters(Cast(b, v)) <==> x in Voters(b) || x == v.voter
  {
    if v.approve {
      SpliceDistinct(b.approvals, [v.voter], b.rejections);
    } else {
      DistinctSnoc(Voters(b), v.voter);
      assert Voters(Cast(b, v)) == Voters(b) + [v.voter];
    }
    assert v.voter in [v.voter];
  }

  lemma {:induction false} RecordedIsPending(s: State, id: nat, b: ClaimVotes, votes: seq<Vote>)
    requires Pending(s, id, b) && Eligible(s.world.inst, b, votes)
    ensures var s' := RecordedState(s, id, b, votes);
      && Pending(s', id, CastAll(b, votes))
      && s'.world.inst.admins == s.world.inst.admins && s'.world.inst.threshold == s.world.inst.threshold
      && RejectedState(s', id) == RejectedState(s, id)
      && ApprovedState(s', id) == ApprovedState(s, id)
  {
    var s' := RecordedState(s, id, b, votes);
    CastVoters(s.world.inst, b, votes);
    assert s'.world.inst.votes - {id} == s.world.inst.votes - {id};
  }

  /** Ballot exactness, for any pending claim and any ballot, removed admins' names
      included: running eligible votes one transaction at a time ends in the state of
      the first vote that decides, or with all of them recorded. */
  lemma {:induction false} BallotOutcome(s: State, id: nat, b: ClaimVotes, votes: seq<Vote>)
    requires Pending(s, id, b)
    requires Eligible(s.world.inst, b, votes)
    ensures Run(s, VoteTxs(id, votes)) == Outcome(s, id, b, votes)
    decreases |votes|
  {
    if votes != [] {
      var inst := s.world.inst;
      var front, last := votes[..|votes| - 1], votes[|votes| - 1];
      BallotOutcome(s, id, b, front);
      RunAppend(s, VoteTxs(id, front), [VoteTx(id, last)]);
      var m := Run(s, VoteTxs(id, front));
      RunOne(m, VoteTx(id, last));
      if FirstVerdict(inst, b, front).Some? {
        VoteAfterDecision(m, id, last);
      } else {
        NextVote(s, id, b, votes);
      }
    }
  }

  /** One vote more on a ballot that no earlier vote decided. */
  lemma {:induction false} NextVote(s: State, id: nat, b: ClaimVotes, votes: seq<Vote>)
    requires Pending(s, id, b) && Eligible(s.world.inst, b, votes)
    requires votes != [] && FirstVerdict(s.world.inst, b, votes[..|votes| - 1]).None?
    ensures Step(RecordedState(s, id, b, votes[..|votes| - 1]), VoteTx(id, votes[|votes| - 1])).0
      == Outcome(s, id, b, votes)
  {
    var front, last := votes[..|votes| - 1], votes[|votes| - 1];
    CastVoters(s.world.inst, b, front);
    assert !Named(front, last.voter);
    RecordedIsPending(s, id, b, front);
    OneVote(RecordedState(s, id, b, front), id, CastAll(b, front), last);
    RecordAgain(s, id, b, votes);
  }

  lemma {:induction false} RecordAgain(s: State, id: nat, b: ClaimVotes, votes: seq<Vote>)
    requires votes != []
    ensures var m := RecordedState(s, id, b, votes[..|votes| - 1]);
      m.(world := m.world.(inst := m.world.inst.(votes := m.world.inst.votes[id := CastAll(b, votes)])))
        == RecordedState(s, id, b, votes)
  {
  }

  // -------------------------------------------------------- ballots that decide

  /** On an open ballot of current admins the first verdict is the one the final
      counts give. */
  lemma {:induction false} CountsDecide(inst: Instance, b: ClaimVotes, votes: seq<Vote>)
    requires AdminsOk(inst) && Distinct(Voters(b)) && Current(inst, b) && !Decided(inst, b) && Eligible(inst, b, votes)
    ensures var cast := CastAll(b, votes);
      FirstVerdict(inst, b, votes)
      == if |cast.approvals| >= inst.threshold then Some(true)
         else if |cast.rejections| > |inst.admins| - inst.threshold then Some(false)
         else None
    decreases |votes|
  {
    if votes != [] {
      CountsDecide(inst, b, votes[..|votes| - 1]);
      NeverBoth(inst, b, votes);
    }
  }

  /** Approval and forced rejection exclude each other on a ballot of current admins. */
  lemma {:induction false} NeverBoth(inst: Instance, b: ClaimVotes, votes: seq<Vote>)
    requires AdminsOk(inst) && Distinct(Voters(b)) && Current(inst, b) && Eligible(inst, b, votes)
    ensures !(|CastAll(b, votes).approvals| >= inst.threshold && RejectionForced(inst, |CastAll(b, votes).rejections|))
  {
    CastVoters(inst, b, votes);
    DistinctFits(Voters(CastAll(b, votes)), inst.admins);
  }

  /** A fresh full ballot always decides: it approves when the approvals reach
      the threshold and rejects otherwise. */
  lemma {:induction false} FullBallotDecides(s: State, id: nat, votes: seq<Vote>)
    requires Pending(s, id, ClaimVotes([], []))
    requires Eligible(s.world.inst, ClaimVotes([], []), votes)
    requires |votes| == |s.world.inst.admins|
    ensures Run(s, VoteTxs(id, votes))
         == if Yes(votes) >= s.world.inst.threshold then ApprovedState(s, id) else RejectedState(s, id)
    ensures Run(s, VoteTxs(id, votes)).policies[id].status != ClaimPending
  {
    BallotOutcome(s, id, ClaimVotes([], []), votes);
    CountsDecide(s.world.inst, ClaimVotes([], []), votes);
  }

  /** The exact condition, whatever happened to the admins before: from any pending
      claim and any ballot, once every current admin has voted, the claim is decided
      if and only if some current admin was not on the ballot at the start. */
  lemma {:induction false} FullBallotDecidesIff(s: State, id: nat, b: ClaimVotes, votes: seq<Vote>)
    requires Pending(s, id, b) && Eligible(s.world.inst, b, votes)
    requires forall a :: a in s.world.inst.admins ==> a in Voters(b) || Named(votes, a)
    ensures var t := Run(s, VoteTxs(id, votes));
      && id in t.policies
      && (t.policies[id].status != ClaimPending <==> exists a :: a in s.world.inst.admins && a !in Voters(b))
  {
    var inst := s.world.inst;
    BallotOutcome(s, id, b, votes);
    if votes != [] {
      var cast := CastAll(b, votes);
      CastVoters(inst, b, votes);
      DistinctFits(inst.admins, Voters(cast));
      assert votes[0].voter in inst.admins && votes[0].voter !in Voters(b);
      assert |cast.approvals| + |cast.rejections| >= |inst.admins|;
    }
  }

  // --------------------------------------------------------- the order of votes

  /** On an open ballot of current admins the outcome is the same for every voting
      order: the same votes end in the same state when they decide, and otherwise
      leave everything but the order of the names on the ballot the same. */
  lemma {:induction false} OrderDoesNotMatter(s: State, id: nat, b: ClaimVotes, votes: seq<Vote>, votes': seq<Vote>)
    requires Open(s, id, b) && Current(s.world.inst, b)
    requires Eligible(s.world.inst, b, votes) && Eligible(s.world.inst, b, votes')
    requires multiset(votes) == multiset(votes')
    ensures var t, t' := Run(s, VoteTxs(id, votes)), Run(s, VoteTxs(id, votes'));
      if Decided(s.world.inst, CastAll(b, votes)) then t == t'
      else
        && t == RecordedState(s, id, b, votes) && t' == RecordedState(s, id, b, votes')
        && multiset(CastAll(b, votes).approvals) == multiset(CastAll(b, votes').approvals)
        && multiset(CastAll(b, votes).rejections) == multiset(CastAll(b, votes').rejections)
  {
    YesOfMultiset(votes, votes');
    BallotOutcome(s, id, b, votes);
    BallotOutcome(s, id, b, votes');
    CountsDecide(s.world.inst, b, votes);
    CountsDecide(s.world.inst, b, votes');
    forall x: Address
      ensures multiset(CastAll(b, votes).approvals)[x] == multiset(CastAll(b, votes').approvals)[x]
      ensures multiset(CastAll(b, votes).rejections)[x] == multiset(CastAll(b, votes').rejections)[x]
    {
      CastCounts(b, votes, x);
      CastCounts(b, votes', x);
    }
  }

  /** Two voting orders end alike: same policies, same payouts. */
  ghost predicate SameEnd(s: State, id: nat, votes: seq<Vote>, votes': seq<Vote>) {
    var t, t' := Run(s, VoteTxs(id, votes)), Run(s, VoteTxs(id, votes'));
    t.policies == t'.policies && t.world.inst.payouts == t'.world.inst.payouts
  }

  /** On an open ballot all orders of all votes end alike if and only if every name
      already on it is a current admin's. */
  lemma {:induction false} OrderFreeIff(s: State, id: nat, b: ClaimVotes)
    requires Open(s, id, b)
    ensures (forall votes, votes' |
               Eligible(s.world.inst, b, votes) && Eligible(s.world.inst, b, votes')
               && multiset(votes) == multiset(votes')
               :: SameEnd(s, id, votes, votes'))
       <==> Current(s.world.inst, b)
  {
    var inst := s.world.inst;
    if Current(inst, b) {
      forall votes, votes' | Eligible(inst, b, votes) && Eligible(inst, b, votes')
          && multiset(votes) == multiset(votes')
        ensures SameEnd(s, id, votes, votes')
      {
        OrderDoesNotMatter(s, id, b, votes, votes');
      }
    } else {
      var yes, no := OrderMatters(s, id, b);
      assert multiset(yes + no) == multiset(no + yes);
      assert !SameEnd(s, id, yes + no, no + yes);
    }
  }

  /** One vote the same way from each listed admin. */
  function AllVote(voters: seq<Address>, approve: bool): (votes: seq<Vote>)
    ensures |votes| == |voters|
    ensures forall i :: 0 <= i < |voters| ==> votes[i] == Vote(voters[i], approve)
  {
    seq(|voters|, i requires 0 <= i < |voters| => Vote(voters[i], approve))
  }

  lemma {:induction false} AllVoteBallot(b: ClaimVotes, voters: seq<Address>, approve: bool)
    ensures CastAll(b, AllVote(voters, approve))
      == if approve then b.(approvals := b.approvals + voters) else b.(rejections := b.rejections + voters)
    ensures Yes(AllVote(voters, approve)) == if approve then |voters| else 0
    decreases |voters|
  {
    if voters == [] {
      assert b.approvals + voters == b.approvals && b.rejections + voters == b.rejections;
    } else {
      var front, last, votes := voters[..|voters| - 1], voters[|voters| - 1], AllVote(voters, approve);
      assert votes[..|votes| - 1] == AllVote(front, approve);
      AllVoteBallot(b, front, approve);
      assert front + [last] == voters;
      assert b.approvals + front + [last] == b.approvals + voters;
      assert b.rejections + front + [last] == b.rejections + voters;
    }
  }

  /** Votes all one way on an undecided ballot decide when their count is reached. */
  lemma {:induction false} AllVoteVerdict(inst: Instance, b: ClaimVotes, voters: seq<Address>, approve: bool)
    requires !Decided(inst, b)
    ensures FirstVerdict(inst, b, AllVote(voters, approve))
      == if approve && |b.approvals| + |voters| >= inst.threshold then Some(true)
         else if !approve && |b.rejections| + |voters| > |inst.admins| - inst.threshold then Some(false)
         else None
    decreases |voters|
  {
    if voters != [] {
      var votes := AllVote(voters, approve);
      assert votes[..|votes| - 1] == AllVote(voters[..|voters| - 1], approve);
      AllVoteVerdict(inst, b, voters[..|voters| - 1], approve);
      AllVoteBallot(b, voters, approve);
    }
  }

  /** A verdict stands whatever votes follow. */
  lemma {:induction false} VerdictStands(inst: Instance, b: ClaimVotes, votes: seq<Vote>, more: seq<Vote>)
    requires FirstVerdict(inst, b, votes).Some?
    ensures FirstVerdict(inst, b, votes + more) == FirstVerdict(inst, b, votes)
    decreases |more|
  {
    if more == [] {
      assert votes + more == votes;
    } else {
      assert (votes + more)[..|votes + more| - 1] == votes + more[..|more| - 1];
      VerdictStands(inst, b, votes, more[..|more| - 1]);
    }
  }

  /** The admins who have not voted. */
  function Remaining(admins: seq<Address>, voted: seq<Address>): (r: seq<Address>)
    ensures forall x :: x in r <==> x in admins && x !in voted
    decreases |voted|
  {
    if voted == [] then admins else Without(Remaining(admins, voted[1..]), voted[0])
  }

  /** How many of the names are no longer admins'. */
  function Stale(admins: seq<Address>, voted: seq<Address>): (n: nat)
    ensures n > 0 <==> exists x :: x in voted && x !in admins
    decreases |voted|
  {
    if voted == [] then 0
    else
      assert voted == [voted[0]] + voted[1..];
      Stale(admins, voted[1..]) + if voted[0] in admins then 0 else 1
  }

  lemma {:induction false} RemainingCount(admins: seq<Address>, voted: seq<Address>)
    requires Distinct(admins) && Distinct(voted)
    ensures Distinct(Remaining(admins, voted))
    ensures |Remaining(admins, voted)| == |admins| - |voted| + Stale(admins, voted)
    decreases |voted|
  {
    if voted != [] {
      assert voted == [voted[0]] + voted[1..];
      RemainingCount(admins, voted[1..]);
      assert voted[0] !in voted[1..];
      WithoutDistinct(Remaining(admins, voted[1..]), voted[0]);
    }
  }

  function VoterNames(votes: seq<Vote>): (names: seq<Address>)
    ensures |names| == |votes| && forall i :: 0 <= i < |votes| ==> names[i] == votes[i].voter
  {
    seq(|votes|, i requires 0 <= i < |votes| => votes[i].voter)
  }

  lemma {:induction false} NamesEligible(inst: Instance, b: ClaimVotes, votes: seq<Vote>)
    requires Distinct(VoterNames(votes))
    requires forall x :: x in VoterNames(votes) ==> x in Remaining(inst.admins, Voters(b))
    ensures Eligible(inst, b, votes)
  {
    var names := VoterNames(votes);
    forall i | 0 <= i < |votes| ensures votes[i].voter in inst.admins && votes[i].voter !in Voters(b) {
      assert names[i] in names;
    }
  }

  lemma {:induction false} RemainingEligible(inst: Instance, b: ClaimVotes, yes: seq<Address>, no: seq<Address>)
    requires Distinct(inst.admins) && Distinct(Voters(b))
    requires yes + no <= Remaining(inst.admins, Voters(b))
    ensures Eligible(inst, b, AllVote(yes, true) + AllVote(no, false))
    ensures Eligible(inst, b, AllVote(no, false) + AllVote(yes, true))
  {
    var left := Remaining(inst.admins, Voters(b));
    RemainingCount(inst.admins, Voters(b));
    var names := yes + no;
    assert names == left[..|names|] && Distinct(names);
    assert forall x :: x in names ==> x in left;
    DistinctConcat(yes, no);
    DistinctConcat(no, yes);
    assert VoterNames(AllVote(yes, true) + AllVote(no, false)) == yes + no;
    assert VoterNames(AllVote(no, false) + AllVote(yes, true)) == no + yes;
    NamesEligible(inst, b, AllVote(yes, true) + AllVote(no, false));
    NamesEligible(inst, b, AllVote(no, false) + AllVote(yes, true));
  }

  /** With a removed admin's name on the ballot there are more votes left than it
      takes both to approve and to reject, and whichever come first decide. */
  lemma {:induction false} OrderMatters(s: State, id: nat, b: ClaimVotes) returns (yes: seq<Vote>, no: seq<Vote>)
    requires Open(s, id, b) && !Current(s.world.inst, b)
    ensures Eligible(s.world.inst, b, yes + no) && Eligible(s.world.inst, b, no + yes)
    ensures !SameEnd(s, id, yes + no, no + yes)
    ensures Run(s, VoteTxs(id, yes + no)) == ApprovedState(s, id)
      && Run(s, VoteTxs(id, no + yes)) == RejectedState(s, id)
  {
    var inst := s.world.inst;
    var left := Remaining(inst.admins, Voters(b));
    RemainingCount(inst.admins, Voters(b));
    var y, n := inst.threshold - |b.approvals|, |inst.admins| - inst.threshold - |b.rejections| + 1;
    assert Stale(inst.admins, Voters(b)) > 0 by {
      var x :| x in Voters(b) && x !in inst.admins;
    }
    assert |Voters(b)| == |b.approvals| + |b.rejections|;
    assert y + n <= |left|;
    var ys, ns := left[..y], left[y..y + n];
    assert ys + ns == left[..y + n];
    yes, no := AllVote(ys, true), AllVote(ns, false);
    RemainingEligible(inst, b, ys, ns);
    AllVoteVerdict(inst, b, ys, true);
    AllVoteVerdict(inst, b, ns, false);
    VerdictStands(inst, b, yes, no);
    VerdictStands(inst, b, no, yes);
    BallotOutcome(s, id, b, yes + no);
    BallotOutcome(s, id, b, no + yes);
    assert |ApprovedState(s, id).world.inst.payouts| == |s.world.inst.payouts| + 1;
  }

  lemma {:induction false} CastCounts(b: ClaimVotes, votes: seq<Vote>, x: Address)
    ensures multiset(CastAll(b, votes).approvals)[x] == multiset(b.approvals)[x] + multiset(votes)[Vote(x, true)]
    ensures multiset(CastAll(b, votes).rejections)[x] == multiset(b.rejections)[x] + multiset(votes)[Vote(x, false)]
    decreases |votes|
  {
    if votes != [] {
      var front, last := votes[..|votes| - 1], votes[|votes| - 1];
      CastCounts(b, front, x);
      assert votes == front + [last];
      assert multiset(votes) == multiset(front) + multiset{last};
      var was, now := CastAll(b, front), CastAll(b, votes);
      if last.approve {
        assert multiset(now.approvals) == multiset(was.approvals) + multiset{last.voter}
            && now.rejections == was.rejections;
      } else {
        assert multiset(now.rejections) == multiset(was.rejections) + multiset{last.voter}
            && now.approvals == was.approvals;
      }
    }
  }

  lemma {:induction false} YesOfMultiset(votes: seq<Vote>, votes': seq<Vote>)
    requires multiset(votes) == multiset(votes')
    ensures Yes(votes) == Yes(votes') && |votes| == |votes'|
    decreases |votes|
  {
    assert |votes| == |multiset(votes)| && |votes'| == |multiset(votes')|;
    if votes != [] {
      var last := votes[|votes| - 1];
      assert votes == votes[..|votes| - 1] + [last];
      assert last in multiset(votes');
      var k :| 0 <= k < |votes'| && votes'[k] == last;
      var rest := votes'[..k] + votes'[k + 1..];
      assert votes' == votes'[..k] + [last] + votes'[k + 1..];
      assert multiset(rest) == multiset(votes') - multiset{last};
      assert multiset(votes[..|votes| - 1]) == multiset(votes) - multiset{last};
      YesOfMultiset(votes[..|votes| - 1], rest);
      YesSplit(votes'[..k], votes'[k + 1..]);
      YesSplit(votes'[..k] + [last], votes'[k + 1..]);
      YesSplit(votes'[..k], [last]);
    }
  }

  lemma {:induction false} YesSplit(xs: seq<Vote>, ys: seq<Vote>)
    ensures Yes(xs + ys) == Yes(xs) + Yes(ys)
    decreases |ys|
  {
    if ys == [] {
      assert xs + ys == xs;
    } else {
      assert (xs + ys)[..|xs + ys| - 1] == xs + ys[..|ys| - 1];
      YesSplit(xs, ys[..|ys| - 1]);
    }
  }

  // ------------------------------------------------- votes cast at any time

  /** The same votes with time passing before each of them. */
  function DelayedVoteTxs(id: nat, votes: seq<Vote>, delays: seq<nat>): seq<Tx>
    requires |delays| == |votes|
  {
    if votes == [] then []
    else
      var n := |votes| - 1;
      DelayedVoteTxs(id, votes[..n], delays[..n]) + [VoteTx(id, votes[n]).(elapsed := delays[n])]
  }

  function Total(delays: seq<nat>): nat {
    if delays == [] then 0 else Total(delays[..|delays| - 1]) + delays[|delays| - 1]
  }

  function AtTime(v: Verdict, now: nat): Verdict {
    match v
    case Refuse(_) => v
    case Accept(w, p, reply) => Accept(w.(now := now), p, reply)
  }

  lemma {:induction false} SettleIgnoresTime(w: World, id: nat, p: Policy, now: nat)
    ensures Settle(w.(now := now), {}, id, p, false) == AtTime(Settle(w, {}, id, p, false), now)
  {
  }

  lemma {:induction false} VerdictIgnoresTime(w: World, id: nat, p: Policy, v: Vote, now: nat)
    ensures VoteClaimOn(w.(now := now), id, p, v.voter, v.approve)
      == AtTime(VoteClaimOn(w, id, p, v.voter, v.approve), now)
  {
    SettleIgnoresTime(w, id, p, now);
  }

  /** A vote does not look at the clock. */
  lemma {:induction false} VoteIgnoresTime(s: State, id: nat, v: Vote, elapsed: nat)
    ensures Step(Advance(s, elapsed), VoteTx(id, v))
         == (Advance(Step(s, VoteTx(id, v)).0, elapsed), Step(s, VoteTx(id, v)).1)
  {
    if id in s.policies && s.policies[id].status == ClaimPending {
      VerdictIgnoresTime(s.world, id, s.policies[id], v, s.world.now + elapsed);
      VoteStep(s, id, v);
      VoteStep(Advance(s, elapsed), id, v);
    } else {
      VoteRefused(s, id, v);
      VoteRefused(Advance(s, elapsed), id, v);
    }
  }

  lemma {:induction false} VoteStep(s: State, id: nat, v: Vote)
    requires id in s.policies && s.policies[id].status == ClaimPending
    ensures var denied := Gate(s.world.inst, {v.voter}, VoteClaim(v.voter, v.approve));
      Step(s, VoteTx(id, v)) ==
        if denied.Some? then (s, Err(denied.value))
        else match VoteClaimOn(s.world, id, s.policies[id], v.voter, v.approve)
             case Refuse(e) => (s, Err(e))
             case Accept(w, p, reply) => (State(s.policies[id := p], w), Ok(reply))
  {
    assert Advance(s, 0) == s;
  }

  lemma {:induction false} VoteRefused(s: State, id: nat, v: Vote)
    requires id in s.policies ==> s.policies[id].status != ClaimPending
    ensures Step(s, VoteTx(id, v)).0 == s
    ensures var denied := Gate(s.world.inst, {v.voter}, VoteClaim(v.voter, v.approve));
      Step(s, VoteTx(id, v)).1
        == Err(if denied.Some? then denied.value else if id in s.policies then NoPendingClaim else PolicyNotFound)
  {
    assert Advance(s, 0) == s;
  }

  /** When the votes are cast makes no difference: whatever time passes before
      each, they end where the votes cast at once do, at the later time. */
  lemma {:induction false} DelaysDoNotMatter(s: State, id: nat, votes: seq<Vote>, delays: seq<nat>)
    requires |delays| == |votes|
    ensures Run(s, DelayedVoteTxs(id, votes, delays)) == Advance(Run(s, VoteTxs(id, votes)), Total(delays))
    decreases |votes|
  {
    if votes == [] {
      assert Advance(s, 0) == s;
    } else {
      var n := |votes| - 1;
      var earlier, last := DelayedVoteTxs(id, votes[..n], delays[..n]), VoteTx(id, votes[n]);
      var m, t := Run(s, earlier), Run(s, VoteTxs(id, votes[..n]));
      DelaysDoNotMatter(s, id, votes[..n], delays[..n]);
      RunAppend(s, earlier, [last.(elapsed := delays[n])]);
      RunOne(m, last.(elapsed := delays[n]));
      RunAppend(s, VoteTxs(id, votes[..n]), [last]);
      RunOne(t, last);
      assert Advance(m, delays[n]) == Advance(t, Total(delays));
      assert Advance(Advance(t, Total(delays)), 0) == Advance(t, Total(delays));
      VoteIgnoresTime(t, id, votes[n], Total(delays));
    }
  }

  // -------------------------------------------------- forced rejection, exactly

  /** No continuation of the ballot reaches the threshold. */
  ghost predicate Unreachable(inst: Instance, b: ClaimVotes) {
    forall votes :: Eligible(inst, b, votes) ==> |CastAll(b, votes).approvals| < inst.threshold
  }

  /** Approval is out of reach exactly when the rejections of current admins are
      too many; names of removed admins take no vote away. */
  lemma {:induction false} UnreachableIff(inst: Instance, b: ClaimVotes)
    requires AdminsOk(inst) && Distinct(Voters(b))
    ensures Unreachable(inst, b) <==> |b.rejections| > |inst.admins| - inst.threshold + Stale(inst.admins, Voters(b))
  {
    var left := Remaining(inst.admins, Voters(b));
    RemainingCount(inst.admins, Voters(b));
    if |b.rejections| > |inst.admins| - inst.threshold + Stale(inst.admins, Voters(b)) {
      forall votes | Eligible(inst, b, votes) ensures |CastAll(b, votes).approvals| < inst.threshold {
        DistinctFits(VoterNames(votes), left);
      }
    } else {
      RemainingEligible(inst, b, left, []);
      assert left + [] == left && AllVote(left, true) + AllVote([], false) == AllVote(left, true);
      AllVoteBallot(b, left, true);
      assert |CastAll(b, AllVote(left, true)).approvals| >= inst.threshold;
    }
  }

  /** The test made when a vote is cast says so exactly, unless removed admins'
      names make up the difference; it never does on a ballot of current admins. */
  lemma {:induction false} ForcedIffUnreachable(inst: Instance, b: ClaimVotes)
    requires AdminsOk(inst) && Distinct(Voters(b))
    ensures (RejectionForced(inst, |b.rejections|) <==> Unreachable(inst, b))
       <==> !(0 < |b.rejections| - (|inst.admins| - inst.threshold) <= Stale(inst.admins, Voters(b)))
    ensures Current(inst, b) ==> (RejectionForced(inst, |b.rejections|) <==> Unreachable(inst, b))
  {
    UnreachableIff(inst, b);
  }

  lemma {:induction false} SpliceDistinct(s: seq<Address>, m: seq<Address>, t: seq<Address>)
    requires Distinct(s + t) && Distinct(m)
    requires forall x :: x in m ==> x !in s + t
    ensures Distinct(s + m + t)
  {
    DistinctConcat(s, t);
    DistinctConcat(s, m);
    DistinctConcat(s + m, t);
  }

  lemma {:induction false} WithoutLast(s: seq<Address>, x: Address)
    requires x !in s
    ensures Without(s + [x], x) == s
  {
    WithoutSnoc(s, x, x);
    WithoutAbsent(s, x);
    assert s + [] == s;
  }

  lemma {:induction false} ThreeDistinct(a: Address, b: Address, d: Address)
    requires Distinct([a, b, d])
    ensures a != b && a != d && b != d && Distinct([a, b])
  {
    var s := [a, b, d];
    assert s[0] == a && s[1] == b && s[2] == d;
  }

  /** So an approval can reject: with d's rejection counted before d was removed,
      a votes yes, and the claim is rejected although a and b could both approve. */
  lemma {:induction false} ApprovalRejects(s: State, a: Address, b: Address, d: Address, id: nat)
    requires s.world.inst.admins == [a, b, d] && s.world.inst.threshold == 2
    requires Pending(s, id, ClaimVotes([], [d]))
    ensures var t := Step(s, Tx(0, {a}, Configure(RemoveAdmin(a, d)))).0;
      && t.world.inst.admins == [a, b] && Pending(t, id, ClaimVotes([], [d]))
      && !Unreachable(t.world.inst, ClaimVotes([], [d]))
      && Step(t, VoteTx(id, Vote(a, true))).0 == RejectedState(t, id)
  {
    var t := Step(s, Tx(0, {a}, Configure(RemoveAdmin(a, d)))).0;
    ThirdRemoved(s, a, b, d);
    ThreeDistinct(a, b, d);
    assert Voters(ClaimVotes([], [d])) == [d];
    assert Payable(t, id);
    UnreachableIff(t.world.inst, ClaimVotes([], [d]));
    OneVote(t, id, ClaimVotes([], [d]), Vote(a, true));
  }

  lemma {:induction false} ThirdRemoved(s: State, a: Address, b: Address, d: Address)
    requires s.world.inst.admins == [a, b, d] && s.world.inst.threshold <= 2 && Distinct([a, b, d])
    ensures Step(s, Tx(0, {a}, Configure(RemoveAdmin(a, d)))).0
      == s.(world := s.world.(inst := s.world.inst.(admins := [a, b])))
  {
    assert Advance(s, 0) == s;
    ThreeDistinct(a, b, d);
    WithoutLast([a, b], d);
    assert [a, b] + [d] == [a, b, d];
  }

  // ------------------------------------------------------------- stale ballots

  /** Whether a transaction is a vote on the claim that was accepted. */
  predicate VotesOn(s: State, tx: Tx, id: nat) {
    tx.call.OnPolicy? && tx.call.id == id && tx.call.op.VoteClaim? && Step(s, tx).1.Ok?
  }

  predicate NobodyVotes(s: State, txs: seq<Tx>, id: nat)
    decreases |txs|
  {
    txs != [] ==> !VotesOn(s, txs[0], id) && NobodyVotes(Step(s, txs[0]).0, txs[1..], id)
  }

  lemma {:induction false} StepKeepsBallot(s: State, tx: Tx, id: nat)
    requires !VotesOn(s, tx, id)
    ensures Ballot(Step(s, tx).0.world.inst, id) == Ballot(s.world.inst, id)
  {
    var t := Advance(s, tx.elapsed);
    match tx.call
    case OnPolicy(j, op) =>
      OpShape(t, tx.auth, j, op);
      if j in t.policies { OpKeepsBallot(t.world, tx.auth, j, View(t.policies[j], t.world.now), op, id); }
    case Configure(setting) => SettingKeepsVotes(t.world.inst, t.world.now, tx.auth, setting);
    case _ =>
  }

  lemma {:induction false} SettingKeepsVotes(inst: Instance, now: nat, auth: set<Address>, setting: Setting)
    ensures var c := Update(inst, now, auth, setting); c.Updated? ==> c.inst.votes == inst.votes
  {
  }

  lemma {:induction false} OpKeepsBallot(w: World, auth: set<Address>, j: nat, p: Policy, op: PolicyOp, id: nat)
    ensures var v := Operate(w, auth, j, p, op);
      v.Accept? && !(op.VoteClaim? && j == id) ==> Ballot(v.world.inst, id) == Ballot(w.inst, id)
  {
    if !op.VoteClaim? { OpFrames(w, auth, j, p, op); }
  }

  /** Nothing but a vote on it ever changes a claim's ballot: over every run without
      an accepted vote on the policy, whatever becomes of the claim the votes were
      cast on, they stay for the next. */
  lemma {:induction false} BallotKept(s: State, txs: seq<Tx>, id: nat)
    requires NobodyVotes(s, txs, id)
    ensures Ballot(Run(s, txs).world.inst, id) == Ballot(s.world.inst, id)
    decreases |txs|
  {
    if txs != [] {
      StepKeepsBallot(s, txs[0], id);
      BallotKept(Step(s, txs[0]).0, txs[1..], id);
    }
  }

  lemma {:induction false} RejectedByAdmin(s: State, admin: Address, id: nat)
    requires Ledger(s) && s.world.inst.admin == Some(admin)
    requires id in s.policies && s.policies[id].status == ClaimPending
    ensures Step(s, Tx(0, {admin}, OnPolicy(id, ProcessClaim(false))))
         == (State(s.policies[id := Rejected(s.policies[id])], s.world), Ok(Unit))
  {
    assert Advance(s, 0) == s;
  }

  lemma {:induction false} ClaimedAgain(s: State, id: nat, amount: int)
    requires !s.world.inst.paused && id in s.policies && s.policies[id].status == Active
    requires s.world.now <= s.policies[id].endTime
    requires 0 < amount <= s.policies[id].RemainingCoverage()
    ensures var t := Step(s, Tx(0, {s.policies[id].policyholder}, OnPolicy(id, SubmitClaim(amount, ""))));
      && t.1 == Ok(Unit) && id in t.0.policies
      && t.0.policies[id].status == ClaimPending && t.0.policies[id].claimAmount == amount
      && t.0.world.inst.votes == s.world.inst.votes
  {
    assert Advance(s, 0) == s;
  }

  /** A rejection by the primary admin followed by a new claim leaves the old
      ballot in place under the new claim. */
  lemma {:induction false} BallotSurvivesReclaim(s: State, admin: Address, id: nat, amount: int)
    requires Ledger(s) && s.world.inst.admin == Some(admin) && !s.world.inst.paused
    requires id in s.policies && s.policies[id].status == ClaimPending
    requires s.world.now <= s.policies[id].endTime
    requires 0 < amount <= s.policies[id].RemainingCoverage()
    ensures
      var reject := Tx(0, {admin}, OnPolicy(id, ProcessClaim(false)));
      var reclaim := Tx(0, {s.policies[id].policyholder}, OnPolicy(id, SubmitClaim(amount, "")));
      var t := Run(s, [reject, reclaim]);
      && Replies(s, [reject, reclaim]) == [Ok(Unit), Ok(Unit)]
      && id in t.policies && t.policies[id].status == ClaimPending && t.policies[id].claimAmount == amount
      && Ballot(t.world.inst, id) == Ballot(s.world.inst, id)
  {
    var reject := Tx(0, {admin}, OnPolicy(id, ProcessClaim(false)));
    var reclaim := Tx(0, {s.policies[id].policyholder}, OnPolicy(id, SubmitClaim(amount, "")));
    RejectedByAdmin(s, admin, id);
    var m := Step(s, reject).0;
    ClaimedAgain(m, id, amount);
    RunAppend(s, [reject], [reclaim]);
    assert [reject] + [reclaim] == [reject, reclaim];
    RunOne(s, reject);
    RunOne(m, reclaim);
  }

  /** Approving a claim takes threshold-many approvals of that claim exactly when
      its ballot began without approvals: carried-over approvals count. */
  lemma {:induction false} OwnApprovalsNeededIff(s: State, id: nat, b: ClaimVotes)
    requires Open(s, id, b)
    ensures (forall votes | Eligible(s.world.inst, b, votes) && Run(s, VoteTxs(id, votes)) == ApprovedState(s, id)
               :: Yes(votes) >= s.world.inst.threshold)
       <==> b.approvals == []
  {
    var inst := s.world.inst;
    if b.approvals == [] {
      forall votes | Eligible(inst, b, votes) && Run(s, VoteTxs(id, votes)) == ApprovedState(s, id)
        ensures Yes(votes) >= inst.threshold
      {
        BallotOutcome(s, id, b, votes);
        assert |ApprovedState(s, id).world.inst.payouts| == |s.world.inst.payouts| + 1;
        assert FirstVerdict(inst, b, votes) == Some(true);
        ApprovedHasVotes(inst, b, votes);
      }
    } else {
      var k := inst.threshold - |b.approvals|;
      RemainingCount(inst.admins, Voters(b));
      var ys := Remaining(inst.admins, Voters(b))[..k];
      assert ys + [] == ys && AllVote(ys, true) + AllVote([], false) == AllVote(ys, true);
      RemainingEligible(inst, b, ys, []);
      AllVoteVerdict(inst, b, ys, true);
      AllVoteBallot(b, ys, true);
      BallotOutcome(s, id, b, AllVote(ys, true));
      assert Run(s, VoteTxs(id, AllVote(ys, true))) == ApprovedState(s, id) && Yes(AllVote(ys, true)) < inst.threshold;
    }
  }

  lemma {:induction false} ApprovedHasVotes(inst: Instance, b: ClaimVotes, votes: seq<Vote>)
    requires FirstVerdict(inst, b, votes) == Some(true)
    ensures |b.approvals| + Yes(votes) >= inst.threshold
    decreases |votes|
  {
    if FirstVerdict(inst, b, votes[..|votes| - 1]).Some? { ApprovedHasVotes(inst, b, votes[..|votes| - 1]); }
  }

  /** And rejecting it takes more rejections of that claim than the admins can spare
      exactly when its ballot began without rejections. */
  lemma {:induction false} OwnRejectionsNeededIff(s: State, id: nat, b: ClaimVotes)
    requires Open(s, id, b)
    ensures (forall votes | Eligible(s.world.inst, b, votes) && Run(s, VoteTxs(id, votes)) == RejectedState(s, id)
               :: |votes| - Yes(votes) > |s.world.inst.admins| - s.world.inst.threshold)
       <==> b.rejections == []
  {
    var inst := s.world.inst;
    if b.rejections == [] {
      forall votes | Eligible(inst, b, votes) && Run(s, VoteTxs(id, votes)) == RejectedState(s, id)
        ensures |votes| - Yes(votes) > |inst.admins| - inst.threshold
      {
        BallotOutcome(s, id, b, votes);
        RejectionIsItsOwn(s, id, b, votes);
        RejectedHasVotes(inst, b, votes);
      }
    } else {
      var k := |inst.admins| - inst.threshold - |b.rejections| + 1;
      RemainingCount(inst.admins, Voters(b));
      var ns := Remaining(inst.admins, Voters(b))[..k];
      var votes := AllVote(ns, false);
      assert [] + ns == ns && AllVote(ns, false) + AllVote([], true) == votes;
      RemainingEligible(inst, b, [], ns);
      AllVoteVerdict(inst, b, ns, false);
      AllVoteBallot(b, ns, false);
      BallotOutcome(s, id, b, votes);
      assert Run(s, VoteTxs(id, votes)) == RejectedState(s, id)
             && |votes| - Yes(votes) <= |inst.admins| - inst.threshold;
    }
  }

  /** Only a rejecting verdict ends in the rejected state. */
  lemma {:induction false} RejectionIsItsOwn(s: State, id: nat, b: ClaimVotes, votes: seq<Vote>)
    requires Pending(s, id, b) && Outcome(s, id, b, votes) == RejectedState(s, id)
    ensures FirstVerdict(s.world.inst, b, votes) == Some(false)
  {
    assert RejectedState(s, id).policies[id].status != ClaimPending;
    assert |ApprovedState(s, id).world.inst.payouts| == |RejectedState(s, id).world.inst.payouts| + 1;
  }

  lemma {:induction false} RejectedHasVotes(inst: Instance, b: ClaimVotes, votes: seq<Vote>)
    requires FirstVerdict(inst, b, votes) == Some(false)
    ensures |b.rejections| + |votes| - Yes(votes) > |inst.admins| - inst.threshold
    decreases |votes|
  {
    if FirstVerdict(inst, b, votes[..|votes| - 1]).Some? { RejectedHasVotes(inst, b, votes[..|votes| - 1]); }
  }

  /** The votes that decide a claim are its own, either way, exactly when its ballot
      began empty. */
  lemma {:induction false} OwnVotesDecideIff(s: State, id: nat, b: ClaimVotes)
    requires Open(s, id, b)
    ensures
      && (forall votes | Eligible(s.world.inst, b, votes) && Run(s, VoteTxs(id, votes)) == ApprovedState(s, id)
            :: Yes(votes) >= s.world.inst.threshold)
      && (forall votes | Eligible(s.world.inst, b, votes) && Run(s, VoteTxs(id, votes)) == RejectedState(s, id)
            :: |votes| - Yes(votes) > |s.world.inst.admins| - s.world.inst.threshold)
      <==> b == ClaimVotes([], [])
  {
    OwnApprovalsNeededIff(s, id, b);
    OwnRejectionsNeededIff(s, id, b);
  }

  // ------------------------------------------------------------ stalled ballots

  /** A pending claim can still take a vote exactly when some current admin is
      not on its ballot. */
  lemma {:induction false} VotableIff(s: State, id: nat)
    requires AdminsOk(s.world.inst) && !s.world.inst.paused
    requires id in s.policies && s.policies[id].status == ClaimPending && Payable(s, id)
    ensures (exists v :: Step(s, VoteTx(id, v)).1.Ok?)
       <==> exists a :: a in s.world.inst.admins && a !in Voters(Ballot(s.world.inst, id))
  {
    assert Advance(s, 0) == s;
    var b := Ballot(s.world.inst, id);
    forall v | Step(s, VoteTx(id, v)).1.Ok?
      ensures v.voter in s.world.inst.admins && v.voter !in Voters(b)
    {
    }
    if a :| a in s.world.inst.admins && a !in Voters(b) {
      assert Step(s, VoteTx(id, Vote(a, true))).1.Ok?;
    }
  }

  /** Removing an admin under a pending claim leaves its ballot alone, and no vote is
      possible afterwards if and only if every other admin had already voted. */
  lemma {:induction false} RemovalStallsIff(s: State, caller: Address, target: Address, id: nat)
    requires AdminsOk(s.world.inst) && !s.world.inst.paused
    requires id in s.policies && s.policies[id].status == ClaimPending && Payable(s, id)
    requires Step(s, Tx(0, {caller}, Configure(RemoveAdmin(caller, target)))).1.Ok?
    ensures var t := Step(s, Tx(0, {caller}, Configure(RemoveAdmin(caller, target)))).0;
      && t.policies == s.policies && Ballot(t.world.inst, id) == Ballot(s.world.inst, id)
      && t.world.inst.admins == Without(s.world.inst.admins, target)
      && ((forall v :: !Step(t, VoteTx(id, v)).1.Ok?)
          <==> forall a :: a in s.world.inst.admins && a != target ==> a in Voters(Ballot(s.world.inst, id)))
  {
    var t := Step(s, Tx(0, {caller}, Configure(RemoveAdmin(caller, target)))).0;
    assert Advance(s, 0) == s;
    SettingKeepsAdminSet(s.world.inst, s.world.now, {caller}, RemoveAdmin(caller, target));
    assert Payable(t, id);
    VotableIff(t, id);
  }

  lemma {:induction false} SettingKeepsAdminSet(inst: Instance, now: nat, auth: set<Address>, setting: Setting)
    requires AdminsOk(inst)
    ensures var c := Update(inst, now, auth, setting); c.Updated? ==> AdminsOk(c.inst)
  {
    SettingKeepsAdmins(inst.(votes := map[]), now, auth, setting);
  }

  /** A full ballot need not decide when the admin set changes under it: removing
      the one admin who has not voted lowers the threshold to the approvals
      already cast, yet the claim stays pending and no vote is possible. */
  lemma {:induction false} RemovalStallsBallot(s: State, a: Address, b: Address, id: nat)
    requires AdminsOk(s.world.inst) && !s.world.inst.paused
    requires s.world.inst.admins == [a, b] && s.world.inst.threshold == 2
    requires id in s.policies && s.policies[id].status == ClaimPending && Payable(s, id)
    requires Ballot(s.world.inst, id) == ClaimVotes([a], [])
    ensures var t := Step(s, Tx(0, {a}, Configure(RemoveAdmin(a, b)))).0;
      && t.world.inst.admins == [a]
      && |Ballot(t.world.inst, id).approvals| >= t.world.inst.threshold
      && t.policies[id].status == ClaimPending
      && forall v :: !Step(t, VoteTx(id, v)).1.Ok?
  {
    var t := Step(s, Tx(0, {a}, Configure(RemoveAdmin(a, b)))).0;
    assert Advance(s, 0) == s;
    assert Without([a, b], b) == [a] by {
      assert a != b by { assert s.world.inst.admins[0] != s.world.inst.admins[1]; }
      assert [a, b][1..] == [b] && [b][1..] == [];
      assert Without([b], b) == [];
    }
    assert Payable(t, id);
    VotableIff(t, id);
  }
}
