/** The class-representative vote: teachers add candidates, each student roll
    votes once, and votes are tallied by matching the recorded candidate name
    against the first candidate carrying it. */
module Voting {
  import opened Common
  import opened Seqs
  import opened CollectionStore

  datatype Candidate = Candidate(id: string, name: string, rollNumber: string, votes: int)

  /** A recorded vote; the candidate is remembered by name. */
  datatype Vote = Vote(id: string, candidateName: string, voterRoll: string, timestamp: int)

  datatype CandidateForm = CandidateForm(name: string, rollNumber: string)

  const EmptyForm := CandidateForm("", "")

  function CandidateId(c: Candidate): string { c.id }

  function VoteId(v: Vote): string { v.id }

  /** `handleAddCandidate`'s new record: the draft's fields, no votes yet. */
  function NewCandidate(id: string, f: CandidateForm): (c: Candidate)
    ensures c.id == id && c.name == f.name && c.rollNumber == f.rollNumber && c.votes == 0
  {
    Candidate(id, f.name, f.rollNumber, 0)
  }

  // ---------------------------------------------------------------------
  // Casting a vote

  /** Some recorded vote carries this voter roll. */
  predicate VotedAs(votes: seq<Vote>, roll: string)
  {
    exists i :: 0 <= i < |votes| && votes[i].voterRoll == roll
  }

  /** `votes.some(v => v.voterRoll === user?.rollNumber)`: never true for a
      user without a roll number, since every vote carries a string roll. */
  function HasVoted(votes: seq<Vote>, user: Option<User>): (b: bool)
    ensures RollOf(user).None? ==> !b
    ensures RollOf(user).Some? ==> (b <==> exists v :: v in votes && v.voterRoll == RollOf(user).value)
  {
    RollOf(user).Some? && VotedAs(votes, RollOf(user).value)
  }

  /** The guard of `handleVote`: a non-empty roll that has not voted yet. */
  function MayVote(votes: seq<Vote>, user: Option<User>): (b: bool)
    ensures b <==> HasRoll(user) && forall v :: v in votes ==> v.voterRoll != RollOf(user).value
  {
    !HasVoted(votes, user) && HasRoll(user)
  }

  function IdIs(id: string): Candidate -> bool
  {
    (c: Candidate) => c.id == id
  }

  /** `candidates.find(c => c.id === id)?.name || ''`. */
  function NameOf(cs: seq<Candidate>, id: string): (name: string)
    ensures (forall c :: c in cs ==> c.id != id) ==> name == ""
    ensures forall i :: 0 <= i < |cs| && cs[i].id == id && (forall j :: 0 <= j < i ==> cs[j].id != id) ==>
              name == cs[i].name
  {
    match Find(cs, IdIs(id))
    case None => ""
    case Some(c) => c.name
  }

  /** The vote `handleVote` records for a user who may vote. */
  function NewVote(id: string, cs: seq<Candidate>, candidateId: string, user: Option<User>, now: int): (v: Vote)
    requires HasRoll(user)
    ensures v.id == id && v.candidateName == NameOf(cs, candidateId)
    ensures v.voterRoll == RollOf(user).value && v.timestamp == now
  {
    Vote(id, NameOf(cs, candidateId), RollOf(user).value, now)
  }

  function AddOne(c: Candidate): Candidate { c.(votes := c.votes + 1) }

  /** The candidates after a vote for `candidateId`: that candidate's counter
      goes up by one, every other candidate is unchanged. */
  function Tallied(cs: seq<Candidate>, candidateId: string): (r: seq<Candidate>)
    ensures |r| == |cs|
    ensures forall i :: 0 <= i < |cs| && cs[i].id == candidateId ==>
              r[i] == cs[i].(votes := cs[i].votes + 1)
    ensures forall i :: 0 <= i < |cs| && cs[i].id != candidateId ==> r[i] == cs[i]
  {
    Updated(cs, CandidateId, candidateId, AddOne)
  }

  /** After an accepted vote the voter counts as having voted, so the guard
      refuses any further vote from that roll. */
  lemma VoteClosesBallot(votes: seq<Vote>, cs: seq<Candidate>, candidateId: string, user: Option<User>,
                         id: string, now: int)
    requires MayVote(votes, user)
    ensures HasVoted(votes + [NewVote(id, cs, candidateId, user, now)], user)
    ensures !MayVote(votes + [NewVote(id, cs, candidateId, user, now)], user)
  {
    var after := votes + [NewVote(id, cs, candidateId, user, now)];
    assert after[|votes|].voterRoll == RollOf(user).value;
  }

  /** No two recorded votes share a voter roll. */
  predicate OneVotePerRoll(votes: seq<Vote>)
  {
    forall i, j :: 0 <= i < j < |votes| ==> votes[i].voterRoll != votes[j].voterRoll
  }

  /** Votes cast through `handleVote` keep one vote per roll. */
  lemma VotePreservesOneVotePerRoll(votes: seq<Vote>, cs: seq<Candidate>, candidateId: string,
                                    user: Option<User>, id: string, now: int)
    requires OneVotePerRoll(votes) && MayVote(votes, user)
    ensures OneVotePerRoll(votes + [NewVote(id, cs, candidateId, user, now)])
  {
    var v := NewVote(id, cs, candidateId, user, now);
    var after := votes + [v];
    forall i, j | 0 <= i < j < |after| ensures after[i].voterRoll != after[j].voterRoll {
      if j == |votes| {
        assert after[i] == votes[i];
        assert after[j] == v;
      }
    }
  }

  // ---------------------------------------------------------------------
  // Tally

  function NameIs(name: string): Candidate -> bool
  {
    (c: Candidate) => c.name == name
  }

  /** The candidate a vote is credited to: the first one with its name. */
  function CreditedTo(cs: seq<Candidate>, v: Vote): Option<Candidate>
  {
    Find(cs, NameIs(v.candidateName))
  }

  /** `candidates.find(c => c.name === vote.candidateName)?.id === candidateId`:
      a vote counts only when a candidate with its name has that id, and it
      does count when every candidate with its name has that id. */
  function CountsFor(cs: seq<Candidate>, candidateId: string): (counts: Vote -> bool)
    ensures forall v: Vote :: counts(v) ==> exists c :: c in cs && c.name == v.candidateName && c.id == candidateId
    ensures forall v: Vote ::
              ((exists c :: c in cs && c.name == v.candidateName)
               && (forall c :: c in cs && c.name == v.candidateName ==> c.id == candidateId)) ==> counts(v)
  {
    (v: Vote) => CreditedTo(cs, v).Some? && CreditedTo(cs, v).value.id == candidateId
  }

  /** A vote whose name matches some candidate. */
  function Credited(cs: seq<Candidate>): Vote -> bool
  {
    (v: Vote) => CreditedTo(cs, v).Some?
  }

  /** `getVoteCount(candidateId)`: never more than the number of votes. */
  function GetVoteCount(votes: seq<Vote>, cs: seq<Candidate>, candidateId: string): (n: nat)
    ensures n <= |votes|
    ensures n == 0 <==> forall v :: v in votes ==> !CountsFor(cs, candidateId)(v)
  {
    var credited := Filter(votes, CountsFor(cs, candidateId));
    assert credited != [] ==> credited[0] in credited;
    |credited|
  }

  predicate DistinctIds(cs: seq<Candidate>)
  {
    forall i, j :: 0 <= i < j < |cs| ==> cs[i].id != cs[j].id
  }

  /** A candidate whose name is already carried by an earlier candidate with
      another id is never credited with a vote. */
  lemma DuplicateNameGetsNoVotes(votes: seq<Vote>, cs: seq<Candidate>, i: nat, j: nat)
    requires i < j < |cs| && cs[i].name == cs[j].name
    requires forall k :: 0 <= k < |cs| && k != j ==> cs[k].id != cs[j].id
    ensures GetVoteCount(votes, cs, cs[j].id) == 0
  {
    forall v | v in votes ensures !CountsFor(cs, cs[j].id)(v) {
      var found := CreditedTo(cs, v);
      if found.Some? && found.value.id == cs[j].id {
        assert false;
      }
    }
  }

  function CountOf(votes: seq<Vote>, cs: seq<Candidate>): Candidate -> int
  {
    (c: Candidate) => GetVoteCount(votes, cs, c.id)
  }

  /** Summing per candidate, term by term. */
  lemma {:induction false} SumOfSums<T(!new)>(xs: seq<T>, f: T -> int, g: T -> int, h: T -> int)
    requires forall x :: x in xs ==> f(x) == g(x) + h(x)
    ensures Sum(xs, f) == Sum(xs, g) + Sum(xs, h)
  {
    if xs != [] {
      assert xs[0] in xs;
      assert forall x :: x in xs[1..] ==> x in xs;
      SumOfSums(xs[1..], f, g, h);
    }
  }

  /** Over candidates with distinct ids, an indicator of one id sums to one
      when that id occurs and to zero otherwise. */
  lemma {:induction false} IndicatorSum(ys: seq<Candidate>, f: Candidate -> int, id: string)
    requires DistinctIds(ys)
    requires forall c :: c in ys ==> f(c) == if c.id == id then 1 else 0
    ensures Sum(ys, f) == if exists c :: c in ys && c.id == id then 1 else 0
  {
    if ys != [] {
      var rest := ys[1..];
      assert forall c :: c in rest ==> c in ys;
      assert DistinctIds(rest) by {
        forall i, j | 0 <= i < j < |rest| ensures rest[i].id != rest[j].id {
          assert rest[i] == ys[i + 1] && rest[j] == ys[j + 1];
        }
      }
      IndicatorSum(rest, f, id);
      if ys[0].id == id {
        forall c | c in rest ensures c.id != id {
          var k :| 0 <= k < |rest| && rest[k] == c;
          assert ys[k + 1] == c;
        }
      } else {
        assert (exists c :: c in ys && c.id == id) <==> (exists c :: c in rest && c.id == id) by {
          forall c | c in ys && c.id == id ensures c in rest {
            var k :| 0 <= k < |ys| && ys[k] == c;
            assert k != 0;
            assert rest[k - 1] == c;
          }
        }
      }
    }
  }

  function CreditIndicator(cs: seq<Candidate>, v: Vote): Candidate -> int
  {
    (c: Candidate) => if CountsFor(cs, c.id)(v) then 1 else 0
  }

  /** One vote adds one to the tally when its name matches a candidate. */
  lemma OneVoteTally(cs: seq<Candidate>, v: Vote)
    requires DistinctIds(cs)
    ensures Sum(cs, CreditIndicator(cs, v)) == if Credited(cs)(v) then 1 else 0
  {
    var found := CreditedTo(cs, v);
    forall c ensures CreditIndicator(cs, v)(c) == if found.Some? && found.value.id == c.id then 1 else 0 {
      assert CountsFor(cs, c.id)(v) == (found.Some? && found.value.id == c.id);
    }
    if found.Some? {
      IndicatorSum(cs, CreditIndicator(cs, v), found.value.id);
      assert found.value in cs;
    } else {
      SumZero(cs, CreditIndicator(cs, v));
    }
  }

  /** With distinct candidate ids, every vote is counted for at most one
      candidate: the counts add up to the votes whose name matches some
      candidate, and so never to more than the votes recorded. */
  lemma {:induction false} TallySum(votes: seq<Vote>, cs: seq<Candidate>)
    requires DistinctIds(cs)
    ensures Sum(cs, CountOf(votes, cs)) == |Filter(votes, Credited(cs))|
    ensures Sum(cs, CountOf(votes, cs)) <= |votes|
  {
    if votes == [] {
      SumZero(cs, CountOf(votes, cs));
    } else {
      var v, rest := votes[0], votes[1..];
      assert votes == [v] + rest;
      forall c | c in cs
        ensures CountOf(votes, cs)(c) == CreditIndicator(cs, v)(c) + CountOf(rest, cs)(c)
      {
        FilterCons(v, rest, CountsFor(cs, c.id));
      }
      SumOfSums(cs, CountOf(votes, cs), CreditIndicator(cs, v), CountOf(rest, cs));
      OneVoteTally(cs, v);
      TallySum(rest, cs);
      FilterCons(v, rest, Credited(cs));
    }
  }

  // ---------------------------------------------------------------------
  // Ranking and percentages

  function MostVotesFirst(votes: seq<Vote>, cs: seq<Candidate>): Candidate -> int
  {
    (c: Candidate) => -(GetVoteCount(votes, cs, c.id) as int)
  }

  /** `sortedCandidates`: a reordered copy of the candidates, by falling vote
      count; ties keep their order of addition. */
  function SortedCandidates(votes: seq<Vote>, cs: seq<Candidate>): (r: seq<Candidate>)
    ensures multiset(r) == multiset(cs)
    ensures forall i, j :: 0 <= i < j < |r| ==>
              GetVoteCount(votes, cs, r[i].id) >= GetVoteCount(votes, cs, r[j].id)
  {
    var r := SortBy(cs, MostVotesFirst(votes, cs));
    assert forall i, j :: 0 <= i < j < |r| ==> MostVotesFirst(votes, cs)(r[i]) <= MostVotesFirst(votes, cs)(r[j]);
    r
  }

  /** The share of the votes shown on a candidate's card, in percent: 0 with
      no votes, otherwise count over total. */
  function VotePercentage(count: nat, total: nat): (p: real)
    ensures total == 0 ==> p == 0.0
    ensures total > 0 ==> p * (total as real) == (count as real) * 100.0
    ensures count <= total ==> 0.0 <= p <= 100.0
  {
    if total > 0 then (count as real / total as real) * 100.0 else 0.0
  }

  /** Every candidate's displayed share lies between 0 and 100 percent. */
  lemma ShareInRange(votes: seq<Vote>, cs: seq<Candidate>, c: Candidate)
    ensures 0.0 <= VotePercentage(GetVoteCount(votes, cs, c.id), |votes|) <= 100.0
  {
  }

  /** The screen's state: candidates, recorded votes and the candidate draft. */
  class Ballot {
    const candidates: Collection<Candidate>
    const votes: Collection<Vote>
    var form: CandidateForm

    ghost predicate Valid()
    {
      candidates.idOf == CandidateId && votes.idOf == VoteId
    }

    constructor (loadedCandidates: seq<Candidate>, loadedVotes: seq<Vote>)
      ensures Valid() && fresh(candidates) && fresh(votes)
      ensures candidates.items == loadedCandidates && votes.items == loadedVotes && form == EmptyForm
    {
      candidates := new Collection(CandidateId, loadedCandidates);
      votes := new Collection(VoteId, loadedVotes);
      form := EmptyForm;
    }

    /** `handleAddCandidate`: append one candidate with no votes and reset the
        draft. */
    method HandleAddCandidate(freshId: string)
      requires Valid()
      modifies this, candidates
      ensures Valid()
      ensures candidates.items == old(candidates.items) + [NewCandidate(freshId, old(form))]
      ensures form == EmptyForm
    {
      candidates.Append(NewCandidate(freshId, form));
      form := EmptyForm;
    }

    /** `handleVote(candidateId)`: when the user may vote, record one vote and
        raise that candidate's counter; otherwise change nothing. */
    method HandleVote(candidateId: string, user: Option<User>, freshId: string, now: int)
      requires Valid()
      modifies candidates, votes
      ensures Valid()
      ensures MayVote(old(votes.items), user) ==>
                votes.items == old(votes.items) + [NewVote(freshId, old(candidates.items), candidateId, user, now)]
                && candidates.items == Tallied(old(candidates.items), candidateId)
      ensures !MayVote(old(votes.items), user) ==>
                votes.items == old(votes.items) && candidates.items == old(candidates.items)
    {
      if !MayVote(votes.items, user) {
        return;
      }
      var v := NewVote(freshId, candidates.items, candidateId, user, now);
      votes.Append(v);
      candidates.UpdateById(candidateId, AddOne);
    }
  }
}
