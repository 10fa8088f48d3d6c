/** The ballot a participant builds on the voting page: an ordered list of
    nomination ids, bounded by the poll's votesPerVoter. */
module Voting {
  import opened PollTypes

  /** `rankings.findIndex((ranking) => ranking === id)`: the first position
      holding id, or -1. */
  function FindIndex(rankings: seq<string>, id: string): (i: int)
    ensures -1 <= i < |rankings|
    ensures i == -1 <==> id !in rankings
    ensures 0 <= i ==> rankings[i] == id && id !in rankings[..i]
  {
    if |rankings| == 0 then -1
    else if rankings[0] == id then 0
    else
      var j := FindIndex(rankings[1..], id);
      if j < 0 then -1
      else
        assert rankings[..j + 1] == [rankings[0]] + rankings[1..][..j];
        j + 1
  }

  /** An index argument of Array.prototype.slice resolved against length n:
      a negative one counts back from the end; the result is clamped to 0..n. */
  function Resolve(i: int, n: nat): (k: nat)
    ensures k <= n
    ensures 0 <= i <= n ==> k == i
    ensures i < 0 <= n + i ==> k == n + i
    ensures n + i < 0 ==> k == 0
    ensures n < i ==> k == n
  {
    if i < 0 then (if n + i < 0 then 0 else n + i) else if i > n then n else i
  }

  /** Array.prototype.slice(start, end). */
  function Slice<T>(s: seq<T>, start: int, end: int): (r: seq<T>)
    ensures 0 <= start <= end <= |s| ==> r == s[start..end]
    ensures end < 0 <= |s| + end && start == 0 ==> r == s[..|s| + end]
    ensures |s| + end < 0 && start == 0 ==> r == []
  {
    var a, b := Resolve(start, |s|), Resolve(end, |s|);
    if a < b then s[a..b] else []
  }

  /** `votesPerVoter || 0` as toggleNomination reads it: 0 when there is no poll. */
  function VoteBound(votesPerVoter: Option<int>): (bound: int)
    ensures votesPerVoter.None? ==> bound == 0
    ensures votesPerVoter.Some? ==> bound == votesPerVoter.value
  {
    match votesPerVoter
    case Some(v) => v
    case None => 0
  }

  /** toggleNomination's new list, exactly as written: append an absent id while
      votes remain; otherwise splice out `position`, which is -1 for an absent id. */
  function Toggle(rankings: seq<string>, id: string, votesPerVoter: int): (r: seq<string>)
    ensures id !in rankings && votesPerVoter - |rankings| > 0 ==> r == rankings + [id]
    ensures forall i | 0 <= i < |rankings| && rankings[i] == id && id !in rankings[..i] ::
              r == rankings[..i] + rankings[i + 1..]
    ensures id !in rankings && votesPerVoter - |rankings| <= 0 ==>
              r == if |rankings| == 0 then [] else rankings[..|rankings| - 1] + rankings
  {
    var position := FindIndex(rankings, id);
    var hasVotesRemaining := votesPerVoter - |rankings| > 0;
    if position < 0 && hasVotesRemaining then rankings + [id]
    else Slice(rankings, 0, position) + Slice(rankings, position + 1, |rankings|)
  }

  predicate NoDuplicates(s: seq<string>) {
    forall i, j | 0 <= i < j < |s| :: s[i] != s[j]
  }

  /** A ballot the page means to build: no id twice, at most votesPerVoter ids. */
  predicate ValidBallot(s: seq<string>, votesPerVoter: int) {
    NoDuplicates(s) && |s| <= votesPerVoter
  }

  /** Removing one entry from a duplicate-free list leaves it duplicate-free and
      without that entry. */
  lemma RemovalKeepsNoDuplicates(s: seq<string>, i: nat)
    requires NoDuplicates(s) && i < |s|
    ensures NoDuplicates(s[..i] + s[i + 1..])
    ensures s[i] !in s[..i] + s[i + 1..]
  {
    var r := s[..i] + s[i + 1..];
    forall a, b | 0 <= a < b < |r|
      ensures r[a] != r[b]
    {
      var a', b' := if a < i then a else a + 1, if b < i then b else b + 1;
      assert r[a] == s[a'] && r[b] == s[b'];
    }
    forall a | 0 <= a < |r|
      ensures r[a] != s[i]
    {
      assert r[a] == s[if a < i then a else a + 1];
    }
  }

  /** Appending an absent id while votes remain, then toggling it again,
      gives back the original list. */
  lemma ToggleRoundTrip(s: seq<string>, id: string, votesPerVoter: int)
    requires id !in s && votesPerVoter - |s| > 0
    ensures Toggle(Toggle(s, id, votesPerVoter), id, votesPerVoter) == s
  {
    var t := s + [id];
    assert t[|s|] == id && t[..|s|] == s;
    assert t[..|s|] + t[|s| + 1..] == s;
  }

  /** Through the append and remove branches the ballot stays duplicate-free
      and within votesPerVoter. */
  lemma ToggleKeepsValidBallot(s: seq<string>, id: string, votesPerVoter: int)
    requires ValidBallot(s, votesPerVoter)
    requires id in s || votesPerVoter - |s| > 0
    ensures ValidBallot(Toggle(s, id, votesPerVoter), votesPerVoter)
  {
    if id in s {
      var i := FindIndex(s, id);
      RemovalKeepsNoDuplicates(s, i);
    } else {
      var r := s + [id];
      assert forall a | 0 <= a < |s| :: r[a] == s[a];
    }
  }

  /** Toggling removes a present id and keeps every other entry: the multiset
      loses exactly one copy of id. */
  lemma ToggleRemovesOneCopy(s: seq<string>, id: string, votesPerVoter: int)
    requires id in s
    ensures multiset(Toggle(s, id, votesPerVoter)) == multiset(s) - multiset{id}
  {
    var i := FindIndex(s, id);
    assert s == s[..i] + [s[i]] + s[i + 1..];
  }

  /** Toggling an absent id on a full ballot of two or more entries yields
      `rankings[0..len-1] ++ rankings`: a duplicate, and more ids than votes. */
  lemma ToggleOnFullBallotOverflows(s: seq<string>, id: string, votesPerVoter: int)
    requires id !in s && |s| >= 2 && votesPerVoter - |s| <= 0
    ensures |Toggle(s, id, votesPerVoter)| == 2 * |s| - 1 > votesPerVoter
    ensures !NoDuplicates(Toggle(s, id, votesPerVoter))
    ensures !ValidBallot(Toggle(s, id, votesPerVoter), votesPerVoter)
  {
    var r := Toggle(s, id, votesPerVoter);
    assert r[0] == s[0] && r[|s| - 1] == s[0];
  }

  /** With two votes used, toggling a third nomination duplicates the first. */
  lemma ToggleOverflowExample()
    ensures Toggle(["A", "B"], "C", 2) == ["A", "A", "B"]
  {
    assert FindIndex(["A", "B"], "C") == -1;
  }

  /** The toggle the page evidently intends: an absent id on a full ballot is ignored. */
  function ToggleIntended(rankings: seq<string>, id: string, votesPerVoter: int): (r: seq<string>)
    ensures ValidBallot(rankings, votesPerVoter) ==> ValidBallot(r, votesPerVoter)
    ensures id in rankings || votesPerVoter - |rankings| > 0 ==> r == Toggle(rankings, id, votesPerVoter)
    ensures id !in rankings && votesPerVoter - |rankings| <= 0 ==> r == rankings
  {
    var position := FindIndex(rankings, id);
    if position < 0 && votesPerVoter - |rankings| <= 0 then rankings
    else
      ToggleKeepsValidBallotIfValid(rankings, id, votesPerVoter);
      Toggle(rankings, id, votesPerVoter)
  }

  lemma ToggleKeepsValidBallotIfValid(s: seq<string>, id: string, votesPerVoter: int)
    requires id in s || votesPerVoter - |s| > 0
    ensures ValidBallot(s, votesPerVoter) ==> ValidBallot(Toggle(s, id, votesPerVoter), votesPerVoter)
  {
    if ValidBallot(s, votesPerVoter) {
      ToggleKeepsValidBallot(s, id, votesPerVoter);
    }
  }

  /** getRank: the 1-based position of a selected id, or undefined. */
  function GetRank(rankings: seq<string>, id: string): (k: Option<int>)
    ensures k.None? <==> id !in rankings
    ensures k.Some? ==> 1 <= k.value <= |rankings| && rankings[k.value - 1] == id && id !in rankings[..k.value - 1]
  {
    var position := FindIndex(rankings, id);
    if position < 0 then None else Some(position + 1)
  }

  /** On a duplicate-free ballot the rank of the i-th entry is i + 1. */
  lemma GetRankOfEntry(s: seq<string>, i: nat)
    requires NoDuplicates(s) && i < |s|
    ensures GetRank(s, s[i]) == Some(i + 1)
  {
    var k := GetRank(s, s[i]).value;
    assert s[k - 1] == s[i];
  }

  /** "Votes remaining" on the page: positive exactly when toggleNomination
      would still append an absent id. */
  function VotesRemaining(votesPerVoter: int, rankings: seq<string>): (left: int)
    ensures left <= votesPerVoter
    ensures left > 0 <==> |rankings| < votesPerVoter
    ensures left == 0 <==> |rankings| == votesPerVoter
  {
    votesPerVoter - |rankings|
  }

  /** The submit button is enabled unless `rankings.length < (votesPerVoter ?? 100)`:
      with a poll, exactly when no votes remain or the count has gone negative. */
  predicate SubmitEnabled(votesPerVoter: Option<int>, rankings: seq<string>): (enabled: bool)
    ensures votesPerVoter.Some? ==> (enabled <==> VotesRemaining(votesPerVoter.value, rankings) <= 0)
    ensures votesPerVoter.None? ==> (enabled <==> |rankings| >= 100)
  {
    !(|rankings| < match votesPerVoter case Some(v) => v case None => 100)
  }

  /** On a valid ballot no vote count goes negative, and submit is enabled
      exactly when no votes remain; without a poll the bound is 100. */
  lemma SubmitEnabledWhenNoVotesRemain(votesPerVoter: int, rankings: seq<string>)
    requires ValidBallot(rankings, votesPerVoter)
    ensures VotesRemaining(votesPerVoter, rankings) >= 0
    ensures SubmitEnabled(Some(votesPerVoter), rankings) <==> VotesRemaining(votesPerVoter, rankings) == 0
    ensures SubmitEnabled(None, rankings) <==> |rankings| >= 100
  {
  }

  /** The component state: the poll snapshot's votesPerVoter and the ranked selection. */
  class VotingPage {
    var votesPerVoter: Option<int>
    var rankings: seq<string>

    constructor (votesPerVoter: Option<int>)
      ensures this.votesPerVoter == votesPerVoter && rankings == []
    {
      this.votesPerVoter := votesPerVoter;
      rankings := [];
    }

    /** toggleNomination: `setRankings` with the new list, as written. */
    method ToggleNomination(id: string)
      modifies this`rankings
      ensures rankings == Toggle(old(rankings), id, VoteBound(votesPerVoter))
    {
      var position := FindIndex(rankings, id);
      var hasVotesRemaining := VoteBound(votesPerVoter) - |rankings| > 0;
      if position < 0 && hasVotesRemaining {
        rankings := rankings + [id];
      } else {
        rankings := Slice(rankings, 0, position) + Slice(rankings, position + 1, |rankings|);
      }
    }
  }
}
