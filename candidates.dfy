/** Operations on a job's candidate list: appending an application,
    locating one by id, overwriting its status, and asking whether a
    user has applied. */
module Candidates {
  import opened Outcomes
  import opened Jobs

  /** The job after `candidateList.push(a)`: one more entry, at the end,
      and nothing else about the job changed. */
  function Append(j: Job, a: Application): (r: Job)
    ensures |r.candidateList| == |j.candidateList| + 1
    ensures r.candidateList[..|j.candidateList|] == j.candidateList
    ensures r.candidateList[|j.candidateList|] == a
    ensures r.(candidateList := j.candidateList) == j
  {
    j.(candidateList := j.candidateList + [a])
  }

  /** `candidateList.findIndex(e => e._id.toString() === index)`: the first
      position whose entry has id `index`, or -1 when there is none. */
  method FindIndex(list: seq<Application>, index: AppId) returns (i: int)
    ensures -1 <= i < |list|
    ensures i == -1 <==> forall k | 0 <= k < |list| :: list[k].id != index
    ensures 0 <= i ==> list[i].id == index
    ensures forall k | 0 <= k < i :: list[k].id != index
  {
    var n := 0;
    while n < |list|
      invariant 0 <= n <= |list|
      invariant forall k | 0 <= k < n :: list[k].id != index
    {
      if list[n].id == index {
        return n;
      }
      n := n + 1;
    }
    return -1;
  }

  /** The job after `candidateList[i].status = s`: entry `i` has the new
      status, and every other entry and every other field is unchanged. */
  function SetStatus(j: Job, i: nat, s: string): (r: Job)
    requires i < |j.candidateList|
    ensures |r.candidateList| == |j.candidateList|
    ensures r.candidateList[i] == j.candidateList[i].(status := s)
    ensures forall k | 0 <= k < |j.candidateList| && k != i :: r.candidateList[k] == j.candidateList[k]
    ensures r.(candidateList := j.candidateList) == j
  {
    j.(candidateList := j.candidateList[i := j.candidateList[i].(status := s)])
  }

  /** `candidateList.some(i => i.user == viewer)`, where the viewer is the
      request's `userID._id`, which may be absent. Every entry of the model
      carries a user, so a request without a viewer id matches no entry. */
  predicate IsApplied(list: seq<Application>, viewer: Option<UserId>)
    ensures viewer.None? ==> !IsApplied(list, viewer)
    ensures forall k | 0 <= k < |list| :: viewer == Some(list[k].user) ==> IsApplied(list, viewer)
  {
    viewer.Some? && exists k | 0 <= k < |list| :: list[k].user == viewer.value
  }

  /** How many entries of `list` belong to user `u`. */
  function CountBy(list: seq<Application>, u: UserId): nat
  {
    if list == [] then 0
    else (if list[0].user == u then 1 else 0) + CountBy(list[1..], u)
  }

  /** Appending one entry adds one to its user's count and nothing to anyone else's. */
  lemma {:induction false} CountByAppend(list: seq<Application>, a: Application, u: UserId)
    ensures CountBy(list + [a], u) == CountBy(list, u) + (if a.user == u then 1 else 0)
  {
    if list != [] {
      assert (list + [a])[1..] == list[1..] + [a];
      CountByAppend(list[1..], a, u);
    }
  }

  /** A user has applied exactly when at least one entry is theirs. */
  lemma {:induction false} AppliedIffCounted(list: seq<Application>, u: UserId)
    ensures IsApplied(list, Some(u)) <==> CountBy(list, u) > 0
  {
    if list != [] {
      AppliedIffCounted(list[1..], u);
      if IsApplied(list[1..], Some(u)) {
        var k :| 0 <= k < |list[1..]| && list[1..][k].user == u;
        assert list[k + 1].user == u;
      }
      if IsApplied(list, Some(u)) && list[0].user != u {
        var k :| 0 <= k < |list| && list[k].user == u;
        assert list[1..][k - 1].user == u;
      }
    }
  }

  /** After applying, the applicant counts as having applied; every other
      viewer's answer is what it was before. */
  lemma ApplyDecidesIsApplied(j: Job, a: Application, viewer: Option<UserId>)
    ensures IsApplied(Append(j, a).candidateList, viewer)
        <==> viewer == Some(a.user) || IsApplied(j.candidateList, viewer)
  {
    var list := Append(j, a).candidateList;
    if viewer == Some(a.user) {
      assert list[|j.candidateList|].user == a.user;
    }
    if IsApplied(j.candidateList, viewer) {
      var k :| 0 <= k < |j.candidateList| && j.candidateList[k].user == viewer.value;
      assert list[k] == j.candidateList[k];
    }
  }

  /** There is no duplicate check: a second application by the same user
      adds a second entry for that user. */
  lemma ApplyTwiceKeepsBoth(j: Job, a: Application, b: Application)
    requires a.user == b.user
    ensures CountBy(Append(Append(j, a), b).candidateList, a.user) == CountBy(j.candidateList, a.user) + 2
  {
    CountByAppend(j.candidateList, a, a.user);
    CountByAppend(j.candidateList + [a], b, a.user);
  }

  /** Changing a status never changes who has applied, nor how often. */
  lemma {:induction false} SetStatusKeepsApplicants(j: Job, i: nat, s: string, u: UserId)
    requires i < |j.candidateList|
    ensures CountBy(SetStatus(j, i, s).candidateList, u) == CountBy(j.candidateList, u)
    ensures IsApplied(SetStatus(j, i, s).candidateList, Some(u)) <==> IsApplied(j.candidateList, Some(u))
  {
    SameUsersSameCount(j.candidateList, SetStatus(j, i, s).candidateList, u);
    AppliedIffCounted(j.candidateList, u);
    AppliedIffCounted(SetStatus(j, i, s).candidateList, u);
  }

  /** Two lists with the same user at every position give the same counts. */
  lemma {:induction false} SameUsersSameCount(xs: seq<Application>, ys: seq<Application>, u: UserId)
    requires |xs| == |ys|
    requires forall k | 0 <= k < |xs| :: xs[k].user == ys[k].user
    ensures CountBy(xs, u) == CountBy(ys, u)
  {
    if xs != [] {
      SameUsersSameCount(xs[1..], ys[1..], u);
    }
  }
}
