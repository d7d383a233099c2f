/** Job numbers: the first so many, one taken out of a list, and how often each occurs. */
module Jobs {
  function Range(from: nat, to: nat): (jobs: seq<nat>)
    requires from <= to
    ensures |jobs| == to - from
  {
    seq(to - from, i requires 0 <= i < to - from => from + i)
  }

  function Without(jobs: seq<nat>, job: nat): seq<nat> {
    if jobs == [] then []
    else if jobs[0] == job then jobs[1..]
    else [jobs[0]] + Without(jobs[1..], job)
  }

  lemma {:induction false} WithoutTakesOne(jobs: seq<nat>, job: nat)
    requires job in jobs
    ensures multiset(Without(jobs, job)) == multiset(jobs) - multiset{job}
    ensures |Without(jobs, job)| == |jobs| - 1
  {
    assert jobs == [jobs[0]] + jobs[1..];
    if jobs[0] != job {
      WithoutTakesOne(jobs[1..], job);
    }
  }

  lemma RangeGrows(from: nat, to: nat)
    requires from <= to
    ensures Range(0, to) == Range(0, from) + Range(from, to)
  {
  }

  lemma RangeCounts(from: nat, to: nat, job: nat)
    requires from <= to
    ensures multiset(Range(from, to))[job] == (if from <= job < to then 1 else 0)
    decreases |Range(from, to)|
  {
    if from < to {
      RangeCounts(from, to - 1, job);
      assert Range(from, to) == Range(from, to - 1) + [to - 1];
    } else {
      assert Range(from, to) == [];
    }
  }

  lemma JobMoves(jobs: seq<nat>, others: seq<nat>, reported: seq<nat>, job: nat)
    requires job in jobs
    ensures |Without(jobs, job)| == |jobs| - 1
    ensures multiset(Without(jobs, job)) + multiset(others) + multiset(reported + [job])
         == multiset(jobs) + multiset(others) + multiset(reported)
    ensures multiset(others) + multiset(Without(jobs, job)) + multiset(reported + [job])
         == multiset(others) + multiset(jobs) + multiset(reported)
  {
    WithoutTakesOne(jobs, job);
    assert multiset(reported + [job]) == multiset(reported) + multiset{job};
    assert multiset(jobs) == multiset(Without(jobs, job)) + multiset{job};
  }

  lemma {:induction false} WithoutFirst(jobs: seq<nat>, job: nat, place: nat)
    requires place < |jobs| && jobs[place] == job && job !in jobs[..place]
    ensures Without(jobs, job) == jobs[..place] + jobs[place + 1..]
    decreases place
  {
    if place > 0 {
      assert jobs[1..][..place - 1] == jobs[1..place];
      WithoutFirst(jobs[1..], job, place - 1);
    }
  }

  /** Removes the first occurrence. */
  method Erase(jobs: seq<nat>, job: nat) returns (rest: seq<nat>)
    requires job in jobs
    ensures rest == Without(jobs, job)
  {
    var i := 0;
    while jobs[i] != job
      invariant 0 <= i < |jobs| && job in jobs[i..] && job !in jobs[..i]
      decreases |jobs| - i
    {
      i := i + 1;
    }
    WithoutFirst(jobs, job, i);
    rest := jobs[..i] + jobs[i + 1..];
  }
}
