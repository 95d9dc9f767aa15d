/**
 * The job queue's contents as values: each job has an optional name, the
 * data dictionary handed to `send_alarm_message`, and when it fires.
 * Jobs for stored alarms are named `f"{chat_id}_{time_str}"`
 * (bot.py:126, 206, 247); snooze and test jobs are unnamed.
 */
module JobRegistry {
  import opened Wrappers
  import opened Decimal

  /** When a job fires; the library's own day-by-day scheduling is not modelled. */
  datatype Trigger =
    | At(instant: int)                                  // run_once(when=<datetime>)
    | DailyAt(hour: int, minute: int, days: seq<int>)   // run_daily(time=..., days=...)
    | After(seconds: nat)                               // run_once(when=<seconds>)

  datatype JobData = JobData(chatId: int, message: string, kind: string, timeStr: string)

  datatype Job = Job(name: Option<string>, data: JobData, trigger: Trigger)

  /**
   * The name of the job for alarm (chatId, time): the first `_` of the name
   * ends the chat id's decimal text, and the time string follows it.
   */
  function JobName(chatId: int, time: string): (n: string)
    ensures var d := IntToDecimal(chatId);
      && |n| == |d| + 1 + |time|
      && (forall k :: 0 <= k < |d| ==> n[k] != '_')
      && n[|d|] == '_' && n[..|d|] == d && n[|d| + 1..] == time
  {
    IntToDecimal(chatId) + "_" + time
  }

  /**
   * The decimal form of an int holds no `_`, so the first `_` of a job name
   * splits it back into chat id and time string.
   */
  lemma JobNameInjective(c1: int, t1: string, c2: int, t2: string)
    requires JobName(c1, t1) == JobName(c2, t2)
    ensures c1 == c2 && t1 == t2
  {
    var a1, a2 := IntToDecimal(c1), IntToDecimal(c2);
    var n := JobName(c1, t1);
    assert n == a1 + "_" + t1 == a2 + "_" + t2;
    assert n[|a1|] == '_' && n[|a2|] == '_';
    assert a1 == n[..|a1|] == a2;
    DecimalInjective(c1, c2);
    assert t1 == n[|a1| + 1..] == t2;
  }

  /** `get_jobs_by_name(name)`: the jobs with that name, in registry order. */
  function Named(jobs: seq<Job>, name: string): (r: seq<Job>)
    ensures |r| <= |jobs|
    ensures forall j :: j in r <==> j in jobs && j.name == Some(name)
  {
    if jobs == [] then []
    else
      var found := Named(jobs[..|jobs| - 1], name);
      if jobs[|jobs| - 1].name == Some(name) then found + [jobs[|jobs| - 1]] else found
  }

  /** The registry after every job with that name has been removed. */
  function WithoutName(jobs: seq<Job>, name: string): (r: seq<Job>)
    ensures |r| <= |jobs|
    ensures forall j :: j in r <==> j in jobs && j.name != Some(name)
  {
    if jobs == [] then []
    else
      var kept := WithoutName(jobs[..|jobs| - 1], name);
      if jobs[|jobs| - 1].name == Some(name) then kept else kept + [jobs[|jobs| - 1]]
  }

  /** At most one live job per name. */
  ghost predicate NamesUnique(jobs: seq<Job>) {
    forall name :: |Named(jobs, name)| <= 1
  }

  lemma {:induction false} NamedConcat(a: seq<Job>, b: seq<Job>, name: string)
    ensures Named(a + b, name) == Named(a, name) + Named(b, name)
  {
    if b == [] {
      assert a + b == a;
    } else {
      assert (a + b)[..|a + b| - 1] == a + b[..|b| - 1];
      NamedConcat(a, b[..|b| - 1], name);
    }
  }

  /** Removal by name distributes over concatenation, so the kept jobs keep their order. */
  lemma {:induction false} WithoutNameConcat(a: seq<Job>, b: seq<Job>, name: string)
    ensures WithoutName(a + b, name) == WithoutName(a, name) + WithoutName(b, name)
  {
    if b == [] {
      assert a + b == a;
    } else {
      assert (a + b)[..|a + b| - 1] == a + b[..|b| - 1];
      WithoutNameConcat(a, b[..|b| - 1], name);
    }
  }

  /** Removal by name keeps every other job as often as it occurred, and no job of that name. */
  lemma {:induction false} WithoutNameCounts(jobs: seq<Job>, name: string)
    ensures forall j :: multiset(WithoutName(jobs, name))[j] == if j.name != Some(name) then multiset(jobs)[j] else 0
  {
    if jobs != [] {
      var init, x := jobs[..|jobs| - 1], jobs[|jobs| - 1];
      assert jobs == init + [x];
      WithoutNameCounts(init, name);
    }
  }

  /** `get_jobs_by_name` returns every job of the name as often as it occurs, and nothing else. */
  lemma {:induction false} NamedCounts(jobs: seq<Job>, name: string)
    ensures forall j :: multiset(Named(jobs, name))[j] == if j.name == Some(name) then multiset(jobs)[j] else 0
  {
    if jobs != [] {
      var init, x := jobs[..|jobs| - 1], jobs[|jobs| - 1];
      assert jobs == init + [x];
      NamedCounts(init, name);
    }
  }

  lemma {:induction false} NamedWithoutName(jobs: seq<Job>, name: string, other: string)
    ensures Named(WithoutName(jobs, name), other) == if other == name then [] else Named(jobs, other)
  {
    if jobs != [] {
      var init, x := jobs[..|jobs| - 1], jobs[|jobs| - 1];
      NamedWithoutName(init, name, other);
      NamedConcat(WithoutName(init, name), [x], other);
    }
  }

  /** Removing a name, then adding one job of that name, leaves exactly that job under the name. */
  lemma RearmLeavesOne(jobs: seq<Job>, job: Job, name: string)
    requires job.name == Some(name)
    ensures Named(WithoutName(jobs, name) + [job], name) == [job]
    ensures NamesUnique(jobs) ==> NamesUnique(WithoutName(jobs, name) + [job])
  {
    forall other
      ensures Named(WithoutName(jobs, name) + [job], other)
              == (if other == name then [job] else Named(jobs, other))
    {
      NamedConcat(WithoutName(jobs, name), [job], other);
      NamedWithoutName(jobs, name, other);
    }
  }

  /** Removing every job of a name leaves none under it and keeps names unique. */
  lemma RemoveNameLeavesNone(jobs: seq<Job>, name: string)
    ensures Named(WithoutName(jobs, name), name) == []
    ensures NamesUnique(jobs) ==> NamesUnique(WithoutName(jobs, name))
  {
    forall other ensures |Named(WithoutName(jobs, name), other)| <= |Named(jobs, other)| {
      NamedWithoutName(jobs, name, other);
    }
  }

  /** Adding an unnamed job changes no name's jobs. */
  lemma AddUnnamed(jobs: seq<Job>, job: Job)
    requires job.name.None?
    ensures forall name :: Named(jobs + [job], name) == Named(jobs, name)
    ensures NamesUnique(jobs) ==> NamesUnique(jobs + [job])
  {
    forall name ensures Named(jobs + [job], name) == Named(jobs, name) {
      NamedConcat(jobs, [job], name);
    }
  }

  /** The registry after the job at position i has removed itself. */
  function RemoveAt(jobs: seq<Job>, i: nat): (r: seq<Job>)
    requires i < |jobs|
    ensures |r| == |jobs| - 1
    ensures multiset(r) + multiset{jobs[i]} == multiset(jobs)
  {
    assert jobs == jobs[..i] + [jobs[i]] + jobs[i + 1..];
    jobs[..i] + jobs[i + 1..]
  }

  /** A named job that retires itself leaves no job of its name, when names were unique. */
  lemma RetireLeavesNone(jobs: seq<Job>, i: nat, name: string)
    requires i < |jobs| && jobs[i].name == Some(name)
    requires NamesUnique(jobs)
    ensures Named(RemoveAt(jobs, i), name) == []
    ensures NamesUnique(RemoveAt(jobs, i))
  {
    assert jobs == jobs[..i] + [jobs[i]] + jobs[i + 1..];
    forall other ensures |Named(RemoveAt(jobs, i), other)| + |Named([jobs[i]], other)| == |Named(jobs, other)| {
      NamedConcat(jobs[..i], [jobs[i]], other);
      NamedConcat(jobs[..i] + [jobs[i]], jobs[i + 1..], other);
      NamedConcat(jobs[..i], jobs[i + 1..], other);
    }
    assert Named([jobs[i]], name) == [jobs[i]];
  }
}
