/**
 * The bot's state and its handlers (bot.py:57-275): the store file and the
 * job queue, and the transitions `/set`, `/kerja`, `/sekali` (create_alarm),
 * `/stop`, `/test`, the snooze button, a job firing (send_alarm_message) and
 * the start-up restore. Each handler runs as one atomic step; replies are
 * returned as values instead of being sent.
 */
module Bot {
  import opened Wrappers
  import opened TimeText
  import opened Schedule
  import opened AlarmStore
  import opened JobRegistry

  /** Replies of the command handlers, without their Markdown and emoji. */
  datatype Reply =
    | AlarmSet(kindText: string, time: string, message: string)
    | FormatHint(command: string)
    | AlarmRemoved(time: string)
    | AlarmNotFound(time: string)
    | StopUsage
    | Unhandled   // the handler raised an exception it does not catch; nothing is sent

  /** What a firing job tried to deliver, and whether `send_message` succeeded. */
  datatype Alert = Alert(chatId: int, message: string, delivered: bool)

  /** The kinds the three set commands pass to create_alarm (bot.py:181-183). */
  predicate SetCommandKind(kind: string) {
    kind == "daily" || kind == "workdays" || kind == "once"
  }

  /** `cmd_map[alarm_type]` of the format hint (bot.py:177). */
  function Command(kind: string): (command: string)
    requires SetCommandKind(kind)
    ensures command == "/set" <==> kind == "daily"
    ensures command == "/kerja" <==> kind == "workdays"
    ensures command == "/sekali" <==> kind == "once"
  {
    if kind == "workdays" then "/kerja" else if kind == "once" then "/sekali" else "/set"
  }

  /** `tipe_teks` of the confirmation (bot.py:149, 169). */
  function KindText(kind: string): (text: string)
    ensures text == "Sekali Jalan" <==> kind == "once"
    ensures text == "Senin-Jumat" <==> kind == "workdays"
    ensures text == "Setiap Hari" <==> kind != "once" && kind != "workdays"
  {
    if kind == "once" then "Sekali Jalan" else if kind == "workdays" then "Senin-Jumat" else "Setiap Hari"
  }

  /** The custom message: the words after the time, or "Alarm!" when there are none (bot.py:123). */
  function CustomMessage(args: seq<string>): (message: string)
    ensures |args| <= 1 ==> message == "Alarm!"
    ensures |args| > 1 && (forall k :: 1 <= k < |args| ==> ' ' !in args[k]) ==> Split(message, ' ') == args[1..]
  {
    if |args| > 1 then
      assert forall k :: 0 <= k < |args[1..]| ==> args[1..][k] == args[k + 1];
      if forall k :: 1 <= k < |args| ==> ' ' !in args[k] then
        SplitJoin(args[1..], ' ');
        Join(args[1..], ' ')
      else
        Join(args[1..], ' ')
    else "Alarm!"
  }

  /**
   * The job that arms alarm `data` for local h:m at instant `now`; None where
   * `datetime.replace` (one-shot) or `datetime.time` (recurring) raises
   * ValueError. Shared by create_alarm (bot.py:136-168) and restore_alarms
   * (bot.py:249-273), which compute it identically.
   */
  function ArmedJob(name: string, data: JobData, h: int, m: int, now: int): (r: Option<Job>)
    ensures r.Some? <==> ValidClock(h, m)
    ensures r.Some? ==> r.value.name == Some(name) && r.value.data == data
    ensures r.Some? && data.kind == "once" ==>
      r.value.trigger.At? && now < r.value.trigger.instant <= now + DAY
      && LocalTimeOfDay(r.value.trigger.instant) == WallClock(h, m)
    ensures r.Some? && data.kind != "once" ==> r.value.trigger == DailyAt(h, m, DaysFilter(data.kind))
  {
    if data.kind == "once" then
      match OnceTarget(now, h, m)
      case Some(target) => Some(Job(Some(name), data, At(target)))
      case None => None
    else if ValidClock(h, m) then
      Some(Job(Some(name), data, DailyAt(h, m, DaysFilter(data.kind))))
    else
      None
  }

  /** A stored record whose time restore can parse into a valid hour and minute. */
  predicate Restorable(rec: Record) {
    ParseTime(rec.time).Some? && ValidClock(ParseTime(rec.time).value.0, ParseTime(rec.time).value.1)
  }

  /**
   * The job restore arms for one record, with a missing type read as "daily"
   * and a missing message as "Alarm" (bot.py:242-247); None where it raises.
   */
  function RestoredJob(rec: Record, now: int): (r: Option<Job>)
    ensures r.Some? <==> Restorable(rec)
    ensures r.Some? ==> r.value.name == Some(JobName(rec.chatId, rec.time))
    ensures r.Some? ==> r.value.data == JobData(rec.chatId, rec.message.GetOr("Alarm"), rec.kind.GetOr("daily"), rec.time)
    ensures r.Some? ==> r == ArmedJob(JobName(rec.chatId, rec.time), r.value.data,
                                      ParseTime(rec.time).value.0, ParseTime(rec.time).value.1, now)
  {
    match ParseTime(rec.time)
    case None => None
    case Some(hm) =>
      ArmedJob(JobName(rec.chatId, rec.time),
               JobData(rec.chatId, rec.message.GetOr("Alarm"), rec.kind.GetOr("daily"), rec.time),
               hm.0, hm.1, now)
  }

  /** A restored record without a type runs daily, on all seven days of the week. */
  lemma RestoredUntypedRunsDaily(rec: Record, now: int)
    requires rec.kind.None? && Restorable(rec)
    ensures var j := RestoredJob(rec, now).value;
      && j.trigger == DailyAt(ParseTime(rec.time).value.0, ParseTime(rec.time).value.1, j.trigger.days)
      && (forall d :: 0 <= d <= 6 ==> d in j.trigger.days)
  {
    var j := RestoredJob(rec, now).value;
    assert j.data.kind == "daily";
    assert j.trigger.days == DaysFilter("daily");
  }

  /** The jobs the restore loop arms, one per restorable record, in store order. */
  function RestoredJobs(rs: seq<Record>, now: int): (out: seq<Job>)
    ensures |out| <= |rs|
    ensures forall j :: j in out ==> exists r :: r in rs && RestoredJob(r, now) == Some(j)
  {
    if rs == [] then []
    else
      var init := RestoredJobs(rs[..|rs| - 1], now);
      match RestoredJob(rs[|rs| - 1], now)
      case Some(j) => init + [j]
      case None => init
  }

  /** One more record extends the restored jobs by that record's job, if any. */
  lemma RestoredJobsStep(rs: seq<Record>, i: nat, now: int)
    requires i < |rs|
    ensures RestoredJobs(rs[..i + 1], now)
         == RestoredJobs(rs[..i], now) + (if RestoredJob(rs[i], now).Some? then [RestoredJob(rs[i], now).value] else [])
  {
    assert rs[..i + 1][..i] == rs[..i];
  }

  /** Restoring a record that create_alarm saved arms the job create_alarm armed. */
  lemma RestoreMatchesCreate(chatId: int, time: string, message: string, kind: string, now: int)
    requires ParseTime(time).Some?
    ensures RestoredJob(Record(chatId, time, Some(message), Some(kind)), now)
         == ArmedJob(JobName(chatId, time), JobData(chatId, message, kind, time),
                     ParseTime(time).value.0, ParseTime(time).value.1, now)
  {
  }

  /**
   * A record that raises is skipped and the loop goes on: every restorable
   * record's job is armed, wherever in the store it stands.
   */
  lemma {:induction false} RestoreArmsEveryRestorable(rs: seq<Record>, now: int)
    ensures forall r :: r in rs && Restorable(r) ==> RestoredJob(r, now).value in RestoredJobs(rs, now)
  {
    if rs != [] {
      var init, x := rs[..|rs| - 1], rs[|rs| - 1];
      RestoreArmsEveryRestorable(init, now);
      assert rs == init + [x];
      forall r | r in rs && Restorable(r) ensures RestoredJob(r, now).value in RestoredJobs(rs, now) {
        if r != x {
          assert r in init;
        }
      }
    }
  }

  /** The number of records restore can arm. */
  function CountRestorable(rs: seq<Record>): nat {
    if rs == [] then 0
    else CountRestorable(rs[..|rs| - 1]) + (if Restorable(rs[|rs| - 1]) then 1 else 0)
  }

  /**
   * Restore arms one job per restorable record, whatever else the store
   * holds: a record that raises is skipped and the loop goes on.
   */
  lemma {:induction false} RestoreCount(rs: seq<Record>, now: int)
    ensures |RestoredJobs(rs, now)| == CountRestorable(rs)
    ensures (forall r :: r in rs ==> Restorable(r)) ==> |RestoredJobs(rs, now)| == |rs|
  {
    if rs != [] {
      var init := rs[..|rs| - 1];
      assert forall r :: r in init ==> r in rs;
      RestoreCount(init, now);
      assert rs[|rs| - 1] in rs;
    }
  }

  /** Every restored one-shot job fires after the restore instant and within a day of it. */
  lemma RestoredInFuture(rs: seq<Record>, now: int)
    ensures forall j :: j in RestoredJobs(rs, now) && j.trigger.At? ==>
      now < j.trigger.instant <= now + DAY
  {
    forall j | j in RestoredJobs(rs, now) && j.trigger.At?
      ensures now < j.trigger.instant <= now + DAY
    {
      var r :| r in rs && RestoredJob(r, now) == Some(j);
    }
  }

  /** No stored record of key (chatId, time) means no restored job of its name. */
  lemma {:induction false} NoRestoredJobNamed(rs: seq<Record>, now: int, chatId: int, time: string)
    requires forall r :: r in rs ==> !HasKey(r, chatId, time)
    ensures Named(RestoredJobs(rs, now), JobName(chatId, time)) == []
  {
    if rs != [] {
      var init, x := rs[..|rs| - 1], rs[|rs| - 1];
      assert forall r :: r in init ==> r in rs;
      NoRestoredJobNamed(init, now, chatId, time);
      assert x in rs;
      match RestoredJob(x, now)
      case None =>
      case Some(j) =>
        NamedConcat(RestoredJobs(init, now), [j], JobName(chatId, time));
        if JobName(x.chatId, x.time) == JobName(chatId, time) {
          JobNameInjective(x.chatId, x.time, chatId, time);
        }
    }
  }

  /** Restoring a store with unique keys arms at most one job per name. */
  lemma {:induction false} RestoredNamesUnique(rs: seq<Record>, now: int)
    requires KeysUnique(rs)
    ensures NamesUnique(RestoredJobs(rs, now))
  {
    if rs != [] {
      var init, x := rs[..|rs| - 1], rs[|rs| - 1];
      assert rs == init + [x];
      KeysUniqueSnoc(init, x);
      RestoredNamesUnique(init, now);
      var before := RestoredJobs(init, now);
      match RestoredJob(x, now)
      case None =>
      case Some(j) =>
        forall name ensures |Named(before + [j], name)| <= 1 {
          NamedConcat(before, [j], name);
          if j.name == Some(name) {
            forall r | r in init ensures !HasKey(r, x.chatId, x.time) {
              assert !HasKey(x, r.chatId, r.time);
            }
            NoRestoredJobNamed(init, now, x.chatId, x.time);
          }
        }
    }
  }

  /** The transient job of the snooze button: 300 s, fixed message, type "snooze" (bot.py:103-112). */
  function SnoozeJob(chatId: int): (j: Job)
    ensures j.name.None? && j.data.kind == "snooze" && j.trigger == After(300)
    ensures j.data.chatId == chatId && j.data.message == "SNOOZE: Bangun woy!"
  {
    Job(None, JobData(chatId, "SNOOZE: Bangun woy!", "snooze", "00:00"), After(300))
  }

  /** The transient job of `/test`: 5 s, type "test" (bot.py:232-235). */
  function TestJob(chatId: int): (j: Job)
    ensures j.name.None? && j.data.kind == "test" && j.trigger == After(5)
    ensures j.data.chatId == chatId && j.data.message == "TESTING!"
  {
    Job(None, JobData(chatId, "TESTING!", "test", "00:00"), After(5))
  }

  /** The store file and the job queue. */
  class AlarmBot {
    var file: StoreFile
    var jobs: seq<Job>

    constructor (stored: StoreFile)
      ensures file == stored && jobs == []
    {
      file := stored;
      jobs := [];
    }

    /** `save_alarm_to_db`: read (a failed read gives []), upsert, rewrite the whole file. */
    method SaveAlarmToDb(chatId: int, time: string, message: string, kind: string)
      modifies this`file
      ensures file == Holds(SaveAlarm(LoadAlarms(old(file)), chatId, time, message, kind))
    {
      var alarms := LoadAlarms(file);
      file := Holds(SaveAlarm(alarms, chatId, time, message, kind));
    }

    /** `remove_alarm_from_db`: read, drop the key, rewrite the whole file. */
    method RemoveAlarmFromDb(chatId: int, time: string)
      modifies this`file
      ensures file == Holds(WithoutKey(LoadAlarms(old(file)), chatId, time))
    {
      var alarms := LoadAlarms(file);
      file := Holds(WithoutKey(alarms, chatId, time));
    }

    /** `job_queue.get_jobs_by_name(name)`. */
    method GetJobsByName(name: string) returns (found: seq<Job>)
      ensures found == Named(jobs, name)
    {
      found := [];
      var i := 0;
      while i < |jobs|
        invariant 0 <= i <= |jobs|
        invariant found == Named(jobs[..i], name)
      {
        assert jobs[..i + 1][..i] == jobs[..i];
        if jobs[i].name == Some(name) {
          found := found + [jobs[i]];
        }
        i := i + 1;
      }
      assert jobs[..|jobs|] == jobs;
    }

    /** `for job in get_jobs_by_name(name): job.schedule_removal()` (bot.py:132-133, 207-210). */
    method RemoveJobsNamed(name: string)
      modifies this`jobs
      ensures jobs == WithoutName(old(jobs), name)
    {
      var all := jobs;
      var kept := [];
      var i := 0;
      while i < |all|
        invariant 0 <= i <= |all|
        invariant kept == WithoutName(all[..i], name)
      {
        assert all[..i + 1][..i] == all[..i];
        if all[i].name != Some(name) {
          kept := kept + [all[i]];
        }
        i := i + 1;
      }
      assert all[..|all|] == all;
      jobs := kept;
    }

    /** `run_once` / `run_daily`: the job joins the queue. */
    method Run(job: Job)
      modifies this`jobs
      ensures jobs == old(jobs) + [job]
    {
      jobs := jobs + [job];
    }

    /**
     * create_alarm (bot.py:115-178). Empty arguments or a time that is not
     * two integers change nothing. Otherwise the record is saved and the
     * jobs of its name removed BEFORE the hour and minute are range-checked,
     * so an out-of-range time is stored, and leaves no job, with the format hint.
     */
    method CreateAlarm(chatId: int, args: seq<string>, kind: string, now: int) returns (reply: Reply)
      requires SetCommandKind(kind)
      modifies this
      ensures |args| == 0 || ParseTime(args[0]).None? ==>
        file == old(file) && jobs == old(jobs) && reply == FormatHint(Command(kind))
      ensures |args| > 0 && ParseTime(args[0]).Some? ==>
        var time, message := args[0], CustomMessage(args);
        var job := ArmedJob(JobName(chatId, time), JobData(chatId, message, kind, time),
                            ParseTime(time).value.0, ParseTime(time).value.1, now);
        && file == Holds(SaveAlarm(LoadAlarms(old(file)), chatId, time, message, kind))
        && jobs == WithoutName(old(jobs), JobName(chatId, time)) + (if job.Some? then [job.value] else [])
        && reply == (if job.Some? then AlarmSet(KindText(kind), time, message)
                     else if FitsCInt(ParseTime(time).value.0) && FitsCInt(ParseTime(time).value.1) then FormatHint(Command(kind))
                     else Unhandled)
      ensures |args| > 0 && ParseTime(args[0]).Some? ==> |Named(jobs, JobName(chatId, args[0]))| <= 1
      ensures NamesUnique(old(jobs)) ==> NamesUnique(jobs)
    {
      if |args| == 0 {
        return FormatHint(Command(kind));
      }
      var time := args[0];
      var message := CustomMessage(args);
      var parsed := ParseTime(time);
      if parsed.None? {
        return FormatHint(Command(kind));
      }
      var (hour, minute) := parsed.value;
      var name := JobName(chatId, time);
      SaveAlarmToDb(chatId, time, message, kind);
      assert jobs == old(jobs);
      RemoveJobsNamed(name);
      assert jobs == WithoutName(old(jobs), name);
      assert file == Holds(SaveAlarm(LoadAlarms(old(file)), chatId, time, message, kind));
      RemoveNameLeavesNone(old(jobs), name);
      var job := ArmedJob(name, JobData(chatId, message, kind, time), hour, minute, now);
      if job.None? {
        // `replace` and `time` raise OverflowError, which is not caught, before ValueError
        reply := if FitsCInt(hour) && FitsCInt(minute) then FormatHint(Command(kind)) else Unhandled;
        return;
      }
      RearmLeavesOne(old(jobs), job.value, name);
      Run(job.value);
      assert jobs == WithoutName(old(jobs), name) + [job.value];
      reply := AlarmSet(KindText(kind), time, message);
    }

    /**
     * stop_alarm (bot.py:203-216): the jobs of the name and the record go only
     * when a live job exists; a record with no live job is left in the store.
     */
    method StopAlarm(chatId: int, args: seq<string>) returns (reply: Reply)
      modifies this
      ensures |args| == 0 ==> file == old(file) && jobs == old(jobs) && reply == StopUsage
      ensures |args| > 0 && Named(old(jobs), JobName(chatId, args[0])) != [] ==>
        && jobs == WithoutName(old(jobs), JobName(chatId, args[0]))
        && file == Holds(WithoutKey(LoadAlarms(old(file)), chatId, args[0]))
        && reply == AlarmRemoved(args[0])
      ensures |args| > 0 && Named(old(jobs), JobName(chatId, args[0])) == [] ==>
        jobs == old(jobs) && file == old(file) && reply == AlarmNotFound(args[0])
      ensures |args| > 0 ==> Named(jobs, JobName(chatId, args[0])) == []
      ensures NamesUnique(old(jobs)) ==> NamesUnique(jobs)
    {
      if |args| == 0 {
        return StopUsage;
      }
      var time := args[0];
      var name := JobName(chatId, time);
      var found := GetJobsByName(name);
      RemoveNameLeavesNone(jobs, name);
      if found != [] {
        RemoveJobsNamed(name);
        RemoveAlarmFromDb(chatId, time);
        reply := AlarmRemoved(time);
      } else {
        reply := AlarmNotFound(time);
      }
    }

    /**
     * send_alarm_message for the job at position i (bot.py:57-90). Whether the
     * send succeeded does not affect what follows; a one-shot job removes its
     * record and itself, every other type changes nothing.
     */
    method SendAlarmMessage(i: nat, delivered: bool) returns (alert: Alert)
      requires i < |jobs|
      modifies this
      ensures alert == Alert(old(jobs)[i].data.chatId, old(jobs)[i].data.message, delivered)
      ensures old(jobs)[i].data.kind == "once" ==>
        && file == Holds(WithoutKey(LoadAlarms(old(file)), old(jobs)[i].data.chatId, old(jobs)[i].data.timeStr))
        && jobs == RemoveAt(old(jobs), i)
      ensures old(jobs)[i].data.kind != "once" ==> file == old(file) && jobs == old(jobs)
      ensures NamesUnique(old(jobs)) && old(jobs)[i].name.Some? ==>
        NamesUnique(jobs) && (old(jobs)[i].data.kind == "once" ==> Named(jobs, old(jobs)[i].name.value) == [])
    {
      var job := jobs[i];
      alert := Alert(job.data.chatId, job.data.message, delivered);
      if job.data.kind == "once" {
        RemoveAlarmFromDb(job.data.chatId, job.data.timeStr);
        if job.name.Some? && NamesUnique(jobs) {
          RetireLeavesNone(jobs, i, job.name.value);
        }
        jobs := RemoveAt(jobs, i);
      }
    }

    /**
     * button_handler (bot.py:92-112): "snooze" adds the transient snooze job;
     * any other button changes nothing. `sent` says whether `query.answer()`
     * and `edit_message_text` succeeded: a failed send raises before the job is armed.
     */
    method ButtonHandler(chatId: int, data: string, sent: bool)
      modifies this`jobs
      ensures data == "snooze" && sent ==> jobs == old(jobs) + [SnoozeJob(chatId)]
      ensures data != "snooze" || !sent ==> jobs == old(jobs)
      ensures forall name :: Named(jobs, name) == Named(old(jobs), name)
    {
      if data == "snooze" && sent {
        AddUnnamed(jobs, SnoozeJob(chatId));
        Run(SnoozeJob(chatId));
      }
    }

    /**
     * test_alarm (bot.py:230-235): adds the transient test job and nothing
     * else. `sent` says whether the announcement `reply_text` succeeded: a
     * failed send raises before the job is armed.
     */
    method TestAlarm(chatId: int, sent: bool)
      modifies this`jobs
      ensures sent ==> jobs == old(jobs) + [TestJob(chatId)]
      ensures !sent ==> jobs == old(jobs)
      ensures forall name :: Named(jobs, name) == Named(old(jobs), name)
    {
      if sent {
        AddUnnamed(jobs, TestJob(chatId));
        Run(TestJob(chatId));
      }
    }

    /** restore_alarms (bot.py:237-275): arm one job per stored record, skipping those that raise. */
    method RestoreAlarms(now: int)
      modifies this`jobs
      ensures jobs == old(jobs) + RestoredJobs(LoadAlarms(file), now)
      ensures old(jobs) == [] && KeysUnique(LoadAlarms(file)) ==> NamesUnique(jobs)
    {
      var alarms := LoadAlarms(file);
      var i := 0;
      while i < |alarms|
        invariant 0 <= i <= |alarms|
        invariant jobs == old(jobs) + RestoredJobs(alarms[..i], now)
      {
        RestoredJobsStep(alarms, i, now);
        var job := RestoredJob(alarms[i], now);
        if job.Some? {
          Run(job.value);
        }
        i := i + 1;
      }
      assert alarms[..|alarms|] == alarms;
      if old(jobs) == [] && KeysUnique(alarms) {
        RestoredNamesUnique(alarms, now);
        assert old(jobs) + RestoredJobs(alarms, now) == RestoredJobs(alarms, now);
      }
    }
  }
}
