/**
 * The alarm store: the list of records kept in `alarms.json` (bot.py:28-53).
 * A record is identified by its chat id and its time string exactly as the
 * user typed it; the parsed hour and minute play no part in identity.
 */
module AlarmStore {
  import opened Wrappers

  /** A stored alarm. `message` and `kind` ("type" in the file) are missing in old records. */
  datatype Record = Record(chatId: int, time: string, message: Option<string>, kind: Option<string>)

  /** What reading the file gives: it may be missing or not parse as JSON. */
  datatype StoreFile = Absent | Unparsable | Holds(records: seq<Record>)

  /** `load_alarms`: a missing or unparsable file reads as the empty list. */
  function LoadAlarms(f: StoreFile): (rs: seq<Record>)
    ensures f.Holds? ==> rs == f.records
    ensures !f.Holds? ==> rs == []
  {
    if f.Holds? then f.records else []
  }

  predicate HasKey(r: Record, chatId: int, time: string) {
    r.chatId == chatId && r.time == time
  }

  /** Every pair of records differs in chat id or time string. */
  predicate KeysUnique(rs: seq<Record>) {
    forall i, j :: 0 <= i < j < |rs| ==> !HasKey(rs[j], rs[i].chatId, rs[i].time)
  }

  /** The list comprehension that drops every record with key (chatId, time) (bot.py:38, 51). */
  function WithoutKey(rs: seq<Record>, chatId: int, time: string): (out: seq<Record>)
    ensures |out| <= |rs|
    ensures forall r :: r in out <==> r in rs && !HasKey(r, chatId, time)
  {
    if rs == [] then []
    else
      var kept := WithoutKey(rs[..|rs| - 1], chatId, time);
      if HasKey(rs[|rs| - 1], chatId, time) then kept else kept + [rs[|rs| - 1]]
  }

  /**
   * The list `save_alarm_to_db` writes (bot.py:35-47): the old list without
   * the key, then the new record at the end.
   */
  function SaveAlarm(rs: seq<Record>, chatId: int, time: string, message: string, kind: string): (out: seq<Record>)
    ensures |out| > 0 && out[|out| - 1] == Record(chatId, time, Some(message), Some(kind))
    ensures forall i :: 0 <= i < |out| - 1 ==> !HasKey(out[i], chatId, time)
    ensures forall r :: r in out[..|out| - 1] <==> r in rs && !HasKey(r, chatId, time)
  {
    var out := WithoutKey(rs, chatId, time) + [Record(chatId, time, Some(message), Some(kind))];
    assert out[..|out| - 1] == WithoutKey(rs, chatId, time);
    out
  }

  /** The filter distributes over concatenation, so it keeps the relative order of what it keeps. */
  lemma {:induction false} WithoutKeyConcat(a: seq<Record>, b: seq<Record>, chatId: int, time: string)
    ensures WithoutKey(a + b, chatId, time) == WithoutKey(a, chatId, time) + WithoutKey(b, chatId, time)
  {
    if b == [] {
      assert a + b == a;
    } else {
      var b' := b[..|b| - 1];
      assert (a + b)[..|a + b| - 1] == a + b';
      WithoutKeyConcat(a, b', chatId, time);
    }
  }

  /** Removing an absent key leaves the list unchanged. */
  lemma {:induction false} WithoutAbsentKey(rs: seq<Record>, chatId: int, time: string)
    requires forall r :: r in rs ==> !HasKey(r, chatId, time)
    ensures WithoutKey(rs, chatId, time) == rs
  {
    if rs != [] {
      var init := rs[..|rs| - 1];
      assert forall r :: r in init ==> r in rs;
      WithoutAbsentKey(init, chatId, time);
      assert rs == init + [rs[|rs| - 1]];
    }
  }

  /** `remove_alarm_from_db` is idempotent. */
  lemma WithoutKeyIdempotent(rs: seq<Record>, chatId: int, time: string)
    ensures WithoutKey(WithoutKey(rs, chatId, time), chatId, time) == WithoutKey(rs, chatId, time)
  {
    WithoutAbsentKey(WithoutKey(rs, chatId, time), chatId, time);
  }

  lemma {:induction false} KeysUniqueSnoc(rs: seq<Record>, x: Record)
    ensures KeysUnique(rs + [x]) <==> KeysUnique(rs) && forall r :: r in rs ==> !HasKey(x, r.chatId, r.time)
  {
    var s := rs + [x];
    assert forall i :: 0 <= i < |rs| ==> s[i] == rs[i];
    if KeysUnique(s) {
      forall r | r in rs ensures !HasKey(x, r.chatId, r.time) {
        var i :| 0 <= i < |rs| && rs[i] == r;
        assert s[i] == r && s[|rs|] == x;
      }
    }
  }

  /** Dropping records never creates a duplicate key. */
  lemma {:induction false} WithoutKeyKeepsUnique(rs: seq<Record>, chatId: int, time: string)
    requires KeysUnique(rs)
    ensures KeysUnique(WithoutKey(rs, chatId, time))
  {
    if rs != [] {
      var init, x := rs[..|rs| - 1], rs[|rs| - 1];
      assert rs == init + [x];
      KeysUniqueSnoc(init, x);
      WithoutKeyKeepsUnique(init, chatId, time);
      KeysUniqueSnoc(WithoutKey(init, chatId, time), x);
    }
  }

  /** After a save, the saved key is held by exactly one record, the last; keys stay unique. */
  lemma SaveAlarmKeepsUnique(rs: seq<Record>, chatId: int, time: string, message: string, kind: string)
    requires KeysUnique(rs)
    ensures KeysUnique(SaveAlarm(rs, chatId, time, message, kind))
  {
    var kept := WithoutKey(rs, chatId, time);
    WithoutKeyKeepsUnique(rs, chatId, time);
    KeysUniqueSnoc(kept, Record(chatId, time, Some(message), Some(kind)));
  }

  /** Every record of another key keeps its place relative to the others. */
  lemma SaveAlarmKeepsOthers(rs: seq<Record>, chatId: int, time: string, message: string, kind: string,
                             chatId': int, time': string)
    requires chatId' != chatId || time' != time
    ensures WithoutKey(SaveAlarm(rs, chatId, time, message, kind), chatId, time)
            == WithoutKey(rs, chatId, time)
    ensures WithoutKey(SaveAlarm(rs, chatId, time, message, kind), chatId', time')
            == WithoutKey(WithoutKey(rs, chatId', time'), chatId, time) + [Record(chatId, time, Some(message), Some(kind))]
  {
    var x := Record(chatId, time, Some(message), Some(kind));
    var kept := WithoutKey(rs, chatId, time);
    WithoutKeyConcat(kept, [x], chatId, time);
    WithoutKeyIdempotent(rs, chatId, time);
    assert WithoutKey([x], chatId, time) == [];
    WithoutKeyConcat(kept, [x], chatId', time');
    assert WithoutKey([x], chatId', time') == [x];
    WithoutKeyCommute(rs, chatId, time, chatId', time');
  }

  lemma {:induction false} WithoutKeyCommute(rs: seq<Record>, c1: int, t1: string, c2: int, t2: string)
    ensures WithoutKey(WithoutKey(rs, c1, t1), c2, t2) == WithoutKey(WithoutKey(rs, c2, t2), c1, t1)
  {
    if rs != [] {
      var init, x := rs[..|rs| - 1], rs[|rs| - 1];
      WithoutKeyCommute(init, c1, t1, c2, t2);
      WithoutKeyConcat(WithoutKey(init, c1, t1), [x], c2, t2);
      WithoutKeyConcat(WithoutKey(init, c2, t2), [x], c1, t1);
    }
  }

  /** Saving the same alarm twice leaves the same list as saving it once. */
  lemma SaveAlarmIdempotent(rs: seq<Record>, chatId: int, time: string, message: string, kind: string)
    ensures SaveAlarm(SaveAlarm(rs, chatId, time, message, kind), chatId, time, message, kind)
            == SaveAlarm(rs, chatId, time, message, kind)
  {
    SaveAlarmKeepsOthers(rs, chatId, time, message, kind, chatId + 1, time);
  }
}
