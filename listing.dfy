/**
 * `/list` (bot.py:185-200): the caller's records, sorted by their time
 * string with Python's stable sort, each shown with a label for its type.
 * The sort key is the raw string, so "7:00" comes after "10:00".
 */
module Listing {
  import opened Wrappers
  import opened AlarmStore

  /** Python's `<=` on str: code point by code point, a proper prefix first. */
  predicate LexLeq(a: string, b: string) {
    |a| == 0 || (|b| > 0 && (a[0] < b[0] || (a[0] == b[0] && LexLeq(a[1..], b[1..]))))
  }

  lemma {:induction false} LexLeqReflexive(a: string)
    ensures LexLeq(a, a)
  {
    if |a| > 0 { LexLeqReflexive(a[1..]); }
  }

  lemma {:induction false} LexLeqTotal(a: string, b: string)
    ensures LexLeq(a, b) || LexLeq(b, a)
  {
    if |a| > 0 && |b| > 0 && a[0] == b[0] { LexLeqTotal(a[1..], b[1..]); }
  }

  lemma {:induction false} LexLeqTransitive(a: string, b: string, c: string)
    requires LexLeq(a, b) && LexLeq(b, c)
    ensures LexLeq(a, c)
  {
    if |a| > 0 && a[0] == b[0] && b[0] == c[0] { LexLeqTransitive(a[1..], b[1..], c[1..]); }
  }

  lemma LexLeqAntisymmetric(a: string, b: string)
    requires LexLeq(a, b) && LexLeq(b, a)
    ensures a == b
    decreases |a|
  {
    if |a| > 0 {
      LexLeqAntisymmetric(a[1..], b[1..]);
      assert a == [a[0]] + a[1..] && b == [b[0]] + b[1..];
    }
  }

  /** The string order is not the clock order: "10:00" sorts before "7:00". */
  lemma StringOrderIsNotClockOrder()
    ensures LexLeq("10:00", "7:00") && !LexLeq("7:00", "10:00")
  {
  }

  predicate SortedByTime(rs: seq<Record>) {
    forall i, j :: 0 <= i < j < |rs| ==> LexLeq(rs[i].time, rs[j].time)
  }

  /** `[a for a in alarms if a['chat_id'] == chat_id]`. */
  function Mine(rs: seq<Record>, chatId: int): (out: seq<Record>)
    ensures forall r :: r in out <==> r in rs && r.chatId == chatId
  {
    if rs == [] then []
    else (if rs[0].chatId == chatId then [rs[0]] else []) + Mine(rs[1..], chatId)
  }

  /** The filter keeps each of the chat's records as often as it is stored, and no other record. */
  lemma {:induction false} MineCounts(rs: seq<Record>, chatId: int)
    ensures forall r :: multiset(Mine(rs, chatId))[r] == if r.chatId == chatId then multiset(rs)[r] else 0
  {
    if rs != [] {
      assert rs == [rs[0]] + rs[1..];
      MineCounts(rs[1..], chatId);
    }
  }

  /** The filter distributes over concatenation, so the kept records keep their stored order. */
  lemma {:induction false} MineConcat(a: seq<Record>, b: seq<Record>, chatId: int)
    ensures Mine(a + b, chatId) == Mine(a, chatId) + Mine(b, chatId)
  {
    if a == [] {
      assert a + b == b;
    } else {
      assert (a + b)[1..] == a[1..] + b;
      MineConcat(a[1..], b, chatId);
    }
  }

  /** The records with time string t, in order; stability is stated with it. */
  function WithTime(rs: seq<Record>, t: string): seq<Record> {
    if rs == [] then []
    else (if rs[0].time == t then [rs[0]] else []) + WithTime(rs[1..], t)
  }

  /** Puts x before the first record whose time is not below x's. */
  function Insert(x: Record, rs: seq<Record>): (out: seq<Record>)
    ensures multiset(out) == multiset(rs) + multiset{x}
  {
    if rs == [] then [x]
    else if LexLeq(x.time, rs[0].time) then [x] + rs
    else
      assert rs == [rs[0]] + rs[1..];
      [rs[0]] + Insert(x, rs[1..])
  }

  lemma {:induction false} InsertSorted(x: Record, rs: seq<Record>)
    requires SortedByTime(rs)
    ensures SortedByTime(Insert(x, rs))
  {
    if rs == [] {
    } else if LexLeq(x.time, rs[0].time) {
      forall j | 0 < j < |rs| ensures LexLeq(x.time, rs[j].time) {
        LexLeqTransitive(x.time, rs[0].time, rs[j].time);
      }
    } else {
      var tail := rs[1..];
      InsertSorted(x, tail);
      var ins := Insert(x, tail);
      forall k | 0 <= k < |ins| ensures LexLeq(rs[0].time, ins[k].time) {
        assert ins[k] in multiset(ins);
        if ins[k] == x {
          LexLeqTotal(x.time, rs[0].time);
        } else {
          assert ins[k] in multiset(tail);
          var j :| 0 <= j < |tail| && tail[j] == ins[k];
          assert rs[j + 1] == ins[k];
        }
      }
    }
  }

  /** `list.sort(key=time)`: insertion sort, which is stable like Python's. */
  function SortByTime(rs: seq<Record>): (out: seq<Record>)
    ensures multiset(out) == multiset(rs)
    ensures forall r :: r in out <==> r in rs
    ensures SortedByTime(out)
  {
    if rs == [] then []
    else
      assert rs == [rs[0]] + rs[1..];
      var sorted := SortByTime(rs[1..]);
      InsertSorted(rs[0], sorted);
      var out := Insert(rs[0], sorted);
      assert forall r :: r in out <==> r in multiset(out);
      assert forall r :: r in rs <==> r in multiset(rs);
      out
  }

  lemma WithTimeCons(y: Record, ys: seq<Record>, t: string)
    ensures WithTime([y] + ys, t) == (if y.time == t then [y] else []) + WithTime(ys, t)
  {
    assert ([y] + ys)[1..] == ys;
  }

  lemma {:induction false} InsertWithTime(x: Record, rs: seq<Record>, t: string)
    ensures WithTime(Insert(x, rs), t) == (if x.time == t then [x] else []) + WithTime(rs, t)
  {
    var xs := if x.time == t then [x] else [];
    if rs == [] {
      WithTimeCons(x, [], t);
      assert WithTime(Insert(x, rs), t) == xs + WithTime(rs, t);
    } else {
      WithTimeCons(rs[0], rs[1..], t);
      assert rs == [rs[0]] + rs[1..];
      if LexLeq(x.time, rs[0].time) {
        WithTimeCons(x, rs, t);
        assert WithTime(Insert(x, rs), t) == xs + WithTime(rs, t);
      } else {
        var ins := Insert(x, rs[1..]);
        assert Insert(x, rs) == [rs[0]] + ins;
        InsertWithTime(x, rs[1..], t);
        WithTimeCons(rs[0], ins, t);
        var w := WithTime(rs[1..], t);
        if x.time == t {
          LexLeqReflexive(x.time);
          assert rs[0].time != t;
          assert WithTime(rs, t) == [] + w == w;
          assert WithTime([rs[0]] + ins, t) == [] + WithTime(ins, t) == [x] + w;
        } else {
          assert WithTime(ins, t) == [] + w == w;
        }
      }
    }
  }

  /** Stability: records with equal time strings keep their stored order. */
  lemma {:induction false} SortStable(rs: seq<Record>, t: string)
    ensures WithTime(SortByTime(rs), t) == WithTime(rs, t)
  {
    if rs != [] {
      SortStable(rs[1..], t);
      InsertWithTime(rs[0], SortByTime(rs[1..]), t);
    }
  }

  /** A line of the reply; the emoji of the labels are left out. */
  datatype Entry = Entry(time: string, kindLabel: string, message: string)

  /** Nothing stored for the chat, the lines to send, or the KeyError of a record without a message. */
  datatype ListReply = NoAlarms | Entries(entries: seq<Entry>) | MissingMessage

  /** Labels by `a.get('type', 'daily')` (bot.py:195-198). */
  function Label(kind: Option<string>): (text: string)
    ensures kind == Some("workdays") <==> text == "Sen-Jum"
    ensures kind == Some("once") <==> text == "Sekali"
    ensures kind != Some("workdays") && kind != Some("once") <==> text == "Tiap Hari"
  {
    var k := kind.GetOr("daily");
    if k == "workdays" then "Sen-Jum" else if k == "once" then "Sekali" else "Tiap Hari"
  }

  function EntryOf(r: Record): Entry
    requires r.message.Some?
  {
    Entry(r.time, Label(r.kind), r.message.value)
  }

  function Render(rs: seq<Record>): (out: seq<Entry>)
    requires forall r :: r in rs ==> r.message.Some?
    ensures |out| == |rs|
    ensures forall i :: 0 <= i < |rs| ==> out[i] == EntryOf(rs[i])
  {
    if rs == [] then [] else [EntryOf(rs[0])] + Render(rs[1..])
  }

  /** The rendered lines of the sorted records are as many as the records, in time order. */
  lemma RenderSortedOrder(mine: seq<Record>)
    requires forall r :: r in mine ==> r.message.Some?
    ensures var out := Render(SortByTime(mine));
      && |out| == |mine|
      && (forall i, j :: 0 <= i < j < |out| ==> LexLeq(out[i].time, out[j].time))
  {
    var sorted := SortByTime(mine);
    assert |multiset(sorted)| == |multiset(mine)|;
  }

  /** The rendered lines of the sorted records are exactly the records' lines. */
  lemma RenderSortedMembers(mine: seq<Record>)
    requires forall r :: r in mine ==> r.message.Some?
    ensures var out := Render(SortByTime(mine));
      && (forall r :: r in mine ==> EntryOf(r) in out)
      && (forall e :: e in out ==> exists r :: r in mine && r.message.Some? && e == EntryOf(r))
  {
    var sorted := SortByTime(mine);
    var out := Render(sorted);
    forall r | r in mine ensures EntryOf(r) in out {
      var i :| 0 <= i < |sorted| && sorted[i] == r;
      assert out[i] == EntryOf(r);
    }
    forall e | e in out ensures exists r :: r in mine && r.message.Some? && e == EntryOf(r) {
      var i :| 0 <= i < |out| && out[i] == e;
      assert sorted[i] in mine;
    }
  }

  /** The reply of `/list` for chat `chatId` over the stored records `rs`. */
  function ListAlarms(rs: seq<Record>, chatId: int): (l: ListReply)
    ensures l.NoAlarms? <==> forall r :: r in rs ==> r.chatId != chatId
    ensures l.MissingMessage? <==> exists r :: r in rs && r.chatId == chatId && r.message.None?
    ensures l.Entries? ==> |l.entries| == |Mine(rs, chatId)|
    ensures l.Entries? ==> l.entries == Render(SortByTime(Mine(rs, chatId)))
    ensures l.Entries? ==> forall i, j :: 0 <= i < j < |l.entries| ==> LexLeq(l.entries[i].time, l.entries[j].time)
    ensures l.Entries? ==> forall r :: r in rs && r.chatId == chatId ==> r.message.Some? && EntryOf(r) in l.entries
    ensures l.Entries? ==> forall e :: e in l.entries ==> exists r :: r in rs && r.chatId == chatId && r.message.Some? && e == EntryOf(r)
  {
    var mine := Mine(rs, chatId);
    if mine == [] then
      NoAlarms
    else if exists r :: r in mine && r.message.None? then
      MissingMessage
    else
      RenderSortedOrder(mine);
      RenderSortedMembers(mine);
      Entries(Render(SortByTime(mine)))
  }
}
