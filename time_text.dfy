/**
 * The `HH:MM` argument: Python's `text.split(':')` and the unpacking
 * `hour, minute = map(int, ...)`, which succeeds only when there are exactly
 * two pieces and both are integers (bot.py:125, bot.py:242).
 */
module TimeText {
  import opened Wrappers
  import opened Decimal

  /** `s.split(sep)`: the pieces between separators, in order; never empty. */
  function Split(s: string, sep: char): (parts: seq<string>)
    ensures |parts| >= 1
    ensures forall k :: 0 <= k < |parts| ==> sep !in parts[k]
  {
    if s == [] then [""]
    else
      var rest := Split(s[1..], sep);
      if s[0] == sep then [""] + rest else [[s[0]] + rest[0]] + rest[1..]
  }

  /** Total length of the pieces. */
  function Lengths(parts: seq<string>): nat {
    if parts == [] then 0 else |parts[0]| + Lengths(parts[1..])
  }

  /**
   * `sep.join(parts)`: starts with the first piece and holds every piece
   * plus one separator between each two.
   */
  function Join(parts: seq<string>, sep: char): (s: string)
    ensures |parts| > 0 ==> parts[0] <= s
    ensures |s| == if parts == [] then 0 else Lengths(parts) + |parts| - 1
  {
    if |parts| == 0 then ""
    else if |parts| == 1 then parts[0]
    else parts[0] + [sep] + Join(parts[1..], sep)
  }

  lemma {:induction false} SplitPrefix(a: string, tail: string, sep: char)
    requires sep !in a
    ensures Split(a + tail, sep) == [a + Split(tail, sep)[0]] + Split(tail, sep)[1..]
  {
    var pieces := Split(tail, sep);
    if a == [] {
      assert a + tail == tail && a + pieces[0] == pieces[0];
      assert pieces == [pieces[0]] + pieces[1..];
    } else {
      assert (a + tail)[1..] == a[1..] + tail;
      SplitPrefix(a[1..], tail, sep);
      assert [a[0]] + (a[1..] + Split(tail, sep)[0]) == a + Split(tail, sep)[0];
    }
  }

  /** Joining the pieces of a split gives back the text. */
  lemma {:induction false} JoinSplit(s: string, sep: char)
    ensures Join(Split(s, sep), sep) == s
  {
    if s != [] {
      JoinSplit(s[1..], sep);
      var rest := Split(s[1..], sep);
      if s[0] == sep {
        assert ([""] + rest)[1..] == rest;
      } else if |rest| > 1 {
        var parts := Split(s, sep);
        assert parts[1..] == rest[1..];
      }
    }
  }

  /** Splitting a join of separator-free pieces gives back the pieces. */
  lemma {:induction false} SplitJoin(parts: seq<string>, sep: char)
    requires |parts| >= 1
    requires forall k :: 0 <= k < |parts| ==> sep !in parts[k]
    ensures Split(Join(parts, sep), sep) == parts
  {
    if |parts| == 1 {
      SplitPrefix(parts[0], "", sep);
      assert parts[0] + "" == parts[0];
    } else {
      var tail := Join(parts[1..], sep);
      assert Join(parts, sep) == parts[0] + ([sep] + tail);
      SplitJoin(parts[1..], sep);
      assert ([sep] + tail)[1..] == tail;
      assert Split([sep] + tail, sep) == [""] + parts[1..];
      SplitPrefix(parts[0], [sep] + tail, sep);
      assert parts[0] + "" == parts[0];
      assert parts == [parts[0]] + parts[1..];
    }
  }

  /**
   * The hour and minute of an `HH:MM` argument, or None where Python raises
   * ValueError. A parsed time is an integer text, one colon and another
   * integer text, and the result is those two integers.
   */
  function ParseTime(s: string): (r: Option<(int, int)>)
    ensures r.Some? ==> exists a, b :: s == a + [':'] + b && ParseInt(a) == Some(r.value.0)
                                                          && ParseInt(b) == Some(r.value.1)
  {
    var parts := Split(s, ':');
    if |parts| == 2 then
      match (ParseInt(parts[0]), ParseInt(parts[1]))
      case (Some(h), Some(m)) =>
        JoinSplit(s, ':');
        assert s == parts[0] + [':'] + parts[1];
        Some((h, m))
      case _ => None
    else None
  }

  /** Any integer text, a colon and another integer text parse as that hour and minute. */
  lemma ParseTimeComplete(a: string, b: string)
    requires ParseInt(a).Some? && ParseInt(b).Some?
    ensures ParseTime(a + [':'] + b) == Some((ParseInt(a).value, ParseInt(b).value))
  {
    assert forall k :: 0 <= k < |a| ==> a[k] != ':';
    assert forall k :: 0 <= k < |b| ==> b[k] != ':';
    assert Join([a, b], ':') == a + [':'] + b;
    SplitJoin([a, b], ':');
  }
}
