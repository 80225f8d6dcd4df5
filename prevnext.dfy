/** Ranking a day's prayer times around a reference moment (src/jadwal.rs,
    `get_prev_next` and `sort_jadwal`): each time becomes a signed whole
    number of minutes from the reference time of day, and the times are
    split into those already past and those to come, each sorted. */
module PrevNext {
  import opened Base
  import opened Text
  import opened Calendar
  import opened Jadwal

  /** The tuple `(minutes, name, time)` the source sorts. */
  datatype Ranked = Ranked(offset: int, name: string, time: string)

  // ------------------------------------------------------------ offsets

  /** Integer division rounding toward zero, as Rust's `/` on `i64`. */
  function TruncDiv(a: int, b: int): (q: int)
    requires b > 0
    ensures a >= 0 ==> q * b <= a < q * b + b
    ensures a < 0 ==> q * b - b < a <= q * b
  {
    if a >= 0 then a / b else -((-a) / b)
  }

  /** `(event - now)` in nanoseconds, for an event on a whole second. */
  function DeltaNanos(eventSecs: int, now: Clock): int {
    (eventSecs - now.secs) * NanosPerSecond - now.nanos
  }

  /** `Duration::num_minutes`: whole seconds rounded toward zero, then whole
      minutes rounded toward zero, which is the same as rounding the
      nanoseconds to whole minutes toward zero in one step. */
  function NumMinutes(nanos: int): (r: int)
    ensures r == TruncDiv(nanos, 60 * NanosPerSecond)
  {
    TruncDiv(TruncDiv(nanos, NanosPerSecond), 60)
  }

  /** The minutes from `now` to the time `time` on the given day; `None`
      when `"<date> <time>"` does not parse as `%Y-%m-%d %H:%M`, which
      happens exactly when the time does not parse as `%H:%M`. */
  function Offset(time: string, date: Date, now: Clock): (r: Option<int>)
    requires ValidDate(date)
    ensures r.Some? <==> ParseHourMinute(time).Some?
  {
    ParseDateTimeOfDate(date, time);
    match ParseDateTime(FormatDate(date) + " " + time)
    case None => None
    case Some(parsed) => Some(NumMinutes(DeltaNanos(parsed.1, now)))
  }

  /** A duration counts as zero or more minutes exactly when it is less than
      a full minute in the past. */
  lemma NumMinutesSign(nanos: int)
    ensures NumMinutes(nanos) >= 0 <==> nanos > -60 * NanosPerSecond
  {
    var secs := TruncDiv(nanos, NanosPerSecond);
    assert secs > -60 <==> nanos > -60 * NanosPerSecond;
  }

  /** For every reference moment, with or without a fraction of a second,
      the offset is the time from the reference to the event rounded toward
      zero to whole minutes. */
  lemma OffsetFormula(time: string, date: Date, now: Clock)
    requires ValidDate(date) && Offset(time, date, now).Some?
    ensures Offset(time, date, now).value
            == TruncDiv(DeltaNanos(ParseHourMinute(time).value, now), 60 * NanosPerSecond)
  {
    ParseDateTimeOfDate(date, time);
  }

  /** Only the time of day matters: the date the times are attached to is
      parsed and then dropped. */
  lemma OffsetIgnoresDate(time: string, d1: Date, d2: Date, now: Clock)
    requires ValidDate(d1) && ValidDate(d2)
    ensures Offset(time, d1, now) == Offset(time, d2, now)
  {
    ParseDateTimeOfDate(d1, time);
    ParseDateTimeOfDate(d2, time);
  }

  /** An event is ranked as still to come (offset zero or more) until a full
      minute has passed since it: one that started 59 seconds ago has
      offset 0. */
  lemma OffsetSign(time: string, date: Date, now: Clock)
    requires ValidDate(date) && ValidClock(now) && Offset(time, date, now).Some?
    ensures Offset(time, date, now).value >= 0 <==> now.secs - ParseHourMinute(time).value < 60
    ensures 0 <= now.secs - ParseHourMinute(time).value < 60 ==> Offset(time, date, now).value == 0
  {
    ParseDateTimeOfDate(date, time);
    var t := ParseHourMinute(time).value;
    NumMinutesSign(DeltaNanos(t, now));
  }

  /** On a reference time with no fraction of a second, the offset is the
      difference in seconds divided by 60, rounded toward zero. */
  lemma OffsetWholeSeconds(time: string, date: Date, now: Clock)
    requires ValidDate(date) && now.nanos == 0 && Offset(time, date, now).Some?
    ensures Offset(time, date, now).value == TruncDiv(ParseHourMinute(time).value - now.secs, 60)
  {
    ParseDateTimeOfDate(date, time);
    var d := ParseHourMinute(time).value - now.secs;
    assert TruncDiv(d * NanosPerSecond, NanosPerSecond) == d;
  }

  // ------------------------------------------------------- tuple order

  /** Strict string order. */
  predicate StrLt(a: string, b: string) {
    StrLe(a, b) && a != b
  }

  /** `<=` on `(i64, String, String)`: by offset, then name, then time. It
      is reflexive, and the offset decides whenever the offsets differ. */
  predicate Le(a: Ranked, b: Ranked)
    ensures a.offset < b.offset ==> Le(a, b)
    ensures Le(a, b) ==> a.offset <= b.offset
    ensures a == b ==> Le(a, b)
  {
    StrLeRefl(a.time);
    a.offset < b.offset
    || (a.offset == b.offset && (StrLt(a.name, b.name) || (a.name == b.name && StrLe(a.time, b.time))))
  }

  lemma LeTotal(a: Ranked, b: Ranked)
    ensures Le(a, b) || Le(b, a)
  {
    StrLeTotal(a.name, b.name);
    StrLeTotal(a.time, b.time);
  }

  lemma LeTrans(a: Ranked, b: Ranked, c: Ranked)
    requires Le(a, b) && Le(b, c)
    ensures Le(a, c)
  {
    if a.offset == b.offset == c.offset {
      if a.name == b.name == c.name {
        StrLeTrans(a.time, b.time, c.time);
      } else {
        StrLeRefl(b.name);
        StrLeTrans(a.name, b.name, c.name);
        if a.name == c.name {
          StrLeAntisym(a.name, b.name);
        }
      }
    }
  }

  lemma LeAntisym(a: Ranked, b: Ranked)
    requires Le(a, b) && Le(b, a)
    ensures a == b
  {
    if a.name != b.name {
      StrLeAntisym(a.name, b.name);
    }
    StrLeAntisym(a.time, b.time);
  }

  predicate Sorted(s: seq<Ranked>) {
    forall i, j :: 0 <= i < j < |s| ==> Le(s[i], s[j])
  }

  /** Inserting into a sorted sequence. */
  function Insert(x: Ranked, s: seq<Ranked>): (r: seq<Ranked>)
    requires Sorted(s)
    ensures Sorted(r)
    ensures multiset(r) == multiset(s) + multiset{x}
  {
    if s == [] then [x]
    else if Le(x, s[0]) then
      assert forall j :: 0 <= j < |s| ==> Le(x, s[j]) by {
        forall j | 0 <= j < |s| ensures Le(x, s[j]) {
          if j > 0 { LeTrans(x, s[0], s[j]); }
        }
      }
      [x] + s
    else
      LeTotal(x, s[0]);
      var rest := Insert(x, s[1..]);
      assert s == [s[0]] + s[1..];
      assert forall y :: y in rest ==> Le(s[0], y) by {
        forall y | y in rest ensures Le(s[0], y) {
          assert y in multiset(rest);
          if y != x {
            assert y in multiset(s[1..]);
          }
        }
      }
      [s[0]] + rest
  }

  /** `Vec::sort` on the tuples: the sorted permutation. */
  function Sort(s: seq<Ranked>): (r: seq<Ranked>)
    ensures Sorted(r)
    ensures multiset(r) == multiset(s)
  {
    if s == [] then []
    else
      assert s == s[..|s| - 1] + [s[|s| - 1]];
      Insert(s[|s| - 1], Sort(s[..|s| - 1]))
  }

  lemma SortedHeadIsLeast(a: seq<Ranked>, x: Ranked)
    requires Sorted(a) && x in a
    ensures Le(a[0], x)
  {
    var j :| 0 <= j < |a| && a[j] == x;
    if j == 0 {
      LeTotal(x, x);
    }
  }

  /** A sorted permutation is unique: whatever algorithm sorts, the result
      is fixed by the multiset of tuples alone. */
  lemma {:induction false} SortedUnique(a: seq<Ranked>, b: seq<Ranked>)
    requires Sorted(a) && Sorted(b) && multiset(a) == multiset(b)
    ensures a == b
    decreases |a|
  {
    if a == [] {
      assert |multiset(b)| == 0;
    } else {
      assert a[0] in multiset(b);
      assert b != [];
      assert b[0] in multiset(a);
      SortedHeadIsLeast(a, b[0]);
      SortedHeadIsLeast(b, a[0]);
      LeAntisym(a[0], b[0]);
      var a', b' := a[1..], b[1..];
      assert a == [a[0]] + a';
      assert b == [b[0]] + b';
      assert multiset(a') == multiset(a) - multiset{a[0]};
      assert multiset(b') == multiset(b) - multiset{b[0]};
      SortedUnique(a', b');
    }
  }

  // ---------------------------------------------------------- the split

  function RankOf(item: Sholat, date: Date, now: Clock): Option<Ranked>
    requires ValidDate(date)
  {
    match Offset(item.date, date, now)
    case None => None
    case Some(k) => Some(Ranked(k, item.name, item.date))
  }

  /** The tuple of every item, in item order; `None` when some item's time
      does not parse. */
  function Ranks(items: seq<Sholat>, date: Date, now: Clock): (r: Option<seq<Ranked>>)
    requires ValidDate(date)
    ensures r.None? <==> exists i :: 0 <= i < |items| && RankOf(items[i], date, now).None?
    ensures r.Some? ==> |r.value| == |items|
    ensures r.Some? ==> forall i :: 0 <= i < |items| ==> Some(r.value[i]) == RankOf(items[i], date, now)
  {
    if items == [] then Some([])
    else
      var init := items[..|items| - 1];
      assert forall i :: 0 <= i < |init| ==> init[i] == items[i];
      match (Ranks(init, date, now), RankOf(items[|items| - 1], date, now))
      case (Some(rs), Some(x)) => Some(rs + [x])
      case _ => None
  }

  /** The tuples with a negative offset, in order. */
  function Past(rs: seq<Ranked>): (r: seq<Ranked>)
    ensures forall x :: x in r ==> x.offset < 0
  {
    if rs == [] then []
    else Past(rs[..|rs| - 1]) + (if rs[|rs| - 1].offset < 0 then [rs[|rs| - 1]] else [])
  }

  /** The tuples with an offset of zero or more, in order. */
  function Future(rs: seq<Ranked>): (r: seq<Ranked>)
    ensures forall x :: x in r ==> x.offset >= 0
  {
    if rs == [] then []
    else Future(rs[..|rs| - 1]) + (if rs[|rs| - 1].offset >= 0 then [rs[|rs| - 1]] else [])
  }

  /** Splitting loses and invents nothing. */
  lemma {:induction false} SplitPermutes(rs: seq<Ranked>)
    ensures multiset(Past(rs)) + multiset(Future(rs)) == multiset(rs)
  {
    if rs != [] {
      SplitPermutes(rs[..|rs| - 1]);
      assert rs == rs[..|rs| - 1] + [rs[|rs| - 1]];
    }
  }

  /** What `get_prev_next` and `sort_jadwal` compute, or `None` when they
      panic on a time that does not parse. */
  function PrevNext(items: seq<Sholat>, date: Date, now: Clock): (r: Option<(seq<Ranked>, seq<Ranked>)>)
    requires ValidDate(date)
    ensures r.None? <==> exists i :: 0 <= i < |items| && Offset(items[i].date, date, now).None?
    ensures r.Some? ==> IsRanking(r.value.0, r.value.1, Ranks(items, date, now).value)
  {
    match Ranks(items, date, now)
    case None => None
    case Some(rs) =>
      SplitIsRanking(rs);
      Some((Sort(Past(rs)), Sort(Future(rs))))
  }

  /** A correct answer for the tuples `rs`: past tuples and future tuples,
      each sorted, together a permutation of `rs`. */
  predicate IsRanking(prevs: seq<Ranked>, nexts: seq<Ranked>, rs: seq<Ranked>) {
    && Sorted(prevs) && Sorted(nexts)
    && (forall i :: 0 <= i < |prevs| ==> prevs[i].offset < 0)
    && (forall i :: 0 <= i < |nexts| ==> nexts[i].offset >= 0)
    && multiset(prevs) + multiset(nexts) == multiset(rs)
  }

  /** Sorting each side of the split gives a ranking. */
  lemma SplitIsRanking(rs: seq<Ranked>)
    ensures IsRanking(Sort(Past(rs)), Sort(Future(rs)), rs)
  {
    var p, n := Sort(Past(rs)), Sort(Future(rs));
    SplitPermutes(rs);
    forall i | 0 <= i < |p| ensures p[i].offset < 0 {
      assert p[i] in multiset(Past(rs));
    }
    forall i | 0 <= i < |n| ensures n[i].offset >= 0 {
      assert n[i] in multiset(Future(rs));
    }
  }

  /** The answer is a ranking, and the only one: any pair of sequences that
      is sorted, split at zero and a permutation of the tuples is it. */
  lemma PrevNextIsTheRanking(items: seq<Sholat>, date: Date, now: Clock, prevs: seq<Ranked>, nexts: seq<Ranked>)
    requires ValidDate(date) && Ranks(items, date, now).Some?
    ensures PrevNext(items, date, now) == Some((prevs, nexts)) <==> IsRanking(prevs, nexts, Ranks(items, date, now).value)
  {
    var rs := Ranks(items, date, now).value;
    SplitIsRanking(rs);
    if IsRanking(prevs, nexts, rs) {
      RankingUnique(prevs, nexts, Sort(Past(rs)), Sort(Future(rs)), rs);
    }
  }

  /** Two rankings of the same tuples are equal. */
  lemma RankingUnique(p1: seq<Ranked>, n1: seq<Ranked>, p2: seq<Ranked>, n2: seq<Ranked>, rs: seq<Ranked>)
    requires IsRanking(p1, n1, rs) && IsRanking(p2, n2, rs)
    ensures p1 == p2 && n1 == n2
  {
    forall x ensures multiset(p1)[x] == multiset(p2)[x] && multiset(n1)[x] == multiset(n2)[x] {
      assert (multiset(p1) + multiset(n1))[x] == multiset(p1)[x] + multiset(n1)[x];
      assert (multiset(p2) + multiset(n2))[x] == multiset(p2)[x] + multiset(n2)[x];
      if x.offset < 0 {
        assert x !in multiset(n1) && x !in multiset(n2);
      } else {
        assert x !in multiset(p1) && x !in multiset(p2);
      }
    }
    assert multiset(p1) == multiset(p2);
    assert multiset(n1) == multiset(n2);
    SortedUnique(p1, p2);
    SortedUnique(n1, n2);
  }

  /** The order of the items does not matter: two item lists whose tuples
      are the same up to order give the same answer. */
  lemma PrevNextOrderFree(items1: seq<Sholat>, items2: seq<Sholat>, date: Date, now: Clock)
    requires ValidDate(date) && Ranks(items1, date, now).Some? && Ranks(items2, date, now).Some?
    requires multiset(Ranks(items1, date, now).value) == multiset(Ranks(items2, date, now).value)
    ensures PrevNext(items1, date, now) == PrevNext(items2, date, now)
  {
    var answer := PrevNext(items1, date, now).value;
    PrevNextIsTheRanking(items1, date, now, answer.0, answer.1);
    PrevNextIsTheRanking(items2, date, now, answer.0, answer.1);
  }

  /** The last past tuple is the most recent past event and the first future
      tuple the soonest upcoming one. */
  lemma Nearest(prevs: seq<Ranked>, nexts: seq<Ranked>, rs: seq<Ranked>)
    requires IsRanking(prevs, nexts, rs)
    ensures prevs != [] ==> forall x :: x in rs && x.offset < 0 ==> x.offset <= prevs[|prevs| - 1].offset
    ensures nexts != [] ==> forall x :: x in rs && x.offset >= 0 ==> nexts[0].offset <= x.offset
    ensures prevs == [] <==> forall x :: x in rs ==> x.offset >= 0
    ensures nexts == [] <==> forall x :: x in rs ==> x.offset < 0
  {
    forall x | x in rs
      ensures x.offset < 0 ==> x in prevs
      ensures x.offset >= 0 ==> x in nexts
    {
      assert x in multiset(rs);
    }
    forall x | x in prevs ensures x in rs {
      assert x in multiset(prevs);
      assert x in multiset(rs);
    }
    forall x | x in nexts ensures x in rs {
      assert x in multiset(nexts);
      assert x in multiset(rs);
    }
  }

  /** Every item lands in exactly one of the two lists. */
  lemma PrevNextCounts(items: seq<Sholat>, date: Date, now: Clock)
    requires ValidDate(date) && PrevNext(items, date, now).Some?
    ensures |PrevNext(items, date, now).value.0| + |PrevNext(items, date, now).value.1| == |items|
  {
    var rs := Ranks(items, date, now).value;
    SplitIsRanking(rs);
    var answer := PrevNext(items, date, now).value;
    assert |multiset(answer.0) + multiset(answer.1)| == |multiset(rs)|;
  }

  // ---------------------------------------------------------- the methods

  /** The time that could not be parsed panics `get_prev_next`. */
  const ParsePanic := "Can parse time"

  /** `get_prev_next`: `now` stands for `Local::now()`. */
  method GetPrevNext(items: seq<Sholat>, date: Date, now: Clock) returns (r: Outcome<(seq<Ranked>, seq<Ranked>)>)
    requires ValidDate(date)
    ensures PrevNext(items, date, now).None? ==> r == Panic(ParsePanic)
    ensures PrevNext(items, date, now).Some? ==> r == Done(PrevNext(items, date, now).value)
  {
    var prevs: seq<Ranked> := [];
    var nexts: seq<Ranked> := [];
    for i := 0 to |items|
      invariant Ranks(items[..i], date, now).Some?
      invariant prevs == Past(Ranks(items[..i], date, now).value)
      invariant nexts == Future(Ranks(items[..i], date, now).value)
    {
      var item := items[i];
      assert items[..i + 1][..i] == items[..i];
      assert items[..i + 1][i] == item;
      var diff := Offset(item.date, date, now);
      if diff.None? {
        assert RankOf(items[i], date, now).None?;
        return Panic(ParsePanic);
      }
      if diff.value >= 0 {
        nexts := nexts + [Ranked(diff.value, item.name, item.date)];
      } else {
        prevs := prevs + [Ranked(diff.value, item.name, item.date)];
      }
    }
    assert items[..|items|] == items;
    nexts := Sort(nexts);
    prevs := Sort(prevs);
    r := Done((prevs, nexts));
  }

  /** The result of `sort_jadwal`. */
  datatype SortJadwalResult = SortJadwalResult(prevs: seq<Ranked>, nexts: seq<Ranked>)

  /** `sort_jadwal`: the same computation as `get_prev_next`, on a borrowed
      list and into a named result. */
  method SortJadwal(items: seq<Sholat>, date: Date, now: Clock) returns (r: Outcome<SortJadwalResult>)
    requires ValidDate(date)
    ensures PrevNext(items, date, now).None? ==> r == Panic(ParsePanic)
    ensures PrevNext(items, date, now).Some? ==>
      r == Done(SortJadwalResult(PrevNext(items, date, now).value.0, PrevNext(items, date, now).value.1))
  {
    var pair := GetPrevNext(items, date, now);
    if pair.Done? {
      r := Done(SortJadwalResult(pair.value.0, pair.value.1));
    } else {
      r := Panic(pair.message);
    }
  }
}
