/**
 * The monitoring collector: it buffers the utility reports of each agent in order of their time, and writes
 * a full buffer to the file as a step function sampled at least every 100 ms.
 */
module Collector {
  import opened Wrappers

  /** An entry of a buffer, or a line of the file: the time it stands for, and its text. */
  datatype Line = Line(time: int, text: string)

  const STEP := 100
  const MESSAGE_LIMIT := 100

  predicate HasData(text: string) {
    ';' in text
  }

  function IndexOf(text: string): (i: nat)
    requires HasData(text)
    ensures i < |text| && text[i] == ';' && ';' !in text[..i]
  {
    if text[0] == ';' then 0 else IndexOf(text[1..]) + 1
  }

  /** The text from the first semicolon on. */
  function Data(text: string): string
    requires HasData(text)
  {
    text[IndexOf(text)..]
  }

  function Digits(n: nat): string {
    (if n >= 10 then Digits(n / 10) else "") + ["0123456789"[n % 10]]
  }

  function Decimal(n: int): string {
    if n >= 0 then Digits(n) else "-" + Digits(-n)
  }

  /** A line that repeats the data of an earlier entry at a later time. */
  function Filler(entry: Line, time: int): (r: Line)
    requires HasData(entry.text)
    ensures r.time == time
  {
    Line(time, Decimal(time) + Data(entry.text))
  }

  /** The number that a text of digits stands for. */
  function Number(text: string): nat {
    if text == "" then 0 else 10 * Number(text[..|text| - 1]) + (text[|text| - 1] as int - '0' as int) % 10
  }

  /** The digits stand for the number, with no zero in front. */
  lemma {:induction false} DigitsRead(n: nat)
    ensures Number(Digits(n)) == n && Digits(n) != ""
    ensures forall i :: 0 <= i < |Digits(n)| ==> '0' <= Digits(n)[i] <= '9'
    ensures n > 0 ==> Digits(n)[0] != '0'
    ensures n == 0 ==> Digits(n) == "0"
  {
    var front := if n >= 10 then Digits(n / 10) else "";
    NumberNext(front, n % 10);
    assert Digits(n) == front + ["0123456789"[n % 10]];
    hide *;
    if n >= 10 { DigitsRead(n / 10); } else { NumberNone(); }
  }

  lemma NumberNone()
    ensures Number("") == 0
  {
  }

  /** One more digit. */
  lemma NumberNext(front: string, k: nat)
    requires k < 10
    ensures "0123456789"[k] as int == '0' as int + k
    ensures Number(front + ["0123456789"[k]]) == 10 * Number(front) + k
  {
    assert (front + ["0123456789"[k]])[..|front|] == front;
  }

  /** What a filler says: the time it stands for, and the entry's text from its first semicolon on. */
  lemma FillerText(entry: Line, time: int)
    requires HasData(entry.text)
    ensures exists k :: 0 <= k < |entry.text| && entry.text[k] == ';' && ';' !in entry.text[..k]
              && Filler(entry, time).text == (if time < 0 then "-" else "")
                 + Digits(if time < 0 then -time else time) + entry.text[k..]
    ensures Number(Digits(if time < 0 then -time else time)) == if time < 0 then -time else time
  {
    DigitsRead(if time < 0 then -time else time);
    var k := IndexOf(entry.text);
    assert Filler(entry, time).text == Decimal(time) + entry.text[k..];
    assert "" + Digits(if time < 0 then -time else time) == Digits(if time < 0 then -time else time);
  }

  /** The fillers after `t` and before `end`. */
  function Fillers(entry: Line, t: int, end: int): (r: seq<Line>)
    requires HasData(entry.text)
    decreases end - t
  {
    if t + STEP < end then [Filler(entry, t + STEP)] + Fillers(entry, t + STEP, end) else []
  }

  ghost predicate Sorted(entries: seq<Line>) {
    forall i, j :: 0 <= i < j < |entries| ==> entries[i].time < entries[j].time
  }

  predicate AllData(entries: seq<Line>) {
    forall i :: 0 <= i < |entries| ==> HasData(entries[i].text)
  }

  /** What the first loop of `writeUtilitiesToFile` writes. */
  function Rows(entries: seq<Line>): (r: seq<Line>)
    requires AllData(entries)
    ensures |r| >= |entries|
  {
    if entries == [] then []
    else
      var n := |entries| - 1;
      Rows(entries[..n]) + Between(entries[..n], entries[n].time) + [entries[n]]
  }

  /** The fillers after the last entry, none if its time is 0. */
  function Between(entries: seq<Line>, end: int): seq<Line>
    requires AllData(entries)
  {
    if entries == [] || entries[|entries| - 1].time == 0 then []
    else Fillers(entries[|entries| - 1], entries[|entries| - 1].time, end)
  }

  /** What `writeUtilitiesToFile` writes; nothing follows an empty buffer. */
  function Written(entries: seq<Line>, maxRuntime: Option<int>): seq<Line>
    requires AllData(entries)
  {
    Rows(entries) +
    if entries == [] || maxRuntime.None? then []
    else Fillers(entries[|entries| - 1], entries[|entries| - 1].time, maxRuntime.value + 1)
  }

  /** `writeUtilitiesToFile`, up to the clearing of the buffer. */
  method WriteUtilities(entries: seq<Line>, maxRuntime: Option<int>) returns (written: seq<Line>)
    requires AllData(entries) && Sorted(entries)
    ensures written == Written(entries, maxRuntime)
  {
    hide Rows, Fillers, Decimal, Data, HasData;
    written := [];
    var lastTimepoint, lastEntry := 0, "";
    RowsStart();
    for i := 0 to |entries|
      invariant written == Rows(entries[..i])
      invariant lastTimepoint == (if i == 0 then 0 else entries[i - 1].time)
      invariant i > 0 ==> lastEntry == entries[i - 1].text
    {
      var timepoint := entries[i].time;
      RowsNext(entries, i);
      assert i > 0 ==> Line(lastTimepoint, lastEntry) == entries[i - 1] == entries[..i][i - 1];
      if lastTimepoint != 0 { written := Fill(written, lastTimepoint, lastEntry, timepoint); }
      lastTimepoint, lastEntry := timepoint, entries[i].text;
      written := written + [entries[i]];
    }
    assert entries[..|entries|] == entries;
    assert entries != [] ==> Line(lastTimepoint, lastEntry) == entries[|entries| - 1];
    if entries != [] && maxRuntime.Some? && lastTimepoint < maxRuntime.value {
      written := Fill(written, lastTimepoint, lastEntry, maxRuntime.value + 1);
    } else if entries != [] && maxRuntime.Some? {
      FillersNext(written, entries[|entries| - 1], lastTimepoint, maxRuntime.value + 1);
    }
    assert written + [] == written;
  }

  lemma RowsStart()
    ensures Rows([]) == []
  {
  }

  lemma RowsNext(entries: seq<Line>, i: nat)
    requires AllData(entries) && i < |entries|
    ensures Rows(entries[..i + 1]) == Rows(entries[..i]) + Between(entries[..i], entries[i].time) + [entries[i]]
  {
    assert entries[..i + 1][..i] == entries[..i];
  }

  /** The inner loops, which differ in their bound only. */
  method Fill(before: seq<Line>, start: int, lastEntry: string, end: int) returns (written: seq<Line>)
    requires HasData(lastEntry)
    ensures written == before + Fillers(Line(start, lastEntry), start, end)
  {
    hide Fillers, Decimal, Data, HasData;
    written := before;
    var lastTimepoint := start;
    ghost var last := Line(start, lastEntry);
    while lastTimepoint < end
      invariant written + Fillers(last, lastTimepoint, end) == before + Fillers(last, start, end)
      decreases end - lastTimepoint
    {
      var data := Data(lastEntry);
      FillersNext(written, last, lastTimepoint, end);
      lastTimepoint := lastTimepoint + STEP;
      if lastTimepoint < end { written := written + [Line(lastTimepoint, Decimal(lastTimepoint) + data)]; }
    }
    FillersNext(written, last, lastTimepoint, end);
    assert written + [] == written;
  }

  lemma FillersNext(written: seq<Line>, last: Line, t: int, end: int)
    requires HasData(last.text)
    ensures t + STEP >= end ==> Fillers(last, t, end) == []
    ensures t < end && t + STEP >= end ==> Fillers(last, t, end) == Fillers(last, t + STEP, end)
    ensures t + STEP < end ==>
              written + Fillers(last, t, end) == written + [Line(t + STEP, Decimal(t + STEP) + Data(last.text))] +
                  Fillers(last, t + STEP, end)
  {
  }

  /** Times rise, by at most 100 a line. */
  ghost predicate Sampled(lines: seq<Line>) {
    forall i, j :: 0 <= i < j < |lines| && j == i + 1 ==> lines[i].time < lines[j].time <= lines[i].time + 100
  }

  ghost predicate Rising(lines: seq<Line>) {
    forall i, j :: 0 <= i < j < |lines| ==> lines[i].time < lines[j].time
  }

  /** The lines hold the entries, at the given positions and in order. */
  ghost predicate Holds(lines: seq<Line>, entries: seq<Line>, at: seq<nat>) {
    && |at| == |entries|
    && (forall i :: 0 <= i < |at| ==> at[i] < |lines| && lines[at[i]] == entries[i])
    && (forall i, j :: 0 <= i < j < |at| ==> at[i] < at[j])
    && (|at| > 0 ==> at[0] == 0)
  }

  /** Up to where the lines belong to an entry. */
  function Until(at: seq<nat>, i: nat, end: nat): nat {
    if i + 1 < |at| then at[i + 1] else end
  }

  /** Every other line repeats, at its own time, the data of the last entry before it. */
  ghost predicate Repeats(lines: seq<Line>, entries: seq<Line>, at: seq<nat>)
    requires Holds(lines, entries, at) && AllData(entries)
  {
    forall i, k :: 0 <= i < |at| && at[i] < k < |lines| && k < Until(at, i, |lines|) ==>
      lines[k] == Filler(entries[i], lines[k].time)
  }

  lemma {:induction false} FillersSampled(entry: Line, t: int, end: int)
    requires HasData(entry.text) && t < end
    ensures var f := Fillers(entry, t, end);
      && (forall i :: 0 <= i < |f| ==> f[i] == Filler(entry, t + STEP * (i + 1)) && f[i].time < end)
      && end <= t + STEP * (|f| + 1)
    decreases end - t
  {
    hide Filler, HasData;
    if t + STEP < end {
      FillersSampled(entry, t + STEP, end);
      var f, g := Fillers(entry, t, end), Fillers(entry, t + STEP, end);
      forall i | 0 <= i < |f|
        ensures f[i] == Filler(entry, t + STEP * (i + 1)) && f[i].time < end
      {
        if i > 0 { assert f[i] == g[i - 1]; }
      }
    }
  }

  lemma SampledJoin(a: seq<Line>, b: seq<Line>)
    requires |a| > 0 && |b| > 0
    ensures Sampled(a + b) <==> Sampled(a) && Sampled(b) && a[|a| - 1].time < b[0].time <= a[|a| - 1].time + STEP
    ensures Rising(a + b) <==> Rising(a) && Rising(b) && a[|a| - 1].time < b[0].time
  {
    var w := a + b;
    assert forall i :: 0 <= i < |a| ==> a[i] == w[i];
    assert forall i :: 0 <= i < |b| ==> b[i] == w[|a| + i];
    assert w[|a|] == b[0];
  }

  /** Fillers keep the sampling, and leave no gap before their end. */
  lemma FillAfter(lines: seq<Line>, entry: Line, end: int)
    requires |lines| > 0 && lines[|lines| - 1] == entry && HasData(entry.text) && entry.time < end
    ensures var w := lines + Fillers(entry, entry.time, end);
      && (Rising(lines) ==> Rising(w)) && (Sampled(lines) <==> Sampled(w))
      && w[|w| - 1].time < end <= w[|w| - 1].time + STEP
      && forall k :: |lines| <= k < |w| ==> w[k] == Filler(entry, w[k].time)
  {
    hide Filler, HasData, Fillers;
    var f := Fillers(entry, entry.time, end);
    FillersSampled(entry, entry.time, end);
    if f == [] {
      assert lines + f == lines;
    } else {
      SampledJoin(lines, f);
    }
  }

  /** No entry at time 0, after which nothing is filled in, is more than 100 before the next. */
  ghost predicate Dense(entries: seq<Line>) {
    forall i, j :: 0 <= i < j < |entries| && j == i + 1 ==> entries[i].time != 0 || entries[j].time <= 100
  }

  /** Where the entries stand in the file. */
  function Positions(entries: seq<Line>): seq<nat>
    requires AllData(entries)
  {
    if entries == [] then []
    else
      var n := |entries| - 1;
      Positions(entries[..n]) + [|Rows(entries)| - 1]
  }

  lemma RowsLast(front: seq<Line>, e: Line)
    requires AllData(front) && AllData(front + [e])
    ensures Rows(front + [e]) == Rows(front) + Between(front, e.time) + [e]
  {
    hide HasData, Between;
    assert (front + [e])[..|front|] == front;
  }

  lemma PositionsNext(front: seq<Line>, e: Line)
    requires AllData(front) && AllData(front + [e])
    ensures Positions(front + [e]) == Positions(front) + [|Rows(front + [e])| - 1]
  {
    hide Rows, HasData;
    assert (front + [e])[..|front|] == front;
  }

  lemma DenseLast(front: seq<Line>, e: Line)
    ensures Dense(front + [e]) <==> Dense(front) && (front != [] ==> front[|front| - 1].time != 0 || e.time <= STEP)
  {
    var entries := front + [e];
    assert entries[|front|] == e;
    assert forall i :: 0 <= i < |front| ==> front[i] == entries[i];
  }

  /** The rows of these entries rise, have gaps over 100 only after an entry at time 0, and end with the last entry. */
  ghost predicate Regular(lines: seq<Line>, entries: seq<Line>) {
    && Rising(lines) && (Sampled(lines) <==> Dense(entries))
    && (entries == [] <==> lines == []) && (entries != [] ==> lines[|lines| - 1] == entries[|entries| - 1])
  }

  lemma {:induction false} RowsSampled(entries: seq<Line>)
    requires AllData(entries) && Sorted(entries)
    ensures Regular(Rows(entries), entries)
  {
    if entries == [] {
      SampledNone();
    } else {
      hide *;
      var front, e := entries[..|entries| - 1], entries[|entries| - 1];
      assert entries == front + [e];
      Front(front, e);
      RowsLast(front, e);
      RowsSampled(front);
      RegularNext(front, e, Rows(front));
    }
  }

  /** A buffer with an entry at time 0, after which nothing is filled in. */
  lemma GapAfterZero()
    ensures var entries := [Line(0, "0;x"), Line(200, "200;y")];
      AllData(entries) && Sorted(entries) && !Sampled(Rows(entries))
  {
    var entries := [Line(0, "0;x"), Line(200, "200;y")];
    RowsSampled(entries);
  }

  lemma SampledNone()
    ensures Regular(Rows([]), [])
  {
  }

  lemma RegularNext(front: seq<Line>, e: Line, lines: seq<Line>)
    requires AllData(front) && Regular(lines, front)
      && (front != [] ==> front[|front| - 1].time < e.time && HasData(front[|front| - 1].text))
    ensures Regular(lines + Between(front, e.time) + [e], front + [e])
  {
    hide Rising, Sampled, Dense, HasData, Between, AllData;
    DenseLast(front, e);
    SampledOne(e);
    if front != [] {
      BetweenLast(front, e.time);
      RowAfter(lines, front[|front| - 1], Between(front, e.time), e);
    } else {
      BetweenNone(e.time);
      assert lines + [] + [e] == [e];
    }
  }

  lemma BetweenNone(end: int)
    ensures Between([], end) == []
  {
  }

  lemma RowAfter(lines: seq<Line>, last: Line, mid: seq<Line>, e: Line)
    requires |lines| > 0 && lines[|lines| - 1] == last && HasData(last.text) && last.time < e.time && Rising(lines)
    requires mid == if last.time == 0 then [] else Fillers(last, last.time, e.time)
    ensures Rising(lines + mid + [e])
    ensures Sampled(lines + mid + [e]) <==> Sampled(lines) && (last.time != 0 || e.time <= STEP)
  {
    hide Rising, Sampled, HasData, Fillers;
    if last.time != 0 { FillAfter(lines, last, e.time); } else { assert lines + mid == lines; }
    SampledOne(e);
    SampledJoin(lines + mid, [e]);
  }

  lemma SampledOne(e: Line)
    ensures Rising([e]) && Sampled([e]) && Dense([]) && Rows([]) == []
  {
  }

  /** The rows hold the entries in order, and repeat them in between. */
  lemma {:induction false} RowsHold(entries: seq<Line>)
    requires AllData(entries) && Sorted(entries)
    ensures Holds(Rows(entries), entries, Positions(entries)) && Repeats(Rows(entries), entries, Positions(entries))
  {
    hide *;
    if entries == [] {
      NothingHeld();
    } else {
      var front, e := entries[..|entries| - 1], entries[|entries| - 1];
      assert entries == front + [e];
      Front(front, e);
      RowsHold(front);
      RowsHoldNext(front, e, entries);
    }
  }

  lemma NothingHeld()
    ensures Holds(Rows([]), [], Positions([])) && Repeats(Rows([]), [], Positions([]))
  {
  }

  lemma RowsHoldNext(front: seq<Line>, e: Line, entries: seq<Line>)
    requires entries == front + [e] && AllData(entries) && AllData(front) && Sorted(entries) && Sorted(front)
    requires Holds(Rows(front), front, Positions(front)) && Repeats(Rows(front), front, Positions(front))
    ensures Holds(Rows(entries), entries, Positions(entries)) && Repeats(Rows(entries), entries, Positions(entries))
  {
    hide *;
    RowsExtend(front, e, entries);
    HoldsNext(Rows(front), front, Positions(front), Between(front, e.time), e, Rows(entries), entries,
        Positions(entries));
  }

  ghost predicate Extends(lines: seq<Line>, entries: seq<Line>, at: seq<nat>, mid: seq<Line>, e: Line, w: seq<Line>,
      all: seq<Line>, more: seq<nat>) {
    && w == lines + mid + [e] && all == entries + [e] && more == at + [|w| - 1]
    && AllData(all) && AllData(entries) && RepeatsLast(mid, entries)
    && (entries == [] ==> lines == [] && mid == [])
    && (entries != [] ==> |at| == |entries| && at[|at| - 1] == |lines| - 1)
  }

  lemma RowsExtend(front: seq<Line>, e: Line, entries: seq<Line>)
    requires entries == front + [e] && AllData(entries) && AllData(front) && Sorted(entries) && Sorted(front)
    ensures Extends(Rows(front), front, Positions(front), Between(front, e.time), e, Rows(entries), entries,
      Positions(entries))
  {
    hide Rows, Positions, Between, Sorted, AllData, RepeatsLast, Rising, Sampled, Dense;
    Front(front, e);
    RowsLast(front, e);
    PositionsNext(front, e);
    RowsSampled(front);
    PositionsLast(front);
    BetweenFill(front, e.time);
  }

  lemma Front(front: seq<Line>, e: Line)
    requires AllData(front + [e]) && Sorted(front + [e])
    ensures AllData(front) && Sorted(front)
      && (front != [] ==> front[|front| - 1].time < e.time && HasData(front[|front| - 1].text))
  {
    hide HasData;
    var entries := front + [e];
    assert entries[|front|] == e && forall i :: 0 <= i < |front| ==> front[i] == entries[i];
  }

  lemma BetweenLast(entries: seq<Line>, end: int)
    requires AllData(entries) && entries != []
    ensures var last := entries[|entries| - 1]; Between(entries, end) == if last.time == 0 then []
      else Fillers(last, last.time, end)
  {
  }

  ghost predicate RepeatsLast(mid: seq<Line>, entries: seq<Line>)
    requires AllData(entries)
  {
    (entries == [] ==> mid == []) && forall k :: 0 <= k < |mid| ==>
        entries != [] && mid[k] == Filler(entries[|entries| - 1], mid[k].time)
  }

  lemma BetweenFill(entries: seq<Line>, end: int)
    requires AllData(entries) && (entries != [] ==> entries[|entries| - 1].time < end)
    ensures RepeatsLast(Between(entries, end), entries) && (entries == [] ==> Between(entries, end) == [])
  {
    hide Filler, Fillers, HasData;
    if entries != [] { FillersSampled(entries[|entries| - 1], entries[|entries| - 1].time, end); }
  }

  lemma {:induction false} PositionsLast(entries: seq<Line>)
    requires AllData(entries) && Sorted(entries)
    ensures |Positions(entries)| == |entries|
      && (entries != [] ==> Positions(entries)[|entries| - 1] == |Rows(entries)| - 1)
  {
    if entries != [] {
      hide Rows, Positions, AllData;
      var front, e := entries[..|entries| - 1], entries[|entries| - 1];
      assert entries == front + [e];
      Front(front, e);
      PositionsLast(front);
      PositionsNext(front, e);
    }
  }

  lemma HoldsMore(lines: seq<Line>, entries: seq<Line>, at: seq<nat>, mid: seq<Line>, e: Line, w: seq<Line>,
      all: seq<Line>, more: seq<nat>)
    requires Extends(lines, entries, at, mid, e, w, all, more) && Holds(lines, entries, at)
    ensures Holds(w, all, more)
  {
    hide HasData, Filler, RepeatsLast, AllData;
    forall i | 0 <= i < |more|
      ensures more[i] < |w| && w[more[i]] == all[i] && (i < |at| ==> more[i] < |lines|)
    {
      if i < |at| { assert more[i] == at[i] && w[at[i]] == lines[at[i]]; }
    }
  }

  lemma HoldsNext(lines: seq<Line>, entries: seq<Line>, at: seq<nat>, mid: seq<Line>, e: Line, w: seq<Line>,
      all: seq<Line>, more: seq<nat>)
    requires Extends(lines, entries, at, mid, e, w, all, more) && Holds(lines, entries, at)
      && Repeats(lines, entries, at)
    ensures Holds(w, all, more) && Repeats(w, all, more)
  {
    hide HasData, Filler, Until;
    HoldsMore(lines, entries, at, mid, e, w, all, more);
    forall i, k | 0 <= i < |more| && more[i] < k < |w| && k < Until(more, i, |w|)
      ensures w[k] == Filler(all[i], w[k].time)
    {
      UntilMore(lines, entries, at, more, w, i);
      if k < |lines| { assert w[k] == lines[k]; } else { assert w[k] == mid[k - |lines|] && i + 1 == |at|; }
    }
  }

  lemma UntilMore(lines: seq<Line>, entries: seq<Line>, at: seq<nat>, more: seq<nat>, w: seq<Line>, i: nat)
    requires |at| == |entries| && |w| > 0 && more == at + [|w| - 1] && i < |more|
    ensures i < |at| ==> more[i] == at[i]
    ensures Until(more, i, |w|) == if i + 1 < |at| then Until(at, i, |lines|) else if i + 1 == |at| then |w| - 1
      else |w|
    ensures i + 1 == |at| ==> Until(at, i, |lines|) == |lines|
    ensures i + 1 < |at| ==> Until(at, i, |lines|) == at[i + 1]
  {
  }

  lemma TailNext(lines: seq<Line>, entries: seq<Line>, at: seq<nat>, tail: seq<Line>, w: seq<Line>)
    requires w == lines + tail && AllData(entries) && entries != [] && |at| == |entries| && at[|at| - 1] == |lines| - 1
    requires Holds(lines, entries, at) && Repeats(lines, entries, at) && RepeatsLast(tail, entries)
    ensures Holds(w, entries, at) && Repeats(w, entries, at)
  {
    hide HasData, Filler, Until;
    forall i, k | 0 <= i < |at| && at[i] < k < |w| && k < Until(at, i, |w|)
      ensures w[k] == Filler(entries[i], w[k].time)
    {
      UntilTail(at, i, |lines|, |w|);
      if k < |lines| { assert w[k] == lines[k]; } else { assert w[k] == tail[k - |lines|] && i + 1 == |at|; }
    }
  }

  lemma UntilTail(at: seq<nat>, i: nat, m: nat, n: nat)
    ensures Until(at, i, n) == if i + 1 < |at| then at[i + 1] else n
    ensures Until(at, i, m) == if i + 1 < |at| then at[i + 1] else m
  {
  }

  /** What is written for a buffer: each entry once and in order, the last one before it repeated in
      between, and times that rise. */
  lemma WrittenInOrder(entries: seq<Line>, maxRuntime: Option<int>)
    requires AllData(entries) && Sorted(entries)
    requires entries != [] && maxRuntime.Some? ==> entries[|entries| - 1].time <= maxRuntime.value
    ensures var w := Written(entries, maxRuntime);
      && Holds(w, entries, Positions(entries)) && Repeats(w, entries, Positions(entries)) && Rising(w)
      && (Sampled(w) <==> Dense(entries))
      && (entries != [] && maxRuntime.Some? ==> w != [] && w[|w| - 1].time <= maxRuntime.value < w[|w| - 1].time + STEP)
  {
    hide Rows, Positions, Holds, Repeats, Rising, Sampled, Dense, Sorted, Fillers, HasData, Filler;
    RowsSampled(entries);
    RowsHold(entries);
    PositionsLast(entries);
    if entries != [] && maxRuntime.Some? {
      var last := entries[|entries| - 1];
      FillAfter(Rows(entries), last, maxRuntime.value + 1);
      FillersSampled(last, last.time, maxRuntime.value + 1);
      TailNext(Rows(entries), entries, Positions(entries), Fillers(last, last.time, maxRuntime.value + 1),
          Written(entries, maxRuntime));
    } else {
      assert Rows(entries) + [] == Rows(entries);
    }
  }

  /** `TreeMap.put`. */
  function Put(entries: seq<Line>, e: Line): (r: seq<Line>)
    ensures |entries| <= |r| <= |entries| + 1
  {
    if entries == [] || e.time < entries[0].time then [e] + entries
    else if e.time == entries[0].time then [e] + entries[1..]
    else [entries[0]] + Put(entries[1..], e)
  }

  /** The entry that is overwritten, if there is one. */
  function Overwritten(entries: seq<Line>, time: int): seq<Line> {
    if entries == [] || time < entries[0].time then []
    else if time == entries[0].time then [entries[0]]
    else Overwritten(entries[1..], time)
  }

  lemma {:induction false} PutSorted(entries: seq<Line>, e: Line)
    requires Sorted(entries) && AllData(entries) && HasData(e.text)
    ensures Sorted(Put(entries, e)) && AllData(Put(entries, e))
    ensures forall i :: 0 <= i < |Put(entries, e)| ==>
      Put(entries, e)[i].time == e.time || (entries != [] && Put(entries, e)[i].time >= entries[0].time)
  {
    if entries != [] && e.time > entries[0].time {
      PutSorted(entries[1..], e);
    }
  }

  lemma {:induction false} PutKeeps(entries: seq<Line>, e: Line)
    ensures multiset(Put(entries, e)) + multiset(Overwritten(entries, e.time)) == multiset(entries) + multiset{e}
  {
    if entries != [] {
      var rest := entries[1..];
      assert entries == [entries[0]] + rest;
      if e.time > entries[0].time {
        PutKeeps(rest, e);
        assert Put(entries, e) == [entries[0]] + Put(rest, e);
        assert multiset(Put(entries, e)) == multiset{entries[0]} + multiset(Put(rest, e));
        assert multiset(entries) == multiset{entries[0]} + multiset(rest);
        Before(multiset{entries[0]}, multiset(rest), multiset{e}, multiset(Overwritten(rest, e.time)),
            multiset(Put(rest, e)));
      }
    }
  }

  lemma Before<T>(x: multiset<T>, k: multiset<T>, e: multiset<T>, o: multiset<T>, p: multiset<T>)
    requires p + o == k + e
    ensures x + p + o == x + k + e
  {
    assert x + p + o == x + (p + o);
    assert x + k + e == x + (k + e);
  }

  /** A report as it arrives. */
  datatype Report = Report(agent: string, line: Line)

  /** A buffer that was written out. */
  datatype Chunk = Chunk(agent: string, entries: seq<Line>, maxRuntime: Option<int>)

  ghost function Of(agent: string, reports: seq<Report>): multiset<Line> {
    if reports == [] then multiset{}
    else
      var n := |reports| - 1;
      Of(agent, reports[..n]) + if reports[n].agent == agent then multiset{reports[n].line} else multiset{}
  }

  ghost function Flushed(agent: string, chunks: seq<Chunk>): multiset<Line> {
    if chunks == [] then multiset{}
    else
      var n := |chunks| - 1;
      Flushed(agent, chunks[..n]) + if chunks[n].agent == agent then multiset(chunks[n].entries) else multiset{}
  }

  function Kept(agent: string, utilities: map<string, seq<Line>>): seq<Line> {
    if agent in utilities then utilities[agent] else []
  }

  ghost predicate Writable(c: Chunk) {
    && AllData(c.entries) && Sorted(c.entries)
    && (c.entries != [] && c.maxRuntime.Some? ==> c.entries[|c.entries| - 1].time <= c.maxRuntime.value)
  }

  ghost function Rendered(chunks: seq<Chunk>): seq<Line>
    requires forall i :: 0 <= i < |chunks| ==> Writable(chunks[i])
  {
    if chunks == [] then []
    else
      var n := |chunks| - 1;
      assert Writable(chunks[n]);
      Rendered(chunks[..n]) + Written(chunks[n].entries, chunks[n].maxRuntime)
  }

  /** The lines of one agent in the file: those of its chunks, one after another. */
  ghost function LinesOf(agent: string, chunks: seq<Chunk>): seq<Line>
    requires forall i :: 0 <= i < |chunks| ==> Writable(chunks[i])
  {
    if chunks == [] then []
    else
      var n := |chunks| - 1;
      assert Writable(chunks[n]);
      LinesOf(agent, chunks[..n]) + if chunks[n].agent == agent then Written(chunks[n].entries, chunks[n].maxRuntime)
          else []
  }

  /** The time of the last line of a chunk: of its last entry, or beyond it by the whole steps up to `maxRuntime`. */
  function LastTime(c: Chunk): int
    requires c.entries != []
  {
    var t := c.entries[|c.entries| - 1].time;
    if c.maxRuntime.None? then t else t + STEP * ((c.maxRuntime.value - t) / STEP)
  }

  /** The chunks of one agent that hold entries. */
  ghost function ChunksOf(agent: string, chunks: seq<Chunk>): (own: seq<Chunk>)
    requires forall i :: 0 <= i < |chunks| ==> Writable(chunks[i])
    ensures forall i :: 0 <= i < |own| ==> own[i].entries != [] && Writable(own[i])
  {
    if chunks == [] then []
    else
      var n := |chunks| - 1;
      assert Writable(chunks[n]);
      ChunksOf(agent, chunks[..n]) + if chunks[n].agent == agent && chunks[n].entries != [] then [chunks[n]] else []
  }

  /** Nothing is missing after time 0, and each chunk starts at most 100 after the last line before it. */
  ghost predicate Gapless(own: seq<Chunk>)
    requires forall i :: 0 <= i < |own| ==> own[i].entries != []
  {
    && (forall i :: 0 <= i < |own| ==> Dense(own[i].entries))
    && (forall i, j :: 0 <= i < j < |own| && j == i + 1 ==>
          LastTime(own[i]) < own[j].entries[0].time <= LastTime(own[i]) + 100)
  }

  /** What a chunk writes starts with its first entry and ends at its last time. */
  lemma WrittenEnds(c: Chunk)
    requires Writable(c) && c.entries != []
    ensures var w := Written(c.entries, c.maxRuntime);
      w != [] && w[0] == c.entries[0] && w[|w| - 1].time == LastTime(c) && (Sampled(w) <==> Dense(c.entries))
  {
    hide Rows, Positions, Repeats, Rising, Sampled, Dense, Sorted, Fillers, HasData, Filler;
    var es := c.entries;
    var last := es[|es| - 1];
    WrittenInOrder(es, c.maxRuntime);
    RowsSampled(es);
    if c.maxRuntime.Some? {
      FillersSampled(last, last.time, c.maxRuntime.value + 1);
      WholeSteps(last.time, c.maxRuntime.value, |Fillers(last, last.time, c.maxRuntime.value + 1)|);
    }
  }

  lemma WholeSteps(t: int, end: int, n: nat)
    requires t + STEP * n <= end < t + STEP * (n + 1)
    ensures n == (end - t) / STEP
  {
  }

  lemma LinesNext(agent: string, chunks: seq<Chunk>, c: Chunk)
    requires Writable(c) && forall i :: 0 <= i < |chunks| ==> Writable(chunks[i])
    ensures var more := chunks + [c];
      && LinesOf(agent, more) ==
        LinesOf(agent, chunks) + (if c.agent == agent then Written(c.entries, c.maxRuntime) else [])
      && ChunksOf(agent, more) == ChunksOf(agent, chunks) + (if c.agent == agent && c.entries != [] then [c] else [])
  {
    assert (chunks + [c])[..|chunks|] == chunks;
  }

  /** These lines are sampled exactly if these chunks leave no gap, and end where the chunks do. */
  ghost predicate Accounts(lines: seq<Line>, own: seq<Chunk>)
    requires forall i :: 0 <= i < |own| ==> own[i].entries != []
  {
    && (Sampled(lines) <==> Gapless(own))
    && (own == [] <==> lines == []) && (own != [] ==> lines[|lines| - 1].time == LastTime(own[|own| - 1]))
  }

  /**
   * Over a whole run: the lines of an agent rise by at most 100 ms each if and only if they do so within every
   * chunk and from each chunk to the next; nothing is filled in between two chunks.
   */
  lemma {:induction false} RunSampled(agent: string, chunks: seq<Chunk>)
    requires forall i :: 0 <= i < |chunks| ==> Writable(chunks[i])
    ensures Accounts(LinesOf(agent, chunks), ChunksOf(agent, chunks))
  {
    if chunks != [] {
      hide LinesOf, ChunksOf, Accounts, Written, Writable;
      var n := |chunks| - 1;
      var front, c := chunks[..n], chunks[n];
      assert chunks == front + [c];
      RunSampled(agent, front);
      LinesNext(agent, front, c);
      var lines, own := LinesOf(agent, front), ChunksOf(agent, front);
      if c.agent == agent && c.entries != [] {
        AccountsNext(lines, own, c);
      } else {
        if c.agent == agent { NothingWritten(c); }
        assert lines + [] == lines && own + [] == own;
      }
    } else {
      NothingSampled();
    }
  }

  lemma AccountsNext(lines: seq<Line>, own: seq<Chunk>, c: Chunk)
    requires (forall i :: 0 <= i < |own| ==> own[i].entries != []) && Accounts(lines, own) && Writable(c)
      && c.entries != []
    ensures Accounts(lines + Written(c.entries, c.maxRuntime), own + [c])
  {
    hide Sampled, Gapless, Dense, Written, LastTime, Rising, Sorted, HasData;
    NothingSampled();
    var w := Written(c.entries, c.maxRuntime);
    WrittenEnds(c);
    GaplessNext(own, c);
    if own != [] { SampledJoin(lines, w); } else { assert lines + w == w; }
  }

  lemma NothingSampled()
    ensures Sampled([]) && Gapless([])
  {
  }

  lemma NothingWritten(c: Chunk)
    requires c.entries == []
    ensures Written(c.entries, c.maxRuntime) == []
  {
  }

  lemma GaplessNext(own: seq<Chunk>, c: Chunk)
    requires c.entries != [] && forall i :: 0 <= i < |own| ==> own[i].entries != []
    ensures Gapless(own + [c]) <==>
      && Gapless(own) && Dense(c.entries)
      && (own != [] ==> var t := LastTime(own[|own| - 1]); t < c.entries[0].time <= t + STEP)
  {
    hide Dense, LastTime;
    var more := own + [c];
    assert more[|own|] == c;
    assert forall i :: 0 <= i < |own| ==> own[i] == more[i];
  }

  /** A run whose chunks are both dense, and whose file still has a gap of almost a second. */
  lemma GapBetweenChunks()
    ensures var first, second := Chunk("a", [Line(1, "1;x")], Some(1)), Chunk("a", [Line(1000, "1000;y")], Some(1000));
      && Writable(first) && Writable(second) && Dense(first.entries) && Dense(second.entries)
      && !Sampled(LinesOf("a", [first, second]))
  {
    var first, second := Chunk("a", [Line(1, "1;x")], Some(1)), Chunk("a", [Line(1000, "1000;y")], Some(1000));
    OneEntry(first);
    OneEntry(second);
    hide Sampled, Written, LinesOf, Writable, Gapless, Dense, LastTime;
    TwoChunks(first, second);
  }

  lemma OneEntry(c: Chunk)
    requires |c.entries| == 1 && c.maxRuntime == Some(c.entries[0].time) && HasData(c.entries[0].text)
    ensures Writable(c) && Dense(c.entries) && LastTime(c) == c.entries[0].time
  {
  }

  /** Two chunks of an agent leave a gap if the second starts too late. */
  lemma TwoChunks(first: Chunk, second: Chunk)
    requires Writable(first) && Writable(second) && first.agent == second.agent && first.entries != []
      && second.entries != []
    requires second.entries[0].time > LastTime(first) + STEP
    ensures !Sampled(LinesOf(first.agent, [first, second]))
  {
    hide Sampled, Written, LastTime, Writable, Dense;
    var both := [first, second];
    LinesNext(first.agent, [], first);
    LinesNext(first.agent, [first], second);
    assert [] + [first] == [first] && [first] + [second] == both;
    assert ChunksOf(first.agent, both) == both;
    RunSampled(first.agent, both);
    assert both[0] == first && both[1] == second;
  }

  /** Of each agent, every report that was accepted was overwritten in the buffer, or written, or is still there. */
  ghost predicate Conserved(accepted: seq<Report>, lost: seq<Report>, chunks: seq<Chunk>,
      utilities: map<string, seq<Line>>) {
    forall a :: Of(a, accepted) == Of(a, lost) + Flushed(a, chunks) + multiset(Kept(a, utilities))
  }

  ghost predicate Bounded(utilities: map<string, seq<Line>>, limit: nat) {
    forall a :: a in utilities ==> Sorted(utilities[a]) && AllData(utilities[a]) && |utilities[a]| <= limit
  }

  function Tagged(agent: string, lines: seq<Line>): seq<Report> {
    seq(|lines|, i requires 0 <= i < |lines| => Report(agent, lines[i]))
  }

  lemma OfLast(a: string, reports: seq<Report>, r: Report)
    ensures Of(a, reports + [r]) == Of(a, reports) + if r.agent == a then multiset{r.line} else multiset{}
  {
    assert (reports + [r])[..|reports|] == reports;
  }

  lemma FlushedLast(a: string, chunks: seq<Chunk>, c: Chunk)
    ensures Flushed(a, chunks + [c]) == Flushed(a, chunks) + if c.agent == a then multiset(c.entries) else multiset{}
  {
    assert (chunks + [c])[..|chunks|] == chunks;
  }

  lemma {:induction false} OverwrittenOnce(entries: seq<Line>, time: int)
    ensures |Overwritten(entries, time)| <= 1
  {
    if entries != [] && time > entries[0].time { OverwrittenOnce(entries[1..], time); }
  }

  lemma OfTagged(a: string, reports: seq<Report>, agent: string, lines: seq<Line>)
    requires |lines| <= 1
    ensures Of(a, reports + Tagged(agent, lines)) == Of(a, reports) + if agent == a then multiset(lines) else multiset{}
  {
    if lines == [] {
      assert reports + Tagged(agent, lines) == reports;
    } else {
      assert lines == [lines[0]] && Tagged(agent, lines) == [Report(agent, lines[0])];
      OfLast(a, reports, Report(agent, lines[0]));
    }
  }

  /** Buffering a report. */
  lemma ConservedPut(accepted: seq<Report>, lost: seq<Report>, chunks: seq<Chunk>, utilities: map<string, seq<Line>>,
      agent: string, e: Line)
    requires Conserved(accepted, lost, chunks, utilities)
    ensures var entries := Kept(agent, utilities);
      Conserved(accepted + [Report(agent, e)], lost + Tagged(agent, Overwritten(entries, e.time)), chunks,
          utilities[agent := Put(entries, e)])
  {
    hide Of, Flushed, Overwritten, Put, Tagged;
    var entries := Kept(agent, utilities);
    forall a
      ensures Of(a, accepted + [Report(agent, e)])
           == Of(a, lost + Tagged(agent, Overwritten(entries, e.time))) + Flushed(a, chunks) +
               multiset(Kept(a, utilities[agent := Put(entries, e)]))
    {
      OverwrittenOnce(entries, e.time);
      OfLast(a, accepted, Report(agent, e));
      OfTagged(a, lost, agent, Overwritten(entries, e.time));
      PutKeeps(entries, e);
      Exchange(Of(a, lost), Flushed(a, chunks), multiset(entries), multiset{e}, multiset(Overwritten(entries, e.time)),
          multiset(Put(entries, e)));
    }
  }

  lemma Exchange<T>(l: multiset<T>, f: multiset<T>, k: multiset<T>, e: multiset<T>, o: multiset<T>, p: multiset<T>)
    requires p + o == k + e
    ensures l + f + k + e == l + o + f + p
  {
    assert l + f + k + e == l + f + (k + e);
    assert l + f + (k + e) == l + f + (p + o);
    assert l + f + (p + o) == l + o + f + p;
  }

  /** Writing a buffer. */
  lemma ConservedFlush(accepted: seq<Report>, lost: seq<Report>, chunks: seq<Chunk>, utilities: map<string, seq<Line>>,
      c: Chunk)
    requires Conserved(accepted, lost, chunks, utilities) && c.entries == Kept(c.agent, utilities)
    ensures Conserved(accepted, lost, chunks + [c], utilities[c.agent := []])
  {
    hide Of, Flushed;
    forall a
      ensures Of(a, accepted) == Of(a, lost) + Flushed(a, chunks + [c]) + multiset(Kept(a, utilities[c.agent := []]))
    {
      FlushedLast(a, chunks, c);
    }
  }

  lemma KeptAt(agent: string, utilities: map<string, seq<Line>>)
    ensures Kept(agent, utilities) == if agent in utilities then utilities[agent] else []
  {
  }

  lemma NothingKept()
    ensures Sorted([]) && AllData([])
  {
  }

  lemma BoundedPut(utilities: map<string, seq<Line>>, agent: string, e: Line, limit: nat)
    requires Bounded(utilities, limit) && HasData(e.text)
    ensures var entries := Put(Kept(agent, utilities), e);
      && Sorted(entries) && AllData(entries) && |entries| <= limit + 1
      && Bounded(utilities[agent := entries], limit + 1)
      && (|entries| <= limit ==> Bounded(utilities[agent := entries], limit))
      && Bounded(utilities[agent := []], limit)
  {
    hide Put, HasData, Sorted, AllData;
    NothingKept();
    PutSorted(Kept(agent, utilities), e);
  }

  lemma BoundedSizes(utilities: map<string, seq<Line>>, limit: nat)
    requires Bounded(utilities, limit)
    ensures forall a :: a in utilities ==> |utilities[a]| <= limit
  {
  }

  lemma RenderedLast(chunks: seq<Chunk>, c: Chunk)
    requires Writable(c) && forall i :: 0 <= i < |chunks| ==> Writable(chunks[i])
    ensures Rendered(chunks + [c]) == Rendered(chunks) + Written(c.entries, c.maxRuntime)
  {
    assert (chunks + [c])[..|chunks|] == chunks;
  }

  /** The maximum of 0 and the times of all entries. */
  ghost predicate IsLast(maxRuntime: int, utilities: map<string, seq<Line>>) {
    && maxRuntime >= 0
    && (forall a, i :: a in utilities && 0 <= i < |utilities[a]| ==> utilities[a][i].time <= maxRuntime)
    && (maxRuntime > 0 ==>
      exists a, i :: a in utilities && 0 <= i < |utilities[a]| && utilities[a][i].time == maxRuntime)
  }

  function Chunks(order: seq<string>, utilities: map<string, seq<Line>>, maxRuntime: int): seq<Chunk> {
    seq(|order|, i requires 0 <= i < |order| => Chunk(order[i], Kept(order[i], utilities), Some(maxRuntime)))
  }

  lemma ChunksLast(order: seq<string>, agent: string, utilities: map<string, seq<Line>>, maxRuntime: int)
    ensures Chunks(order + [agent], utilities, maxRuntime) ==
      Chunks(order, utilities, maxRuntime) + [Chunk(agent, Kept(agent, utilities), Some(maxRuntime))]
  {
  }

  lemma LastWritable(agent: string, utilities: map<string, seq<Line>>, maxRuntime: int)
    requires IsLast(maxRuntime, utilities) && agent in utilities && Bounded(utilities, MESSAGE_LIMIT)
    ensures Writable(Chunk(agent, utilities[agent], Some(maxRuntime)))
  {
  }

  /** The buffers of the agents in `order` were written and are empty; the others are as they were. */
  ghost predicate Emptied(was: map<string, seq<Line>>, utilities: map<string, seq<Line>>, agents: set<string>,
      order: seq<string>) {
    && agents <= utilities.Keys == was.Keys
    && (forall a :: a in utilities ==> utilities[a] == if a in agents then was[a] else [])
    && |order| + |agents| == |was.Keys| && (forall a :: a in was <==> a in agents || a in order)
  }

  lemma EmptiedStart(was: map<string, seq<Line>>)
    ensures Emptied(was, was, was.Keys, [])
  {
  }

  lemma EmptiedNext(was: map<string, seq<Line>>, utilities: map<string, seq<Line>>, agents: set<string>,
      order: seq<string>, agent: string)
    requires Emptied(was, utilities, agents, order) && agent in agents
    ensures Emptied(was, utilities[agent := []], agents - {agent}, order + [agent])
    ensures agent in utilities && agent in was && utilities[agent] == was[agent] == Kept(agent, was)
  {
    assert forall a :: a in order + [agent] <==> a in order || a == agent;
  }

  lemma EmptiedEnd(was: map<string, seq<Line>>, utilities: map<string, seq<Line>>, order: seq<string>)
    requires Emptied(was, utilities, {}, order)
    ensures utilities.Keys == was.Keys && (forall a :: a in utilities ==> utilities[a] == [])
    ensures |order| == |was.Keys| && forall a :: a in was <==> a in order
  {
  }

  lemma ChunksNone(was: map<string, seq<Line>>)
    ensures forall r :: Chunks([], was, r) == []
  {
  }

  lemma AllFlushed(accepted: seq<Report>, lost: seq<Report>, chunks: seq<Chunk>, utilities: map<string, seq<Line>>)
    requires Conserved(accepted, lost, chunks, utilities) && forall a :: a in utilities ==> utilities[a] == []
    ensures forall a :: Of(a, accepted) == Of(a, lost) + Flushed(a, chunks)
  {
    forall a
      ensures Kept(a, utilities) == []
    {
    }
  }

  class MessageCollector {
    var utilities: map<string, seq<Line>>
    var file: seq<Line>
    ghost var accepted: seq<Report>
    ghost var lost: seq<Report>
    ghost var chunks: seq<Chunk>

    ghost predicate Sound(limit: nat)
      reads this
    {
      && Bounded(utilities, limit) && Conserved(accepted, lost, chunks, utilities)
      && (forall i :: 0 <= i < |chunks| ==> Writable(chunks[i])) && file == Rendered(chunks)
    }

    constructor ()
      ensures Sound(MESSAGE_LIMIT) && utilities == map[] && accepted == [] && file == []
    {
      utilities, file, accepted, lost, chunks := map[], [], [], [], [];
    }

    /** `update`. */
    method Update(agent: string, timestamp: int, update: string)
      requires Sound(MESSAGE_LIMIT) && HasData(update)
      modifies this
      ensures Sound(MESSAGE_LIMIT) && accepted == old(accepted) + [Report(agent, Line(timestamp, update))]
      ensures forall a :: a in utilities ==> |utilities[a]| <= 100
      ensures lost == old(lost) + Tagged(agent, Overwritten(old(Kept(agent, utilities)), timestamp))
      ensures var entries := Put(old(Kept(agent, utilities)), Line(timestamp, update));
        if |entries| > MESSAGE_LIMIT
        then utilities == old(utilities)[agent := []] && chunks == old(chunks) + [Chunk(agent, entries, None)]
        else utilities == old(utilities)[agent := entries] && chunks == old(chunks) && file == old(file)
    {
      hide Conserved, Rendered, Written, Sorted, AllData, Kept, Put, Tagged, Overwritten, Bounded;
      var entries := [];
      if agent in utilities { entries := utilities[agent]; }
      ghost var e := Line(timestamp, update);
      KeptAt(agent, utilities);
      ConservedPut(accepted, lost, chunks, utilities, agent, e);
      BoundedPut(utilities, agent, e, MESSAGE_LIMIT);
      lost := lost + Tagged(agent, Overwritten(entries, timestamp));
      accepted := accepted + [Report(agent, e)];
      entries := Put(entries, Line(timestamp, update));
      utilities := utilities[agent := entries];
      if |entries| > MESSAGE_LIMIT {
        Flush(agent, None, MESSAGE_LIMIT + 1);
        assert utilities == old(utilities)[agent := []];
      }
      BoundedSizes(utilities, MESSAGE_LIMIT);
    }

    /** `writeUtilitiesToFile`. */
    method Flush(agent: string, maxRuntime: Option<int>, ghost limit: nat)
      requires Sound(limit) && agent in utilities && Writable(Chunk(agent, utilities[agent], maxRuntime))
      modifies this`utilities, this`file, this`chunks
      ensures Sound(limit) && utilities == old(utilities)[agent := []]
      ensures chunks == old(chunks) + [Chunk(agent, old(utilities)[agent], maxRuntime)]
    {
      hide Conserved, Rendered, Written, Sorted, AllData, Kept;
      ghost var c := Chunk(agent, utilities[agent], maxRuntime);
      KeptAt(agent, utilities);
      ConservedFlush(accepted, lost, chunks, utilities, c);
      RenderedLast(chunks, c);
      NothingKept();
      var written := WriteUtilities(utilities[agent], maxRuntime);
      file := file + written;
      chunks := chunks + [c];
      utilities := utilities[agent := []];
    }

    /** `stop`: writes every buffer, each once, continued until the last timestamp of all. */
    method WriteAll() returns (maxRuntime: int, ghost order: seq<string>)
      requires Sound(MESSAGE_LIMIT)
      modifies this`utilities, this`file, this`chunks
      ensures Sound(MESSAGE_LIMIT) && utilities.Keys == old(utilities).Keys
        && forall a :: a in utilities ==> utilities[a] == []
      ensures IsLast(maxRuntime, old(utilities))
      ensures |order| == |old(utilities).Keys| && forall a :: a in old(utilities) <==> a in order
      ensures chunks == old(chunks) + Chunks(order, old(utilities), maxRuntime)
      ensures forall a :: Of(a, accepted) == Of(a, lost) + Flushed(a, chunks)
    {
      hide Conserved, Rendered, Written, Sorted, AllData, IsLast, Writable, Bounded, Kept, Emptied, Chunks;
      ChunksNone(utilities);
      maxRuntime := LastTimepoint();
      order := [];
      var agents := utilities.Keys;
      EmptiedStart(utilities);
      while agents != {}
        invariant Sound(MESSAGE_LIMIT) && Emptied(old(utilities), utilities, agents, order)
        invariant chunks == old(chunks) + Chunks(order, old(utilities), maxRuntime)
      {
        var agent :| agent in agents;
        LastWritable(agent, old(utilities), maxRuntime);
        EmptiedNext(old(utilities), utilities, agents, order, agent);
        Flush(agent, Some(maxRuntime), MESSAGE_LIMIT);
        ChunksLast(order, agent, old(utilities), maxRuntime);
        order := order + [agent];
        agents := agents - {agent};
      }
      EmptiedEnd(old(utilities), utilities, order);
      AllFlushed(accepted, lost, chunks, utilities);
    }

    /** The last timestamp of all buffers, 0 if there is none after it. */
    method LastTimepoint() returns (maxRuntime: int)
      ensures IsLast(maxRuntime, utilities)
    {
      maxRuntime := 0;
      var agents := utilities.Keys;
      ghost var b, k := "", 0;
      while agents != {}
        invariant agents <= utilities.Keys
        invariant maxRuntime >= 0
          && (maxRuntime > 0 ==> b in utilities && 0 <= k < |utilities[b]| && utilities[b][k].time == maxRuntime)
        invariant forall a, i :: a in utilities && a !in agents && 0 <= i < |utilities[a]| ==>
          utilities[a][i].time <= maxRuntime
      {
        var agent :| agent in agents;
        ghost var before := maxRuntime;
        for j := 0 to |utilities[agent]|
          invariant maxRuntime >= before
            && (maxRuntime > 0 ==> b in utilities && 0 <= k < |utilities[b]| && utilities[b][k].time == maxRuntime)
          invariant forall i :: 0 <= i < j ==> utilities[agent][i].time <= maxRuntime
        {
          if utilities[agent][j].time > maxRuntime {
            maxRuntime := utilities[agent][j].time;
            b, k := agent, j;
          }
        }
        agents := agents - {agent};
      }
    }
  }
}
