/**
 What the reports of a bundle say about its inputs. Every report starts its logs anew from the sentinel,
 so a change across a report can be missing and a value can be written twice.
 */
module PlayingLogsWritten {
  import opened PlayingLogsRuns
  import opened PlayingLogsSpec
  import opened Sequences
  import opened StringOrder

  // ---------- Changes across one boundary ----------

  lemma {:induction false} ChangesConcat(prev: nat, x: seq<Entry>, y: seq<Entry>)
    ensures Changes(prev, x + y) == Changes(prev, x) + Changes(Before(prev, x, |x|), y)
    decreases |x|
  {
    if x == [] {
      assert x + y == y;
    } else {
      assert (x + y)[1..] == x[1..] + y;
      ChangesConcat(x[0].value, x[1..], y);
      assert Before(x[0].value, x[1..], |x| - 1) == Before(prev, x, |x|);
    }
  }

  /** Starting anew from the sentinel makes no difference for the first input after x. */
  predicate Seamless(sentinel: nat, x: seq<Entry>, y: seq<Entry>) {
    y == [] || (y[0].value == sentinel <==> y[0].value == Before(sentinel, x, |x|))
  }

  /** Two logs started from the sentinel are the log of all inputs exactly when the boundary is seamless. */
  lemma BoundaryExactly(sentinel: nat, x: seq<Entry>, y: seq<Entry>)
    ensures Changes(sentinel, x) + Changes(sentinel, y) == Changes(sentinel, x + y) <==> Seamless(sentinel, x, y)
  {
    hide Before;
    ChangesConcat(sentinel, x, y);
    var p, q := Changes(sentinel, y), Changes(Before(sentinel, x, |x|), y);
    if Changes(sentinel, x) + p == Changes(sentinel, x) + q {
      assert p == (Changes(sentinel, x) + p)[|Changes(sentinel, x)|..];
      assert q == (Changes(sentinel, x) + q)[|Changes(sentinel, x)|..];
    }
    if y != [] {
      FirstChange(sentinel, y);
      FirstChange(Before(sentinel, x, |x|), y);
    }
  }

  lemma FirstChange(prev: nat, y: seq<Entry>)
    requires y != []
    ensures |Changes(prev, y)| == (if y[0].value != prev then 1 else 0) + |Changes(y[0].value, y[1..])|
  {
  }

  // ---------- Many reports ----------

  /** What is written of inputs that come in several periods, with a report after each but the last. */
  function WrittenOf(kind: Kind, periods: seq<seq<Entry>>): seq<Entry> {
    if periods == [] then [] else
      WrittenOf(kind, periods[..|periods| - 1]) + LoggedInputs(kind, periods[|periods| - 1])
  }

  /** The boundary before the i-th period is seamless. */
  predicate SeamlessAt(sentinel: nat, periods: seq<seq<Entry>>, i: nat)
    requires i < |periods|
  {
    Seamless(sentinel, Flatten(periods[..i]), periods[i])
  }

  predicate AllSeamless(sentinel: nat, periods: seq<seq<Entry>>) {
    forall i :: 0 <= i < |periods| ==> SeamlessAt(sentinel, periods, i)
  }

  /** The change back to the sentinel at the start of y is not written. */
  predicate Misses(sentinel: nat, x: seq<Entry>, y: seq<Entry>) {
    y != [] && y[0].value == sentinel && Before(sentinel, x, |x|) != sentinel
  }

  /** The first value of y is written although it is the last one of x. */
  predicate Repeats(sentinel: nat, x: seq<Entry>, y: seq<Entry>) {
    y != [] && y[0].value != sentinel && Before(sentinel, x, |x|) == y[0].value
  }

  /** How many changes are missing from what is written ... */
  function Missing(sentinel: nat, periods: seq<seq<Entry>>): nat {
    if periods == [] then 0 else
      var n := |periods| - 1;
      Missing(sentinel, periods[..n]) + if Misses(sentinel, Flatten(periods[..n]), periods[n]) then 1 else 0
  }

  /** ... and how many entries of it are no changes. */
  function Repeated(sentinel: nat, periods: seq<seq<Entry>>): nat {
    if periods == [] then 0 else
      var n := |periods| - 1;
      Repeated(sentinel, periods[..n]) + if Repeats(sentinel, Flatten(periods[..n]), periods[n]) then 1 else 0
  }

  function CountOf(v: nat, values: seq<nat>): nat {
    if values == [] then 0 else (if values[0] == v then 1 else 0) + CountOf(v, values[1..])
  }

  lemma {:induction false} CountsAdd(v: nat, a: seq<nat>, b: seq<nat>)
    ensures CountOf(v, a + b) == CountOf(v, a) + CountOf(v, b)
    decreases |a|
  {
    if a == [] {
      assert a + b == b;
    } else {
      assert (a + b)[1..] == a[1..] + b;
      CountsAdd(v, a[1..], b);
    }
  }

  lemma ValuesAdd(a: seq<Entry>, b: seq<Entry>)
    ensures Values(a + b) == Values(a) + Values(b)
  {
  }

  /** Moving the value before y to the sentinel takes or gives at most its first entry. */
  lemma OnePeriod(sentinel: nat, x: seq<Entry>, y: seq<Entry>)
    ensures var anew, after := Values(Changes(sentinel, y)), Values(Changes(Before(sentinel, x, |x|), y));
            && CountOf(sentinel, after) == CountOf(sentinel, anew) + (if Misses(sentinel, x, y) then 1 else 0)
            && |anew| - CountOf(sentinel, anew) ==
               |after| - CountOf(sentinel, after) + (if Repeats(sentinel, x, y) then 1 else 0)
  {
    hide Before;
    if y != [] {
      FirstValue(sentinel, y, sentinel);
      FirstValue(Before(sentinel, x, |x|), y, sentinel);
    }
  }

  lemma FirstValue(prev: nat, y: seq<Entry>, v: nat)
    requires y != []
    ensures var rest, all := Values(Changes(y[0].value, y[1..])), Values(Changes(prev, y));
            && |all| == (if y[0].value != prev then 1 else 0) + |rest|
            && CountOf(v, all) == (if y[0].value != prev && y[0].value == v then 1 else 0) + CountOf(v, rest)
  {
    var rest := Changes(y[0].value, y[1..]);
    if y[0].value != prev {
      ValuesAdd([y[0]], rest);
      assert Values([y[0]] + rest)[1..] == Values(rest);
    } else {
      assert Changes(prev, y) == rest;
    }
  }

  /** The sentinel is missing as often as changes back to it are; the other values are too many as often as repeated. */
  lemma {:induction false} CountsExactly(kind: Kind, periods: seq<seq<Entry>>)
    requires !kind.MetaLog?
    ensures var s := Sentinel(kind);
            var written, all := Values(WrittenOf(kind, periods)), Values(Changes(s, Flatten(periods)));
            && CountOf(s, all) == CountOf(s, written) + Missing(s, periods)
            && |written| - CountOf(s, written) == |all| - CountOf(s, all) + Repeated(s, periods)
    decreases |periods|
  {
    hide Changes, CountOf, LoggedInputs, Misses, Repeats, Before, Values;
    var s := Sentinel(kind);
    if periods == [] {
      NothingWritten(s);
    } else {
      var n := |periods| - 1;
      var init, y := periods[..n], periods[n];
      CountsExactly(kind, init);
      FlattenLast(periods);
      ChangesConcat(s, Flatten(init), y);
      LogsAreChanges(kind, y);
      OnePeriod(s, Flatten(init), y);
      var after := Changes(Before(s, Flatten(init), |Flatten(init)|), y);
      ValuesAdd(WrittenOf(kind, init), Changes(s, y));
      ValuesAdd(Changes(s, Flatten(init)), after);
      CountsAdd(s, Values(WrittenOf(kind, init)), Values(Changes(s, y)));
      CountsAdd(s, Values(Changes(s, Flatten(init))), Values(after));
    }
  }

  lemma NothingWritten(s: nat)
    ensures Changes(s, []) == [] && Values([]) == [] && CountOf(s, []) == 0
  {
  }

  lemma {:induction false} SeamlessCounts(sentinel: nat, periods: seq<seq<Entry>>)
    ensures AllSeamless(sentinel, periods) <==> Missing(sentinel, periods) == 0 && Repeated(sentinel, periods) == 0
    decreases |periods|
  {
    if periods != [] {
      var n := |periods| - 1;
      SeamlessCounts(sentinel, periods[..n]);
      SeamlessPrefix(sentinel, periods);
      hide AllSeamless;
      assert SeamlessAt(sentinel, periods, n) <==>
             !Misses(sentinel, Flatten(periods[..n]), periods[n])
             && !Repeats(sentinel, Flatten(periods[..n]), periods[n]);
    }
  }

  lemma SeamlessPrefix(sentinel: nat, periods: seq<seq<Entry>>)
    requires periods != []
    ensures var n := |periods| - 1;
            AllSeamless(sentinel, periods) <==>
            AllSeamless(sentinel, periods[..n]) && SeamlessAt(sentinel, periods, n)
  {
    hide Seamless;
    var n := |periods| - 1;
    forall i | 0 <= i < n
      ensures SeamlessAt(sentinel, periods[..n], i) <==> SeamlessAt(sentinel, periods, i)
    {
      assert periods[..n][..i] == periods[..i] && periods[..n][i] == periods[i];
    }
  }

  lemma {:induction false} SeamlessIsWhole(kind: Kind, periods: seq<seq<Entry>>)
    requires !kind.MetaLog? && AllSeamless(Sentinel(kind), periods)
    ensures WrittenOf(kind, periods) == Changes(Sentinel(kind), Flatten(periods))
    decreases |periods|
  {
    hide LoggedInputs, Before;
    var s := Sentinel(kind);
    if periods == [] {
      NothingWritten(s);
    } else {
      var n := |periods| - 1;
      SeamlessPrefix(s, periods);
      SeamlessIsWhole(kind, periods[..n]);
      FlattenLast(periods);
      LogsAreChanges(kind, periods[n]);
      BoundaryExactly(s, Flatten(periods[..n]), periods[n]);
    }
  }

  /** Even the values alone are those of the changes only when every boundary is seamless. */
  lemma WrittenExactly(kind: Kind, periods: seq<seq<Entry>>)
    requires !kind.MetaLog?
    ensures var s := Sentinel(kind);
            var written, all := WrittenOf(kind, periods), Changes(s, Flatten(periods));
            && (Values(written) == Values(all) <==> AllSeamless(s, periods))
            && (written == all <==> AllSeamless(s, periods))
  {
    CountsExactly(kind, periods);
    SeamlessCounts(Sentinel(kind), periods);
    hide AllSeamless, WrittenOf, Changes, CountOf, Values, Missing, Repeated;
    if AllSeamless(Sentinel(kind), periods) { SeamlessIsWhole(kind, periods); }
  }

  /** Meta quality starts from no sentinel, so all of it is written. */
  lemma {:induction false} MetaQualityIsWhole(periods: seq<seq<Entry>>)
    ensures WrittenOf(MetaLog, periods) == Flatten(periods)
    decreases |periods|
  {
    if periods != [] {
      MetaQualityIsWhole(periods[..|periods| - 1]);
      FlattenLast(periods);
      LogsAreChanges(MetaLog, periods[|periods| - 1]);
    }
  }

  // ---------- Runs ----------

  /** The inputs of a bundle to one log, report by report. */
  function ReportedPeriods(kind: Kind, b: string, flushed: seq<Flush>): seq<seq<Entry>> {
    if flushed == [] then [] else
      var f := flushed[|flushed| - 1];
      ReportedPeriods(kind, b, flushed[..|flushed| - 1]) + if f.bundleName == b then [Inputs(kind, f.history)] else []
  }

  /** ... and then those not reported yet. */
  function Periods(kind: Kind, b: string, s: Logs): seq<seq<Entry>> {
    ReportedPeriods(kind, b, s.flushed) + [Inputs(kind, HistoryOf(s, b))]
  }

  lemma {:induction false} InputsConcat(kind: Kind, h: History, g: History)
    ensures Inputs(kind, h + g) == Inputs(kind, h) + Inputs(kind, g)
    decreases |g|
  {
    hide EntryFor;
    if g == [] {
      assert h + g == h;
    } else {
      assert (h + g)[..|h + g| - 1] == h + g[..|g| - 1];
      InputsConcat(kind, h, g[..|g| - 1]);
    }
  }

  lemma {:induction false} ReportedPeriodsAreInputs(kind: Kind, b: string, flushed: seq<Flush>)
    ensures Flatten(ReportedPeriods(kind, b, flushed)) == Inputs(kind, ReportedOf(b, flushed))
    decreases |flushed|
  {
    if flushed != [] {
      var init, f := flushed[..|flushed| - 1], flushed[|flushed| - 1];
      ReportedPeriodsAreInputs(kind, b, init);
      if f.bundleName == b {
        FlattenAppend(ReportedPeriods(kind, b, init), Inputs(kind, f.history));
        InputsConcat(kind, ReportedOf(b, init), f.history);
      } else {
        assert ReportedOf(b, flushed) == ReportedOf(b, init);
        assert ReportedPeriods(kind, b, flushed) == ReportedPeriods(kind, b, init);
      }
    }
  }

  lemma PeriodsAreInputs(kind: Kind, b: string, s: Logs)
    ensures Flatten(Periods(kind, b, s)) == Inputs(kind, Account(b, s))
  {
    hide Inputs, ReportedOf, ReportedPeriods;
    ReportedPeriodsAreInputs(kind, b, s.flushed);
    FlattenAppend(ReportedPeriods(kind, b, s.flushed), Inputs(kind, HistoryOf(s, b)));
    InputsConcat(kind, ReportedOf(b, s.flushed), HistoryOf(s, b));
  }

  /** The reported logs of a bundle followed by its live log. */
  function WrittenLog(kind: Kind, b: string, s: Logs): seq<Entry> { WrittenOf(kind, Periods(kind, b, s)) }

  /**
   In every run, the reported logs of a bundle followed by its live log are the changes among all its
   inputs exactly when every report boundary is seamless; meta quality is always complete.
   */
  lemma WrittenLogsAreChanges(kind: Kind, ops: seq<Op>, b: string)
    ensures var s, inputs := Run(NOTHING, ops), Inputs(kind, SentTo(b, ops));
            if kind.MetaLog? then WrittenLog(kind, b, s) == inputs
            else
              && (WrittenLog(kind, b, s) == Changes(Sentinel(kind), inputs) <==>
                  AllSeamless(Sentinel(kind), Periods(kind, b, s)))
              && (Values(WrittenLog(kind, b, s)) == Values(Changes(Sentinel(kind), inputs)) <==>
                  AllSeamless(Sentinel(kind), Periods(kind, b, s)))
  {
    hide Run, Periods, Account, SentTo, AllSeamless, Changes, Values, Inputs, WrittenOf;
    var s := Run(NOTHING, ops);
    UpdatesAreConserved(NOTHING, ops, b);
    NoAccount(b);
    assert [] + SentTo(b, ops) == SentTo(b, ops);
    PeriodsAreInputs(kind, b, s);
    if kind.MetaLog? {
      MetaQualityIsWhole(Periods(kind, b, s));
    } else {
      WrittenExactly(kind, Periods(kind, b, s));
    }
  }

  lemma NoAccount(b: string)
    ensures Account(b, NOTHING) == []
  {
  }

  // ---------- Inputs where it fails ----------

  /** Two command qualities, each followed by a report of everything. */
  function TwoPeriods(b: string, first: nat, second: nat): seq<Op> {
    [Updated(b, Timed(CommandQuality(first), 1)), ReportedAll,
     Updated(b, Timed(CommandQuality(second), 2)), ReportedAll]
  }

  lemma TwoReports(b: string, first: nat, second: nat)
    ensures var s := Run(NOTHING, TwoPeriods(b, first, second));
            && s.live == map[] && |s.flushed| == 2
            && s.flushed[0] == Flush(b, [Timed(CommandQuality(first), 1)])
            && s.flushed[1] == Flush(b, [Timed(CommandQuality(second), 2)])
            && Values(Logged(CommandLog, s.flushed[0].history)) == (if first == 0 then [] else [first])
            && Values(Logged(CommandLog, s.flushed[1].history)) == (if second == 0 then [] else [second])
  {
    hide Run, Step, Logged;
    var t, u := Timed(CommandQuality(first), 1), Timed(CommandQuality(second), 2);
    var before, after := [Updated(b, t), ReportedAll], [Updated(b, u), ReportedAll];
    OneLog(t);
    OneLog(u);
    NothingRun();
    TwoSteps(NOTHING, [], Updated(b, t), ReportedAll);
    UpdateAndReport(NOTHING, b, t);
    assert [] + before == before;
    TwoSteps(NOTHING, before, Updated(b, u), ReportedAll);
    UpdateAndReport(Run(NOTHING, before), b, u);
    assert before + after == TwoPeriods(b, first, second);
  }

  /** The change from 5 back to 0 is in no report: the log of the second one is empty. */
  lemma AChangeNobodyReports(b: string)
    ensures var s := Run(NOTHING, TwoPeriods(b, 5, 0));
            && |s.flushed| == 2 && s.live == map[]
            && Values(Logged(CommandLog, s.flushed[0].history)) == [5]
            && Values(Logged(CommandLog, s.flushed[1].history)) == []
  {
    hide Run, Logged;
    TwoReports(b, 5, 0);
  }

  /** A 5 that has not changed is reported twice. */
  lemma AValueReportedTwice(b: string)
    ensures var s := Run(NOTHING, TwoPeriods(b, 5, 5));
            && |s.flushed| == 2 && s.live == map[]
            && Values(Logged(CommandLog, s.flushed[0].history)) == [5]
            && Values(Logged(CommandLog, s.flushed[1].history)) == [5]
  {
    hide Run, Logged;
    TwoReports(b, 5, 5);
  }

  lemma NothingRun()
    ensures Run(NOTHING, []) == NOTHING
  {
  }

  lemma TwoSteps(s: Logs, ops: seq<Op>, first: Op, second: Op)
    ensures Run(s, ops + [first, second]) == Step(Step(Run(s, ops), first), second)
  {
    hide Step;
    assert (ops + [first, second])[..|ops| + 1] == ops + [first];
    assert (ops + [first])[..|ops|] == ops;
  }

  lemma OneLog(t: Timed)
    requires t.update.CommandQuality?
    ensures Logged(CommandLog, [t]) ==
            if t.update.commandQuality == 0 then [] else [Entry(t.update.commandQuality, "", t.time)]
  {
    LoggedGrows(CommandLog, [], t);
    assert [] + [t] == [t];
  }

  lemma UpdateAndReport(s: Logs, b: string, t: Timed)
    requires s.live == map[] && t.update.CommandQuality?
    ensures Step(Step(s, Updated(b, t)), ReportedAll) == Logs(map[], s.flushed + [Flush(b, [t])])
  {
    OneLog(t);
    var r := Step(s, Updated(b, t));
    assert HistoryOf(s, b) + [t] == [t];
    assert r == Logs(map[b := [t]], s.flushed);
    hide Logged, Step;
    ReportAllEmptiesTheMap(r);
    var keys := Sorted(r.live.Keys);
    assert |keys| == 1 && b in keys && keys[0] == b;
    assert Flushes(r, keys) == [Flush(b, [t])];
  }
}
