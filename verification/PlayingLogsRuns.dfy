/**
 What every run of updates and reports keeps: bounded logs, and the histories that reports are made from.
 Which of these updates a report then shows is the matter of PlayingLogsWritten.
 */
module PlayingLogsRuns {
  import opened PlayingLogsSpec
  import opened StringOrder

  // ---------- Bounds ----------

  predicate Short(h: History, bound: nat) { forall kind: Kind :: |Logged(kind, h)| < bound }

  /** Live logs are under the report size; a report is sent as soon as one reaches it. */
  predicate Bounded(s: Logs) {
    && (forall b :: b in s.live ==> Short(s.live[b], REPORT_SIZE))
    && (forall i :: 0 <= i < |s.flushed| ==> Short(s.flushed[i].history, REPORT_SIZE + 1))
  }

  lemma NoLogsYet()
    ensures Short([], REPORT_SIZE)
  {
    forall kind: Kind
      ensures Logged(kind, []) == []
    {
    }
  }

  /** An update makes its own log grow by at most one, and no other log at all. */
  lemma UpdateAddsOne(h: History, t: Timed)
    requires Short(h, REPORT_SIZE)
    ensures Short(h + [t], REPORT_SIZE + 1)
    ensures !IsFull(t.update, h + [t]) ==> Short(h + [t], REPORT_SIZE)
  {
    hide Logged;
    forall kind: Kind
      ensures |Logged(kind, h + [t])| <= REPORT_SIZE
      ensures !IsFull(t.update, h + [t]) ==> |Logged(kind, h + [t])| < REPORT_SIZE
    {
      LoggedGrows(kind, h, t);
      OwnKind(kind, t);
      assert |Logged(kind, h)| < REPORT_SIZE;
    }
  }

  lemma OwnKind(kind: Kind, t: Timed)
    ensures |EntryFor(kind, t)| == if KindOf(t.update) == [kind] then 1 else 0
  {
  }

  lemma FlushKeepsBounds(s: Logs, b: string)
    requires Bounded(s)
    ensures Bounded(Flushed(s, b))
  {
    hide Short;
    if b in s.live { ShortIsShorter(s.live[b]); }
  }

  lemma ShortIsShorter(h: History)
    requires Short(h, REPORT_SIZE)
    ensures Short(h, REPORT_SIZE + 1)
  {
  }

  lemma UpdateKeepsBounds(s: Logs, b: string, t: Timed)
    requires Bounded(s)
    ensures Bounded(AfterUpdate(s, b, t))
  {
    hide Short, IsFull;
    NoLogsYet();
    UpdateAddsOne(HistoryOf(s, b), t);
  }

  lemma {:induction false} FlushEachKeepsBounds(s: Logs, keys: seq<string>)
    requires Bounded(s)
    ensures Bounded(FlushedEach(s, keys))
    decreases |keys|
  {
    if keys != [] {
      FlushEachKeepsBounds(s, keys[..|keys| - 1]);
      FlushKeepsBounds(FlushedEach(s, keys[..|keys| - 1]), keys[|keys| - 1]);
    }
  }

  lemma StepKeepsBounds(s: Logs, op: Op)
    requires Bounded(s)
    ensures Bounded(Step(s, op))
  {
    hide Bounded;
    match op
    case Updated(b, t) => UpdateKeepsBounds(s, b, t);
    case Reported(b) => FlushKeepsBounds(s, b);
    case ReportedAll => FlushEachKeepsBounds(s, Sorted(s.live.Keys));
  }

  lemma {:induction false} RunsKeepBounds(s: Logs, ops: seq<Op>)
    requires Bounded(s)
    ensures Bounded(Run(s, ops))
    decreases |ops|
  {
    if ops != [] {
      RunsKeepBounds(s, ops[..|ops| - 1]);
      StepKeepsBounds(Run(s, ops[..|ops| - 1]), ops[|ops| - 1]);
    }
  }

  // ---------- Conservation ----------

  /** The updates of a bundle in a run. */
  function SentTo(b: string, ops: seq<Op>): History {
    if ops == [] then [] else
      var op := ops[|ops| - 1];
      SentTo(b, ops[..|ops| - 1]) + if op.Updated? && op.bundleName == b then [op.t] else []
  }

  /** The updates of a bundle in its reports, one report after the other. */
  function ReportedOf(b: string, flushed: seq<Flush>): History {
    if flushed == [] then [] else
      var f := flushed[|flushed| - 1];
      ReportedOf(b, flushed[..|flushed| - 1]) + if f.bundleName == b then f.history else []
  }

  /** Everything a bundle has been through: what is reported, then what is live. */
  function Account(b: string, s: Logs): History { ReportedOf(b, s.flushed) + HistoryOf(s, b) }

  lemma FlushMovesAccounts(s: Logs, bundleName: string, b: string)
    ensures Account(b, Flushed(s, bundleName)) == Account(b, s)
  {
    if bundleName in s.live {
      var f := Flush(bundleName, s.live[bundleName]);
      assert (s.flushed + [f])[..|s.flushed|] == s.flushed;
    }
  }

  lemma RecordAddsToAccount(s: Logs, bundleName: string, t: Timed, b: string)
    ensures Account(b, Recorded(s, bundleName, t)) == Account(b, s) + if b == bundleName then [t] else []
  {
  }

  lemma {:induction false} FlushEachMovesAccounts(s: Logs, keys: seq<string>, b: string)
    ensures Account(b, FlushedEach(s, keys)) == Account(b, s)
    decreases |keys|
  {
    hide Account;
    if keys != [] {
      FlushEachMovesAccounts(s, keys[..|keys| - 1], b);
      FlushMovesAccounts(FlushedEach(s, keys[..|keys| - 1]), keys[|keys| - 1], b);
    }
  }

  lemma StepAccounts(s: Logs, op: Op, b: string)
    ensures Account(b, Step(s, op)) == Account(b, s) + if op.Updated? && op.bundleName == b then [op.t] else []
  {
    hide Account, Recorded, Flushed, FlushedEach, IsFull;
    match op
    case Updated(bundleName, t) =>
      RecordAddsToAccount(s, bundleName, t, b);
      FlushMovesAccounts(Recorded(s, bundleName, t), bundleName, b);
    case Reported(name) =>
      FlushMovesAccounts(s, name, b);
    case ReportedAll =>
      FlushEachMovesAccounts(s, Sorted(s.live.Keys), b);
  }

  /**
   In every run the histories behind a bundle's reports and its live one are together all its updates, in the
   order in which they came. (The histories: a written log leaves updates out.)
   */
  lemma {:induction false} UpdatesAreConserved(s: Logs, ops: seq<Op>, b: string)
    ensures Account(b, Run(s, ops)) == Account(b, s) + SentTo(b, ops)
    decreases |ops|
  {
    hide Account, Step;
    if ops == [] {
      assert Account(b, s) + [] == Account(b, s);
    } else {
      UpdatesAreConserved(s, ops[..|ops| - 1], b);
      StepAccounts(Run(s, ops[..|ops| - 1]), ops[|ops| - 1], b);
    }
  }

  // ---------- Reporting everything ----------

  function Flushes(s: Logs, keys: seq<string>): seq<Flush>
    requires forall i :: 0 <= i < |keys| ==> keys[i] in s.live
  {
    seq(|keys|, i requires 0 <= i < |keys| => Flush(keys[i], s.live[keys[i]]))
  }

  predicate Distinct(keys: seq<string>) { forall i, j :: 0 <= i < j < |keys| ==> keys[i] != keys[j] }

  function Without(s: Logs, keys: seq<string>): map<string, History> { s.live - (set k | k in keys) }

  lemma OneMoreFlush(s: Logs, init: seq<string>, last: string)
    requires last !in init && last in s.live && forall i :: 0 <= i < |init| ==> init[i] in s.live
    ensures last in Without(s, init) && Without(s, init)[last] == s.live[last]
    ensures Without(s, init) - {last} == Without(s, init + [last])
    ensures Flushes(s, init) + [Flush(last, s.live[last])] == Flushes(s, init + [last])
  {
  }

  lemma {:induction false} FlushEachFlushesEach(s: Logs, keys: seq<string>)
    requires Distinct(keys) && forall i :: 0 <= i < |keys| ==> keys[i] in s.live
    ensures FlushedEach(s, keys) == Logs(Without(s, keys), s.flushed + Flushes(s, keys))
    decreases |keys|
  {
    if keys == [] {
      assert Without(s, keys) == s.live && s.flushed + Flushes(s, keys) == s.flushed;
    } else {
      var n := |keys| - 1;
      var init, last := keys[..n], keys[n];
      assert keys == init + [last] && last !in init;
      FlushEachFlushesEach(s, init);
      OneMoreFlush(s, init, last);
      hide Without, Flushes;
      assert s.flushed + Flushes(s, init) + [Flush(last, s.live[last])] ==
             s.flushed + (Flushes(s, init) + [Flush(last, s.live[last])]);
    }
  }

  /** Reporting all emits every live bundle exactly once, in key order, and leaves none. */
  lemma ReportAllEmptiesTheMap(s: Logs)
    ensures var keys := Sorted(s.live.Keys);
            Distinct(keys) && (forall k :: k in s.live <==> k in keys) && |keys| == |s.live|
            && Step(s, ReportedAll) == Logs(map[], s.flushed + Flushes(s, keys))
  {
    var keys := Sorted(s.live.Keys);
    SortedListsEach(s.live.Keys);
    forall i, j | 0 <= i < j < |keys|
      ensures keys[i] != keys[j]
    {
      LessIsStrict(keys[i], keys[j]);
    }
    FlushEachFlushesEach(s, keys);
    assert Without(s, keys) == map[];
    assert |s.live.Keys| == |s.live|;
  }
}
