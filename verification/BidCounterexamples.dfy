/** Two messages on one partition show why the strong results need fail-stop runs:
    a failed bid that is passed over can be lost, or decided after a later bid. */
module BidCounterexamples {
  import opened BidDomain
  import opened CriticalPath
  import opened BidSafety
  import opened OffsetAccounting
  import opened BidEvents
  import opened BidLoss
  import opened BidRuns
  import opened BidEffects
  import opened SequentialBids

  const FIRST := Bid(1, 0, 0, 500)
  const SECOND := Bid(2, 0, 0, 500)
  const SECOND_ROW := Row(SECOND, true, 0, 1)

  /** One live auction that starts at zero, one user, one partition. */
  function Setting(): Config {
    Config(Reference(map[0 := 0], {0}), _ => 0)
  }

  /** The system with `part` as its only partition; the channels and the cache play no part. */
  ghost predicate At(s: State, part: Partition, rows: seq<Row>) {
    s.parts == [part] && s.rows == rows && s.live == {0}
  }

  const LOG := [Envelope(FIRST), Envelope(SECOND)]

  lemma Extend(c: Config, s: State, steps: seq<Step>, a: Step) returns (more: seq<Step>)
    requires Executable(c, s, steps) && Enabled(c, Exec(c, s, steps), a)
    ensures more == steps + [a] && Executable(c, s, more) && Exec(c, s, more) == Apply(c, Exec(c, s, steps), a)
  {
    more := steps + [a];
    assert more[..|more| - 1] == steps;
  }

  lemma Submits(t: State, part: Partition, m: Message)
    requires At(t, part, [])
    ensures Enabled(Setting(), t, Submit(0, m))
    ensures At(Apply(Setting(), t, Submit(0, m)), part.(log := part.log + [m]), [])
  {
  }

  lemma Takes(t: State, part: Partition, rows: seq<Row>)
    requires At(t, part, rows) && Resting(part.stage) && part.position < |part.log|
    ensures Enabled(Setting(), t, Take(0))
    ensures At(Apply(Setting(), t, Take(0)),
               part.(position := part.position + 1, stage := Taken(part.position), skipped := PassedOver(part)), rows)
  {
  }

  lemma Fails(t: State, part: Partition)
    requires At(t, part, []) && part.stage.Taken?
    ensures Enabled(Setting(), t, Fail(0))
    ensures At(Apply(Setting(), t, Fail(0)), part.(stage := Stalled(part.stage.offset)), [])
  {
  }

  lemma LooksSecond(t: State)
    requires At(t, Partition(LOG, 2, 0, Taken(1), 0, {0}), [])
    ensures Enabled(Setting(), t, Look(0))
    ensures At(Apply(Setting(), t, Look(0)), Partition(LOG, 2, 0, Looked(1, true), 0, {0}), [])
  {
  }

  lemma JudgesSecond(t: State)
    requires At(t, Partition(LOG, 2, 0, Looked(1, true), 0, {0}), [])
    ensures Enabled(Setting(), t, JudgeBid(0))
    ensures At(Apply(Setting(), t, JudgeBid(0)),
               Partition(LOG, 2, 0, Judged(Flight(1, SECOND, true, Accepted)), 0, {0}), [])
  {
  }

  lemma StoresSecond(t: State)
    requires At(t, Partition(LOG, 2, 0, Judged(Flight(1, SECOND, true, Accepted)), 0, {0}), [])
    ensures Enabled(Setting(), t, StoreRow(0))
    ensures At(Apply(Setting(), t, StoreRow(0)),
               Partition(LOG, 2, 0, Stored(Flight(1, SECOND, true, Accepted)), 2, {0}), [SECOND_ROW])
  {
  }

  lemma Finishes(t: State, f: Flight, rows: seq<Row>)
    requires At(t, Partition(LOG, 2, 0, Stored(f), 2, {0}), rows) && Enabled(Setting(), t, RunScript(0))
    ensures var t1 := Apply(Setting(), t, RunScript(0));
            && At(t1, Partition(LOG, 2, 0, Arbitrated(f), 2, {0}), rows) && Enabled(Setting(), t1, Notify(0))
            && var t2 := Apply(Setting(), t1, Notify(0));
               At(t2, Partition(LOG, 2, 0, Notified(f), 2, {0}), rows) && Enabled(Setting(), t2, Publish(0))
  {
  }

  lemma Commits(t: State, f: Flight, rows: seq<Row>)
    requires At(t, Partition(LOG, 2, 0, Notified(f), 2, {0}), rows) && Enabled(Setting(), t, Publish(0))
    ensures var t1 := Apply(Setting(), t, Publish(0));
            && At(t1, Partition(LOG, 2, 0, Done(f.offset), 2, {0}), rows)
            && Enabled(Setting(), t1, CommitOffsets(0, {}))
            && At(Apply(Setting(), t1, CommitOffsets(0, {})), Partition(LOG, 2, 2, Idle, 2, {0}), rows)
  {
  }

  lemma Restarts(t: State, part: Partition, rows: seq<Row>)
    requires At(t, part, rows)
    ensures Enabled(Setting(), t, Crash({0}))
    ensures At(Apply(Setting(), t, Crash({0})), part.(position := part.committed, stage := Idle), rows)
  {
  }

  lemma LooksFirst(t: State)
    requires At(t, Partition(LOG, 1, 0, Taken(0), 2, {0}), [SECOND_ROW])
    ensures Enabled(Setting(), t, Look(0))
    ensures At(Apply(Setting(), t, Look(0)), Partition(LOG, 1, 0, Looked(0, true), 2, {0}), [SECOND_ROW])
  {
  }

  lemma JudgesFirst(t: State)
    requires At(t, Partition(LOG, 1, 0, Looked(0, true), 2, {0}), [SECOND_ROW])
    ensures Enabled(Setting(), t, JudgeBid(0))
    ensures At(Apply(Setting(), t, JudgeBid(0)),
               Partition(LOG, 1, 0, Judged(Flight(0, FIRST, true, NotHighest)), 2, {0}), [SECOND_ROW])
  {
  }

  lemma StoresLate(t: State)
    requires At(t, Partition(LOG, 1, 0, Judged(Flight(0, FIRST, true, NotHighest)), 2, {0}), [SECOND_ROW])
    ensures Enabled(Setting(), t, StoreRow(0))
    ensures At(Apply(Setting(), t, StoreRow(0)),
               Partition(LOG, 1, 0, Stored(Flight(0, FIRST, true, NotHighest)), 2, {0}),
               [SECOND_ROW, Row(FIRST, false, 0, 0)])
  {
  }

  lemma SubmittedRun() returns (s: State, steps: seq<Step>)
    ensures Initial(s) && Executable(Setting(), s, steps) && StatusesFixed(steps)
    ensures At(Exec(Setting(), s, steps), Partition(LOG, 0, 0, Idle, 0, {}), [])
  {
    var c := Setting();
    s := State([Partition([], 0, 0, Idle, 0, {})], [], map[], [], [], [], {0});
    steps := [];
    hide Apply, Enabled, At;
    OnlyInitial(s);
    Submits(s, Partition([], 0, 0, Idle, 0, {}), Envelope(FIRST));
    steps := Extend(c, s, steps, Submit(0, Envelope(FIRST)));
    Submits(Exec(c, s, steps), Partition([] + [Envelope(FIRST)], 0, 0, Idle, 0, {}), Envelope(SECOND));
    steps := Extend(c, s, steps, Submit(0, Envelope(SECOND)));
    assert [] + [Envelope(FIRST)] + [Envelope(SECOND)] == LOG;
  }

  /** Both bids submitted, the first one failed before its row was committed, and the
      second one taken all the same. */
  lemma PassedOverRun() returns (s: State, steps: seq<Step>)
    ensures Initial(s) && Executable(Setting(), s, steps) && StatusesFixed(steps)
    ensures At(Exec(Setting(), s, steps), Partition(LOG, 2, 0, Taken(1), 0, {0}), [])
  {
    var c := Setting();
    hide Apply, Enabled, At;
    s, steps := SubmittedRun();
    Takes(Exec(c, s, steps), Partition(LOG, 0, 0, Idle, 0, {}), []);
    steps := Extend(c, s, steps, Take(0));
    Fails(Exec(c, s, steps), Partition(LOG, 1, 0, Taken(0), 0, {}));
    steps := Extend(c, s, steps, Fail(0));
    Takes(Exec(c, s, steps), Partition(LOG, 1, 0, Stalled(0), 0, {}), []);
    steps := Extend(c, s, steps, Take(0));
    assert {} + {0} == {0};
  }

  lemma OnlyInitial(s: State)
    requires s == State([Partition([], 0, 0, Idle, 0, {})], [], map[], [], [], [], {0})
    ensures Initial(s) && At(s, Partition([], 0, 0, Idle, 0, {}), [])
  {
  }

  /** ... and stored as an accepted bid. */
  lemma OvertakenRun() returns (s: State, steps: seq<Step>)
    ensures Initial(s) && Executable(Setting(), s, steps) && StatusesFixed(steps)
    ensures At(Exec(Setting(), s, steps), Partition(LOG, 2, 0, Stored(Flight(1, SECOND, true, Accepted)), 2, {0}),
               [SECOND_ROW])
  {
    hide Apply, Enabled, At;
    s, steps := PassedOverRun();
    LooksSecond(Exec(Setting(), s, steps));
    steps := Extend(Setting(), s, steps, Look(0));
    JudgesSecond(Exec(Setting(), s, steps));
    steps := Extend(Setting(), s, steps, JudgeBid(0));
    StoresSecond(Exec(Setting(), s, steps));
    steps := Extend(Setting(), s, steps, StoreRow(0));
  }

  /** The second bid goes through all its effects and the commit passes both. */
  lemma CommittedRun() returns (s: State, steps: seq<Step>)
    ensures Initial(s) && Executable(Setting(), s, steps) && StatusesFixed(steps)
    ensures At(Exec(Setting(), s, steps), Partition(LOG, 2, 2, Idle, 2, {0}), [SECOND_ROW])
  {
    hide Apply, Enabled, At;
    var c, f := Setting(), Flight(1, SECOND, true, Accepted);
    s, steps := OvertakenRun();
    ScriptIsReady(s, steps);
    Finishes(Exec(c, s, steps), f, [SECOND_ROW]);
    steps := Extend(c, s, steps, RunScript(0));
    steps := Extend(c, s, steps, Notify(0));
    Commits(Exec(c, s, steps), f, [SECOND_ROW]);
    steps := Extend(c, s, steps, Publish(0));
    steps := Extend(c, s, steps, CommitOffsets(0, {}));
  }

  lemma ScriptIsReady(s: State, steps: seq<Step>)
    requires Initial(s) && Executable(Setting(), s, steps)
    requires At(Exec(Setting(), s, steps), Partition(LOG, 2, 0, Stored(Flight(1, SECOND, true, Accepted)), 2, {0}),
                [SECOND_ROW])
    ensures Enabled(Setting(), Exec(Setting(), s, steps), RunScript(0))
  {
    hide Apply, Exec, Executable, LogInv, TableInv, EffectInv, CacheInv, AccountInv;
    RunKeepsInv(Setting(), s, steps);
    ScriptAlwaysReady(Setting(), Exec(Setting(), s, steps), 0);
  }

  /** A valid bid below the committed offset with no row. */
  lemma ABidCanBeLost() returns (s: State, steps: seq<Step>)
    ensures Initial(s) && Executable(Setting(), s, steps) && StatusesFixed(steps)
    ensures Lost(Setting(), Exec(Setting(), s, steps), 0, 0, FIRST)
  {
    hide Apply, Enabled, Exec, Executable, Initial;
    s, steps := CommittedRun();
  }

  /** After a restart the first bid is decided after the second and loses a tie it should
      have won: the table is not the fold of the log. */
  lemma ATieCanGoToTheLaterBid() returns (s: State, steps: seq<Step>)
    ensures Initial(s) && Executable(Setting(), s, steps) && StatusesFixed(steps)
    ensures var t := Exec(Setting(), s, steps);
            && |t.parts| == 1 && t.parts[0].log == LOG && t.parts[0].reached == 2
            && t.rows == [SECOND_ROW, Row(FIRST, false, 0, 0)]
            && Wins(Setting().ref, 0, LOG, 0) && TopRow(t.rows, 0, 0) && t.rows[0].offset == 1
  {
    s, steps := LateRun();
    hide Apply, Enabled, Exec, Executable, Initial;
    assert Counts(Setting().ref, 0, LOG, 0);
  }

  lemma LateRun() returns (s: State, steps: seq<Step>)
    ensures Initial(s) && Executable(Setting(), s, steps) && StatusesFixed(steps)
    ensures At(Exec(Setting(), s, steps), Partition(LOG, 1, 0, Stored(Flight(0, FIRST, true, NotHighest)), 2, {0}),
               [SECOND_ROW, Row(FIRST, false, 0, 0)])
  {
    hide Apply, Enabled, At;
    var c := Setting();
    s, steps := OvertakenRun();
    Restarts(Exec(c, s, steps), Partition(LOG, 2, 0, Stored(Flight(1, SECOND, true, Accepted)), 2, {0}), [SECOND_ROW]);
    steps := Extend(c, s, steps, Crash({0}));
    Takes(Exec(c, s, steps), Partition(LOG, 0, 0, Idle, 2, {0}), [SECOND_ROW]);
    steps := Extend(c, s, steps, Take(0));
    LooksFirst(Exec(c, s, steps));
    steps := Extend(c, s, steps, Look(0));
    JudgesFirst(Exec(c, s, steps));
    steps := Extend(c, s, steps, JudgeBid(0));
    StoresLate(Exec(c, s, steps));
    steps := Extend(c, s, steps, StoreRow(0));
  }

  /** The process dies after the second bid's row is committed: the row stays, and the bid's
      result event will never be published. */
  lemma AnEventCanBeLost() returns (s: State, steps: seq<Step>)
    ensures Initial(s) && Executable(Setting(), s, steps) && StatusesFixed(steps)
    ensures var t := Exec(Setting(), s, steps);
            && t.rows == [SECOND_ROW] && CutOff(Setting(), s, steps, |steps|, ResultEvent, 0, SECOND.id)
            && !Had(t, ResultEvent, SECOND.id)
  {
    hide Apply, Enabled, CutOff, Had;
    var f := Flight(1, SECOND, true, Accepted);
    s, steps := OvertakenRun();
    var n := |steps|;
    Restarts(Exec(Setting(), s, steps), Partition(LOG, 2, 0, Stored(f), 2, {0}), [SECOND_ROW]);
    var more := Extend(Setting(), s, steps, Crash({0}));
    assert more[..n] == steps;
    assert StateAt(Setting(), s, more, n) == Exec(Setting(), s, steps);
    CrashCutsOff(s, more, n);
    steps := more;
    EffectExactlyWhen(Setting(), s, steps, ResultEvent, 0);
  }

  lemma CrashCutsOff(s: State, steps: seq<Step>, n: nat)
    requires Executable(Setting(), s, steps) && |steps| == n + 1 && steps[n] == Crash({0})
    requires At(StateAt(Setting(), s, steps, n),
                Partition(LOG, 2, 0, Stored(Flight(1, SECOND, true, Accepted)), 2, {0}), [SECOND_ROW])
    ensures CutOff(Setting(), s, steps, |steps|, ResultEvent, 0, SECOND.id)
  {
    assert Awaits(StateAt(Setting(), s, steps, n), ResultEvent, 0, SECOND.id) && Breaks(steps[n], 0);
  }
}
