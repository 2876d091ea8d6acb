/** Which committed rows get their cache write and their events, and that an effect cut off
    is cut off for good. */
module BidEvents {
  import opened BidDomain
  import opened CriticalPath
  import opened BidSafety
  import opened BidEffects
  import opened BidRuns
  import opened BidLoss
  import opened SequentialBids

  /** What is to follow a committed row; the script only an accepted one. */
  datatype Effect = ScriptCall | UpdateEvent | ResultEvent

  ghost predicate Due(e: Effect, r: Row) {
    e.ScriptCall? ==> r.accepted
  }

  ghost predicate Had(t: State, e: Effect, id: Id) {
    match e
    case ScriptCall => id in t.arbitrated
    case UpdateEvent => Published(t.updates, id)
    case ResultEvent => Published(t.results, id)
  }

  /** The effect is still ahead of the message in flight. */
  predicate Ahead(e: Effect, stage: Stage) {
    match e
    case ScriptCall => stage.Stored?
    case UpdateEvent => stage.Stored? || stage.Arbitrated?
    case ResultEvent => Storing(stage)
  }

  ghost predicate Awaits(t: State, e: Effect, p: nat, id: Id) {
    p < |t.parts| && Ahead(e, t.parts[p].stage) && t.parts[p].stage.flight.bid.id == id
  }

  /** Among the first `k` steps is an exception, or a crash, while the effect was ahead. */
  ghost predicate CutOff(c: Config, s: State, steps: seq<Step>, k: nat, e: Effect, p: nat, id: Id)
    requires Executable(c, s, steps) && k <= |steps|
  {
    exists n :: 0 <= n < k && Awaits(StateAt(c, s, steps, n), e, p, id) && Breaks(steps[n], p)
  }

  // ---- one step ---------------------------------------------------------------------------

  /** An effect that is ahead has not taken place. */
  lemma AwaitedNotHad(t: State, e: Effect, p: nat, id: Id)
    requires EffectInv(t) && Awaits(t, e, p, id)
    ensures !Had(t, e, id)
  {
    assert PendingInv(t, t.parts[p].stage);
  }

  /** A step takes an effect only from the partition that awaits it. */
  lemma EffectStep(c: Config, t: State, a: Step, e: Effect, id: Id)
    requires Enabled(c, t, a)
    ensures Had(t, e, id) ==> Had(Apply(c, t, a), e, id)
    ensures Had(Apply(c, t, a), e, id) && !Had(t, e, id) ==> Target(a).Some? && Awaits(t, e, Target(a).value, id)
    ensures Had(Apply(c, t, a), e, id) && !Had(t, e, id) ==> a.RunScript? || a.Notify? || a.Publish?
  {
    match e
    case ScriptCall =>
    case UpdateEvent => if a.Notify? { PublishedAppend(t.updates, EventOf(t.parts[a.p].stage.flight), id); }
    case ResultEvent => if a.Publish? { PublishedAppend(t.results, EventOf(t.parts[a.p].stage.flight), id); }
  }

  /** An effect starts to be ahead when the row is committed. */
  lemma AwaitsFrom(c: Config, t: State, a: Step, e: Effect, p: nat, id: Id)
    requires Enabled(c, t, a) && Awaits(Apply(c, t, a), e, p, id) && !Awaits(t, e, p, id)
    ensures a == StoreRow(p) && t.parts[p].stage.flight.bid.id == id
  {
    assert Apply(c, t, a).parts[p] == PartAfter(c, t, a, p);
  }

  /** It stops being ahead when it takes place, or is cut off. */
  lemma AwaitsUntil(c: Config, t: State, a: Step, e: Effect, p: nat, r: Row)
    requires Enabled(c, t, a) && Awaits(t, e, p, r.bid.id) && !Awaits(Apply(c, t, a), e, p, r.bid.id)
    requires t.parts[p].stage.flight.verdict.Accepted? == r.accepted && Due(e, r)
    ensures Breaks(a, p) || Had(Apply(c, t, a), e, r.bid.id)
  {
    var t' := Apply(c, t, a);
    assert t'.parts[p] == PartAfter(c, t, a, p);
    if !Breaks(a, p) {
      match e
      case ScriptCall => assert a == RunScript(p);
      case UpdateEvent => PublishedAppend(t.updates, EventOf(t.parts[p].stage.flight), r.bid.id);
      case ResultEvent => PublishedAppend(t.results, EventOf(t.parts[p].stage.flight), r.bid.id);
    }
  }

  lemma BreakingEnds(c: Config, t: State, a: Step, e: Effect, p: nat, id: Id)
    requires Enabled(c, t, a) && Awaits(t, e, p, id) && Breaks(a, p)
    ensures !Awaits(Apply(c, t, a), e, p, id) && (Had(Apply(c, t, a), e, id) ==> Had(t, e, id))
  {
    assert Apply(c, t, a).parts[p] == PartAfter(c, t, a, p);
  }

  /** The message whose effects are ahead has the row that carries its id. */
  lemma AwaitedRow(c: Config, t: State, e: Effect, q: nat, i: nat)
    requires TableInv(c, t) && i < |t.rows| && Awaits(t, e, q, t.rows[i].bid.id)
    ensures t.rows[i] == RowOf(q, t.parts[q].stage.flight)
  {
    var k := StorageHasRow(c, t, q);
    assert k == i by { assert RowsUnique(t.rows); }
  }

  // ---- whole runs -------------------------------------------------------------------------

  lemma CutOffNext(c: Config, s: State, steps: seq<Step>, k: nat, e: Effect, p: nat, id: Id)
    requires Executable(c, s, steps) && k < |steps|
    ensures CutOff(c, s, steps, k + 1, e, p, id)
            <==> CutOff(c, s, steps, k, e, p, id) || (Awaits(StateAt(c, s, steps, k), e, p, id) && Breaks(steps[k], p))
  {
  }

  /** Three fates, of which one is that of each effect of each row. */
  ghost predicate OneFate(c: Config, s: State, steps: seq<Step>, k: nat, e: Effect, r: Row)
    requires Executable(c, s, steps) && k <= |steps|
  {
    var t := StateAt(c, s, steps, k);
    var had, awaits, cut := Had(t, e, r.bid.id), Awaits(t, e, r.partition, r.bid.id),
      CutOff(c, s, steps, k, e, r.partition, r.bid.id);
    (had && !awaits && !cut) || (!had && awaits && !cut) || (!had && !awaits && cut)
  }

  /** A row's effects are ahead once it is committed, and nothing happened to them before. */
  lemma FreshFate(c: Config, s: State, steps: seq<Step>, k: nat, e: Effect, i: nat)
    requires Initial(s) && Executable(c, s, steps) && k < |steps|
    requires |StateAt(c, s, steps, k).rows| <= i < |StateAt(c, s, steps, k + 1).rows|
    ensures OneFate(c, s, steps, k + 1, e, StateAt(c, s, steps, k + 1).rows[i])
  {
    var t, t', r := StateAt(c, s, steps, k), StateAt(c, s, steps, k + 1), StateAt(c, s, steps, k + 1).rows[i];
    Next(c, s, steps, k);
    InvAt(c, s, steps, k);
    InvAt(c, s, steps, k + 1);
    NewRowAwaits(c, t, steps[k], e, i);
    hide StateAt, Initial, Executable, Exec, Enabled, Apply, Awaits, Had, LogInv, TableInv, EffectInv, CacheInv;
    AwaitedNotHad(t', e, r.partition, r.bid.id);
    CutOffNext(c, s, steps, k, e, r.partition, r.bid.id);
    if CutOff(c, s, steps, k, e, r.partition, r.bid.id) { CutOffHasRow(c, s, steps, k, e, r.partition, r.bid.id); }
  }

  lemma NewRowAwaits(c: Config, t: State, a: Step, e: Effect, i: nat)
    requires TableInv(c, t) && Enabled(c, t, a) && TableInv(c, Apply(c, t, a)) && |t.rows| <= i < |Apply(c, t, a).rows|
    ensures var r := Apply(c, t, a).rows[i];
            && Awaits(Apply(c, t, a), e, r.partition, r.bid.id) && !Awaits(t, e, r.partition, r.bid.id)
            && !HasId(t.rows, r.bid.id)
  {
    var t' := Apply(c, t, a);
    assert t'.parts[a.p] == PartAfter(c, t, a, a.p);
    assert RowsUnique(t'.rows);
    forall j | 0 <= j < |t.rows| ensures t.rows[j].bid.id != t'.rows[i].bid.id { assert t'.rows[j] == t.rows[j]; }
  }

  /** What was cut off belonged to a row. */
  lemma CutOffHasRow(c: Config, s: State, steps: seq<Step>, k: nat, e: Effect, p: nat, id: Id)
    requires Initial(s) && Executable(c, s, steps) && k <= |steps| && CutOff(c, s, steps, k, e, p, id)
    ensures HasId(StateAt(c, s, steps, k).rows, id)
  {
    var n :| 0 <= n < k && Awaits(StateAt(c, s, steps, n), e, p, id) && Breaks(steps[n], p);
    InvAt(c, s, steps, n);
    var i := StorageHasRow(c, StateAt(c, s, steps, n), p);
    RowsLater(c, s, steps, n, k);
    assert StateAt(c, s, steps, k).rows[i] == StateAt(c, s, steps, n).rows[i];
  }

  /** One more step keeps each row's effect in one of the three fates. */
  lemma FateStep(c: Config, s: State, steps: seq<Step>, k: nat, e: Effect, i: nat)
    requires Initial(s) && Executable(c, s, steps) && k < |steps| && i < |StateAt(c, s, steps, k).rows|
    requires var r := StateAt(c, s, steps, k).rows[i]; Due(e, r) && OneFate(c, s, steps, k, e, r)
    ensures OneFate(c, s, steps, k + 1, e, StateAt(c, s, steps, k).rows[i])
  {
    var t, t', a, r := StateAt(c, s, steps, k), StateAt(c, s, steps, k + 1), steps[k], StateAt(c, s, steps, k).rows[i];
    Next(c, s, steps, k);
    InvAt(c, s, steps, k);
    InvAt(c, s, steps, k + 1);
    CutOffNext(c, s, steps, k, e, r.partition, r.bid.id);
    EffectStep(c, t, a, e, r.bid.id);
    FateMoves(c, t, a, e, i);
    hide StateAt, Initial, Executable, Exec, Enabled, Apply, Awaits, Had, LogInv, TableInv, EffectInv, CacheInv, CutOff;
  }

  /** How the fate of a row's effect moves. */
  lemma FateMoves(c: Config, t: State, a: Step, e: Effect, i: nat)
    requires Inv(c, t) && Enabled(c, t, a) && Inv(c, Apply(c, t, a)) && i < |t.rows| && Due(e, t.rows[i])
    ensures var r, t' := t.rows[i], Apply(c, t, a);
            var p, id := r.partition, r.bid.id;
            && (Awaits(t', e, p, id) ==> Awaits(t, e, p, id) && !Breaks(a, p) && !Had(t', e, id))
            && (Awaits(t, e, p, id) && !Awaits(t', e, p, id)
                ==> (Breaks(a, p) && !Had(t', e, id)) || (!Breaks(a, p) && Had(t', e, id)))
            && (Had(t', e, id) && !Had(t, e, id) ==> Awaits(t, e, p, id))
            && (Had(t, e, id) ==> Had(t', e, id))
  {
    var r, t' := t.rows[i], Apply(c, t, a);
    var p, id := r.partition, r.bid.id;
    hide LogInv, TableInv, EffectInv, CacheInv, Apply, Enabled, Awaits, Had;
    EffectStep(c, t, a, e, id);
    if Awaits(t', e, p, id) {
      AwaitedNotHad(t', e, p, id);
      if !Awaits(t, e, p, id) { NotStoredAgain(c, t, a, e, p, i); }
    }
    if Awaits(t, e, p, id) {
      AwaitedNotHad(t, e, p, id);
      AwaitedRow(c, t, e, p, i);
      if Breaks(a, p) { BreakingEnds(c, t, a, e, p, id); }
      if !Awaits(t', e, p, id) { AwaitsUntil(c, t, a, e, p, r); }
    }
    if Had(t', e, id) && !Had(t, e, id) { AwaitedRow(c, t, e, Target(a).value, i); }
  }

  lemma NotStoredAgain(c: Config, t: State, a: Step, e: Effect, p: nat, i: nat)
    requires Enabled(c, t, a) && i < |t.rows| && !Awaits(t, e, p, t.rows[i].bid.id)
    ensures !Awaits(Apply(c, t, a), e, p, t.rows[i].bid.id)
  {
    if Awaits(Apply(c, t, a), e, p, t.rows[i].bid.id) { AwaitsFrom(c, t, a, e, p, t.rows[i].bid.id); }
  }

  lemma {:induction false} Fates(c: Config, s: State, steps: seq<Step>, k: nat, e: Effect, i: nat)
    requires Initial(s) && Executable(c, s, steps) && k <= |steps| && i < |StateAt(c, s, steps, k).rows|
    requires Due(e, StateAt(c, s, steps, k).rows[i])
    ensures OneFate(c, s, steps, k, e, StateAt(c, s, steps, k).rows[i])
    decreases k
  {
    assert k > 0 by { NoRowsAtFirst(c, s, steps); }
    hide StateAt, Initial, Executable, Exec, OneFate, Due, Apply, Enabled;
    Next(c, s, steps, k - 1);
    RowsGrow(c, StateAt(c, s, steps, k - 1), steps[k - 1]);
    if i < |StateAt(c, s, steps, k - 1).rows| {
      Fates(c, s, steps, k - 1, e, i);
      FateStep(c, s, steps, k - 1, e, i);
    } else {
      FreshFate(c, s, steps, k - 1, e, i);
    }
  }

  /** In every run a committed row has had its cache write (if accepted), its update or its
      result event exactly if that is not still ahead of it in flight and was never cut off
      by an exception or a crash: a replay is refused and makes up for nothing. */
  lemma {:induction false} EffectExactlyWhen(c: Config, s: State, steps: seq<Step>, e: Effect, i: nat)
    requires Initial(s) && Executable(c, s, steps) && i < |Exec(c, s, steps).rows| && Due(e, Exec(c, s, steps).rows[i])
    ensures var t := Exec(c, s, steps); var r := t.rows[i];
            Had(t, e, r.bid.id)
            <==> !Awaits(t, e, r.partition, r.bid.id) && !CutOff(c, s, steps, |steps|, e, r.partition, r.bid.id)
  {
    assert steps[..|steps|] == steps;
    assert StateAt(c, s, steps, |steps|) == Exec(c, s, steps);
    Fates(c, s, steps, |steps|, e, i);
  }

  /** An effect cut off never takes place, however long the run goes on. */
  lemma {:induction false} CutOffForGood(c: Config, s: State, steps: seq<Step>, j: nat, k: nat, e: Effect, i: nat)
    requires Initial(s) && Executable(c, s, steps) && j <= k <= |steps| && i < |StateAt(c, s, steps, j).rows|
    requires var r := StateAt(c, s, steps, j).rows[i]; Due(e, r) && CutOff(c, s, steps, j, e, r.partition, r.bid.id)
    ensures !Had(StateAt(c, s, steps, k), e, StateAt(c, s, steps, j).rows[i].bid.id)
  {
    hide StateAt, Initial, Executable, Exec, Due, Had, Awaits;
    RowsLater(c, s, steps, j, k);
    assert StateAt(c, s, steps, k).rows[i] == StateAt(c, s, steps, j).rows[i];
    Fates(c, s, steps, k, e, i);
  }
}
