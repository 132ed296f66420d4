/**
 * The coalescing scheduler of the translation handler: at most one run per key,
 * and requests that arrive during a run are answered by one rerun.
 */
module TranslationScheduler {

  type Key = string
  type RunId = nat

  /** What has happened, in order. */
  datatype Happening = Requested(key: Key) | Started(key: Key, run: RunId) | Finished(run: RunId)

  /** The request at position `i` is followed by a run of its key. */
  ghost predicate Served(log: seq<Happening>, i: nat)
    requires i < |log| && log[i].Requested?
  {
    exists j :: i < j < |log| && log[j].Started? && log[j].key == log[i].key
  }

  lemma ServedStays(log: seq<Happening>, h: Happening, i: nat)
    requires i < |log| && log[i].Requested? && Served(log, i)
    ensures Served(log + [h], i)
  {
    var j :| i < j < |log| && log[j].Started? && log[j].key == log[i].key;
    assert (log + [h])[j] == log[j];
  }

  /** A request is still open exactly when no run of its key has started since. */
  ghost predicate Pending(log: seq<Happening>, key: Key) {
    exists i :: 0 <= i < |log| && log[i] == Requested(key) && !Served(log, i)
  }

  lemma PendingAfterRequest(log: seq<Happening>, key: Key)
    ensures Pending(log + [Requested(key)], key)
  {
    var now := log + [Requested(key)];
    assert now[|log|] == Requested(key) && !Served(now, |log|);
  }

  /** A request or an end of a run settles nothing and, for other keys, opens nothing. */
  lemma PendingKept(log: seq<Happening>, h: Happening, key: Key)
    requires !h.Started? || h.key != key
    requires h != Requested(key)
    ensures Pending(log + [h], key) <==> Pending(log, key)
  {
    var now := log + [h];
    if Pending(log, key) {
      var i :| 0 <= i < |log| && log[i] == Requested(key) && !Served(log, i);
      assert now[i] == log[i];
    }
    if Pending(now, key) {
      var i :| 0 <= i < |now| && now[i] == Requested(key) && !Served(now, i);
      assert i < |log| && now[i] == log[i];
      if Served(log, i) { ServedStays(log, h, i); }
    }
  }

  /** A start serves every request of its key. */
  lemma NothingPendingAfterStart(log: seq<Happening>, key: Key, run: RunId)
    ensures !Pending(log + [Started(key, run)], key)
  {
    var now := log + [Started(key, run)];
    forall i | 0 <= i < |now| && now[i] == Requested(key) ensures Served(now, i) {
      assert now[|log|] == Started(key, run);
    }
  }

  /** Run `r` of `key` has started and not ended. */
  ghost predicate ActiveIn(log: seq<Happening>, r: RunId, key: Key) {
    Started(key, r) in log && Finished(r) !in log
  }

  lemma ActiveStep(log: seq<Happening>, h: Happening)
    ensures forall r: RunId, k :: ActiveIn(log + [h], r, k) <==>
      h != Finished(r) && (ActiveIn(log, r, k) || (h == Started(k, r) && Finished(r) !in log))
  {
  }

  /** Number of runs started so far. */
  ghost function Starts(log: seq<Happening>): nat {
    if log == [] then 0 else Starts(log[..|log| - 1]) + if log[|log| - 1].Started? then 1 else 0
  }

  lemma StartsStep(log: seq<Happening>, h: Happening)
    ensures Starts(log + [h]) == Starts(log) + if h.Started? then 1 else 0
  {
    assert (log + [h])[..|log|] == log;
  }

  // ----- What ought to happen -----

  datatype Event = Request(key: Key) | WorkEnds(run: RunId)

  /** What an event adds to the log: a request starts a run unless one of its key
      is active; the end of an active run starts the next if a request is open. */
  ghost function Response(log: seq<Happening>, e: Event): seq<Happening> {
    match e
    case Request(key) =>
      [Requested(key)] + if exists r :: ActiveIn(log, r, key) then [] else [Started(key, Starts(log))]
    case WorkEnds(run) =>
      if exists key :: ActiveIn(log, run, key) then
        var key :| ActiveIn(log, run, key);
        [Finished(run)] + if Pending(log, key) then [Started(key, Starts(log))] else []
      else []
  }

  /** The log of a whole execution. */
  ghost function History(events: seq<Event>): seq<Happening> {
    if events == [] then []
    else
      var log := History(events[..|events| - 1]);
      log + Response(log, events[|events| - 1])
  }

  // ----- What the scheduler's fields say about the log -----

  /** The active runs and the number of the next one are those of the log. */
  ghost predicate Logged(log: seq<Happening>, active: map<RunId, Key>, nextRun: RunId) {
    && nextRun == Starts(log)
    && (forall r, k :: ActiveIn(log, r, k) <==> r in active && active[r] == k)
    && (forall h :: h in log && !h.Requested? ==> h.run < nextRun)
  }

  lemma NextIsNew(log: seq<Happening>, active: map<RunId, Key>, nextRun: RunId)
    requires Logged(log, active, nextRun)
    ensures nextRun !in active
  {
    assert forall r :: r in active ==> ActiveIn(log, r, active[r]);
  }

  /** One active run per running key, and no other. */
  ghost predicate Tracked(running: map<Key, RunId>, active: map<RunId, Key>, rerun: set<Key>) {
    && (forall r :: r in active ==> active[r] in running && running[active[r]] == r)
    && (forall k :: k in running ==> running[k] in active && active[running[k]] == k)
    && rerun <= running.Keys
  }

  lemma TrackedStart(running: map<Key, RunId>, active: map<RunId, Key>, rerun: set<Key>, key: Key, run: RunId)
    requires Tracked(running, active, rerun) && key !in running && run !in active
    ensures Tracked(running[key := run], active[run := key], rerun)
  {
  }

  lemma TrackedFinish(running: map<Key, RunId>, active: map<RunId, Key>, rerun: set<Key>, run: RunId)
    requires Tracked(running, active, rerun) && run in active
    ensures var key := active[run]; key in running && running[key] == run
    ensures forall k :: k in running && running[k] == run ==> k == active[run]
    ensures Tracked(running - {active[run]}, active - {run}, rerun - {active[run]})
  {
  }

  lemma TrackedKey(running: map<Key, RunId>, active: map<RunId, Key>, rerun: set<Key>, key: Key)
    requires Tracked(running, active, rerun)
    ensures key in running <==> key in active.Values
    ensures if key in running then Tracked(running, active, rerun + {key}) else key !in rerun
  {
    if key in running { assert active[running[key]] == key; }
  }

  /** A flag exactly where a request is open. */
  ghost predicate Flagged(log: seq<Happening>, rerun: set<Key>) {
    forall k :: k in rerun <==> Pending(log, k)
  }

  lemma LoggedRequest(log: seq<Happening>, active: map<RunId, Key>, nextRun: RunId, key: Key)
    requires Logged(log, active, nextRun)
    ensures Logged(log + [Requested(key)], active, nextRun)
  {
    StartsStep(log, Requested(key));
    ActiveStep(log, Requested(key));
  }

  lemma LoggedStart(log: seq<Happening>, active: map<RunId, Key>, nextRun: RunId, key: Key)
    requires Logged(log, active, nextRun)
    ensures Logged(log + [Started(key, nextRun)], active[nextRun := key], nextRun + 1)
  {
    StartsStep(log, Started(key, nextRun));
    ActiveStep(log, Started(key, nextRun));
    assert forall k :: Started(k, nextRun) !in log && Finished(nextRun) !in log;
  }

  lemma LoggedFinish(log: seq<Happening>, active: map<RunId, Key>, nextRun: RunId, run: RunId)
    requires Logged(log, active, nextRun) && run in active
    ensures Logged(log + [Finished(run)], active - {run}, nextRun)
  {
    StartsStep(log, Finished(run));
    ActiveStep(log, Finished(run));
    assert ActiveIn(log, run, active[run]);
  }

  lemma FlaggedRequest(log: seq<Happening>, rerun: set<Key>, key: Key)
    requires Flagged(log, rerun)
    ensures Flagged(log + [Requested(key)], rerun + {key})
  {
    PendingAfterRequest(log, key);
    forall k | k != key ensures Pending(log + [Requested(key)], k) <==> Pending(log, k) {
      PendingKept(log, Requested(key), k);
    }
  }

  /** A start needs no flag for its own key any more. */
  lemma FlaggedStart(log: seq<Happening>, rerun: set<Key>, key: Key, run: RunId)
    requires Flagged(log, rerun)
    ensures Flagged(log + [Started(key, run)], rerun - {key})
  {
    NothingPendingAfterStart(log, key, run);
    forall k | k != key ensures Pending(log + [Started(key, run)], k) <==> Pending(log, k) {
      PendingKept(log, Started(key, run), k);
    }
  }

  lemma FlaggedFinish(log: seq<Happening>, rerun: set<Key>, run: RunId)
    requires Flagged(log, rerun)
    ensures Flagged(log + [Finished(run)], rerun)
  {
    forall k ensures Pending(log + [Finished(run)], k) <==> Pending(log, k) {
      PendingKept(log, Finished(run), k);
    }
  }

  lemma ResponseToRequest(log: seq<Happening>, active: map<RunId, Key>, nextRun: RunId, key: Key)
    requires Logged(log, active, nextRun)
    ensures log + Response(log, Request(key)) ==
      if key in active.Values then log + [Requested(key)] else log + [Requested(key)] + [Started(key, nextRun)]
  {
    if key in active.Values {
      var r :| r in active && active[r] == key;
      assert ActiveIn(log, r, key);
    }
  }

  lemma ResponseToEnd(log: seq<Happening>, active: map<RunId, Key>, nextRun: RunId, rerun: set<Key>, run: RunId)
    requires Logged(log, active, nextRun) && Flagged(log, rerun)
    ensures log + Response(log, WorkEnds(run)) ==
      if run !in active then log
      else if active[run] in rerun then log + [Finished(run)] + [Started(active[run], nextRun)]
      else log + [Finished(run)]
  {
    if run in active {
      assert ActiveIn(log, run, active[run]);
    }
  }

  // ----- The scheduler -----

  class Scheduler {
    var running: map<Key, RunId>
    var rerun: set<Key>
    var nextRun: RunId
    ghost var active: map<RunId, Key>     // runs whose work has not ended
    ghost var log: seq<Happening>

    ghost predicate Valid()
      reads this
    {
      Tracked(running, active, rerun) && Logged(log, active, nextRun) && Flagged(log, rerun)
    }

    constructor ()
      ensures Valid() && running == map[] && log == []
    {
      running, rerun, nextRun, active, log := map[], {}, 0, map[], [];
    }

    /** The flag of the key is gone already; the start settles its open requests. */
    method Start(key: Key)
      requires Tracked(running, active, rerun) && Logged(log, active, nextRun) && Flagged(log, rerun + {key}) && key !in running && key !in rerun && nextRun !in active
      modifies this
      ensures Valid() && log == old(log) + [Started(key, old(nextRun))]
      ensures running == old(running)[key := old(nextRun)] && rerun == old(rerun)
    {
      hide Logged, Flagged, Tracked;
      TrackedStart(running, active, rerun, key, nextRun);
      LoggedStart(log, active, nextRun, key);
      FlaggedStart(log, rerun + {key}, key, nextRun);
      assert rerun + {key} - {key} == rerun;
      active := active[nextRun := key];
      running := running[key := nextRun];
      log := log + [Started(key, nextRun)];
      nextRun := nextRun + 1;
    }

    /** A request starts a run, or marks the active one for a rerun. */
    method Schedule(key: Key)
      requires Valid()
      modifies this
      ensures Valid()
      ensures log == old(log) + Response(old(log), Request(key))
      ensures key in old(running) ==> running == old(running) && rerun == old(rerun) + {key}
      ensures key !in old(running) ==> running == old(running)[key := old(nextRun)] && rerun == old(rerun)
    {
      hide Logged, Flagged, Tracked, Response, Pending, Served, ActiveIn, Starts;
      NextIsNew(log, active, nextRun);
      TrackedKey(running, active, rerun, key);
      ResponseToRequest(log, active, nextRun, key);
      LoggedRequest(log, active, nextRun, key);
      FlaggedRequest(log, rerun, key);
      log := log + [Requested(key)];
      if key in running {
        rerun := rerun + {key};
        return;
      }
      Start(key);
    }

    /** A run ends, well or badly; a request that came meanwhile starts the next one. */
    method Finish(run: RunId)
      requires Valid() && run in active
      modifies this
      ensures Valid()
      ensures log == old(log) + Response(old(log), WorkEnds(run))
      ensures var key := old(active)[run];
        if key in old(rerun)
        then running == old(running)[key := old(nextRun)] && rerun == old(rerun) - {key}
        else running == old(running) - {key} && rerun == old(rerun)
    {
      hide Logged, Flagged, Tracked, Response, Pending, Served, ActiveIn, Starts;
      NextIsNew(log, active, nextRun);
      TrackedFinish(running, active, rerun, run);
      ResponseToEnd(log, active, nextRun, rerun, run);
      LoggedFinish(log, active, nextRun, run);
      FlaggedFinish(log, rerun, run);
      var key :| key in running && running[key] == run;
      log := log + [Finished(run)];
      active := active - {run};
      running := running - {key};
      if key in rerun {
        rerun := rerun - {key};
        assert rerun + {key} == old(rerun);
        Start(key);
        assert running == old(running)[key := old(nextRun)];
      } else {
        assert rerun == rerun - {key};
      }
    }

    /** The check of `idle`: it returns only when every request ever made has been
        followed by a run, and no run is active. */
    method IdleReturns() returns (done: bool)
      requires Valid()
      ensures done <==> running == map[]
      ensures done ==> active == map[] && rerun == {}
      ensures done ==> forall i :: 0 <= i < |log| && log[i].Requested? ==> Served(log, i)
    {
      done := |running| == 0;
      if done {
        assert running == map[];
        assert active == map[] by { assert active.Keys == {}; }
        forall i | 0 <= i < |log| && log[i].Requested? ensures Served(log, i) {
          assert !Pending(log, log[i].key);
        }
      }
    }
  }

  /** The keys asked for, in order. */
  ghost function Asked(log: seq<Happening>): seq<Key> {
    if log == [] then []
    else Asked(log[..|log| - 1]) + if log[|log| - 1].Requested? then [log[|log| - 1].key] else []
  }

  ghost function Requests(events: seq<Event>): seq<Key> {
    if events == [] then []
    else Requests(events[..|events| - 1]) + if events[|events| - 1].Request? then [events[|events| - 1].key] else []
  }

  lemma {:induction false} AskedConcat(a: seq<Happening>, b: seq<Happening>)
    ensures Asked(a + b) == Asked(a) + Asked(b)
  {
    if b == [] {
      assert a + b == a;
    } else {
      assert (a + b)[..|a + b| - 1] == a + b[..|b| - 1];
      AskedConcat(a, b[..|b| - 1]);
    }
  }

  lemma AskedTwo(a: Happening, b: Happening)
    requires !b.Requested?
    ensures Asked([a]) == Asked([a, b]) == if a.Requested? then [a.key] else []
  {
    assert [a][..0] == [] && [a, b][..1] == [a];
  }

  lemma AskedResponse(log: seq<Happening>, e: Event)
    ensures Asked(Response(log, e)) == if e.Request? then [e.key] else []
  {
    var r := Response(log, e);
    if |r| == 1 { AskedTwo(r[0], Finished(0)); }
    if |r| == 2 { AskedTwo(r[0], r[1]); }
  }

  /** Every request is on the log, in order, and nothing else counts as one. */
  lemma {:induction false} HistoryAsks(events: seq<Event>)
    ensures Asked(History(events)) == Requests(events)
  {
    if events != [] {
      var front, last := events[..|events| - 1], events[|events| - 1];
      HistoryAsks(front);
      AskedResponse(History(front), last);
      AskedConcat(History(front), Response(History(front), last));
    }
  }

  /** In every run the scheduler does what the log alone prescribes. At most one
      run per key is active, every request is on the log, and each is served by a
      later run or has an active run that is marked to go again. */
  method Execute(events: seq<Event>) returns (s: Scheduler)
    ensures s.Valid()
    ensures s.log == History(events) && Asked(s.log) == Requests(events)
    ensures forall r, q :: r in s.active && q in s.active && s.active[r] == s.active[q] ==> r == q
    ensures forall i :: 0 <= i < |s.log| && s.log[i].Requested? ==>
      Served(s.log, i) || (s.log[i].key in s.running && s.log[i].key in s.rerun)
  {
    hide Response;
    s := new Scheduler();
    for i := 0 to |events|
      invariant fresh(s) && s.Valid() && s.log == History(events[..i])
    {
      assert events[..i + 1][..i] == events[..i];
      match events[i] {
        case Request(key) => s.Schedule(key);
        case WorkEnds(run) =>
          var known := IsActive(s, run);
          if known { s.Finish(run); } else { ResponseToEnd(s.log, s.active, s.nextRun, s.rerun, run); }
      }
    }
    assert events[..|events|] == events;
    HistoryAsks(events);
    forall i | 0 <= i < |s.log| && s.log[i].Requested? && !Served(s.log, i)
      ensures s.log[i].key in s.running && s.log[i].key in s.rerun
    {
      assert Pending(s.log, s.log[i].key);
    }
  }

  /** Only runs that were started and have not ended can end. */
  method IsActive(s: Scheduler, run: RunId) returns (known: bool)
    requires s.Valid()
    ensures known <==> run in s.active
  {
    known := exists k :: k in s.running && s.running[k] == run;
    if known {
      ghost var k :| k in s.running && s.running[k] == run;
    }
  }
}
