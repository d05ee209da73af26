/** What the queue does over runs of events: first come first served, and every fenced record is kept as it was
    evaluated. */
module QueueRuns {
  import opened ChessTypes
  import opened JobQueue

  // ----- the queue moves ---------------------------------------------------

  /** A claim takes the first waiting job and hands out its next attempt; without one nothing happens. */
  lemma ClaimTakesFirst(db: Db, now: int, worker: Option<string>, leaseSeconds: Option<int>, id: nat)
    ensures id < |db.jobs| && Waiting(db.jobs[id], now) && (forall i :: 0 <= i < id ==> !Waiting(db.jobs[i], now)) ==>
              Claimed(db, now, worker, leaseSeconds) ==
              (db.(jobs := db.jobs[id := db.jobs[id].(status := Running, worker := worker,
                                                      lease := LeaseEnd(now, leaseSeconds),
                                                      attempts := db.jobs[id].attempts + 1)]),
               Some(Claim(id, worker, db.jobs[id].attempts + 1)))
    ensures (forall i :: 0 <= i < |db.jobs| ==> !Waiting(db.jobs[i], now)) ==>
              Claimed(db, now, worker, leaseSeconds) == (db, None)
  {
    OldestIsClaimable(db.jobs, now, 0);
    hide OldestFrom;
  }

  /** A claim just handed out passes the fence. */
  lemma ClaimOwns(events: seq<Event>, now: int, worker: Option<string>, leaseSeconds: Option<int>, id: nat)
    requires id < |After(events).db.jobs| && Waiting(After(events).db.jobs[id], now)
    requires forall i :: 0 <= i < id ==> !Waiting(After(events).db.jobs[i], now)
    ensures var w, w' := After(events), After(events + [ClaimNext(now, worker, leaseSeconds)]);
            var c := Claim(id, worker, w.db.jobs[id].attempts + 1);
            w'.claims == w.claims + [c] && StillOwns(w'.db, c)
  {
    hide After;
    AfterStep(events, ClaimNext(now, worker, leaseSeconds));
    ClaimTakesFirst(After(events).db, now, worker, leaseSeconds, id);
  }

  /** Recording under a claim that passes the fence files exactly that evaluation and closes the job. */
  lemma RecordFiles(events: seq<Event>, c: Claim, eval: Evaluation)
    requires c in After(events).claims && StillOwns(After(events).db, c)
    ensures var db, db' := After(events).db, After(events + [Record(c, eval)]).db;
            db'.results == db.results + [Row(db.jobs[c.id].run, c.id, eval)]
            && c.id < |db'.jobs| && db'.jobs[c.id].status == Done
  {
    hide After;
    AfterStep(events, Record(c, eval));
  }

  /** A worker that claims a waiting job and records before anyone claims it again gets its evaluation filed,
      whatever other clients do meanwhile. */
  lemma ClaimedWorkIsFiled(events: seq<Event>, now: int, worker: Option<string>, leaseSeconds: Option<int>, id: nat,
                           more: seq<Event>, eval: Evaluation)
    requires id < |After(events).db.jobs| && Waiting(After(events).db.jobs[id], now)
    requires forall i :: 0 <= i < id ==> !Waiting(After(events).db.jobs[i], now)
    requires var start := events + [ClaimNext(now, worker, leaseSeconds)];
             var c := Claim(id, worker, After(events).db.jobs[id].attempts + 1);
             && (forall i :: 0 <= i < |more| ==> !Settles(more[i], c))
             && ClaimCount(After(start + more).claims, id) == ClaimCount(After(start).claims, id)
    ensures var start := events + [ClaimNext(now, worker, leaseSeconds)];
            var c := Claim(id, worker, After(events).db.jobs[id].attempts + 1);
            var db, db' := After(start + more).db, After(start + more + [Record(c, eval)]).db;
            id < |db.jobs| && db'.results == db.results + [Row(db.jobs[id].run, id, eval)]
  {
    hide After, ClaimCount;
    var start := events + [ClaimNext(now, worker, leaseSeconds)];
    var c := Claim(id, worker, After(events).db.jobs[id].attempts + 1);
    ClaimOwns(events, now, worker, leaseSeconds, id);
    OwnsUntilReclaimed(start, more, c);
    ClaimsStay(start, more, c);
    RecordFiles(start + more, c, eval);
  }

  lemma {:induction false} ClaimsStay(events: seq<Event>, more: seq<Event>, c: Claim)
    requires c in After(events).claims
    ensures c in After(events + more).claims
    decreases |more|
  {
    hide After;
    if more == [] {
      assert events + more == events;
    } else {
      var last := more[|more| - 1];
      var some := events + more[..|more| - 1];
      ClaimsStay(events, more[..|more| - 1], c);
      assert events + more == some + [last];
      AfterStep(some, last);
    }
  }

  // ----- first come, first served ------------------------------------------

  predicate AllEnqueue(events: seq<Event>) {
    forall i :: 0 <= i < |events| ==> events[i].Enqueue?
  }

  predicate AllClaimForGood(events: seq<Event>) {
    forall i :: 0 <= i < |events| ==> events[i].ClaimNext? && events[i].leaseSeconds.None?
  }

  lemma {:induction false} EnqueuedJobsWait(events: seq<Event>)
    requires AllEnqueue(events)
    ensures var w := After(events);
            && |w.db.jobs| == |events| && w.claims == []
            && forall i :: 0 <= i < |events| ==> w.db.jobs[i] == Job(events[i].run, events[i].kind, Queued, None, None, 0)
  {
    if events != [] {
      EnqueuedJobsWait(events[..|events| - 1]);
    }
  }

  /** After any enqueues on empty tables, claims without a lease hand out the jobs in order, each once. */
  lemma {:induction false} FirstComeFirstServed(enqueues: seq<Event>, claims: seq<Event>)
    requires AllEnqueue(enqueues) && AllClaimForGood(claims) && |claims| <= |enqueues|
    ensures var w := After(enqueues + claims);
            && |w.db.jobs| == |enqueues| && |w.claims| == |claims|
            && (forall i :: 0 <= i < |claims| ==> w.claims[i] == Claim(i, claims[i].worker, 1))
            && (forall i :: 0 <= i < |claims| ==> w.db.jobs[i].status == Running && w.db.jobs[i].lease.None?)
            && forall i :: |claims| <= i < |enqueues| ==> w.db.jobs[i].status == Queued && w.db.jobs[i].attempts == 0
    decreases |claims|
  {
    hide After;
    if claims == [] {
      assert enqueues + claims == enqueues;
      EnqueuedJobsWait(enqueues);
    } else {
      var n := |claims| - 1;
      var e := claims[n];
      FirstComeFirstServed(enqueues, claims[..n]);
      assert enqueues + claims == enqueues + claims[..n] + [e];
      AfterStep(enqueues + claims[..n], e);
      ClaimTakesFirst(After(enqueues + claims[..n]).db, e.now, e.worker, e.leaseSeconds, n);
    }
  }

  /** Behind finished jobs only, a queued job claimed at t for n seconds is handed out again at a later reading
      exactly when that is after t + n, as its second attempt. */
  lemma RecoveredAfterLease(events: seq<Event>, id: nat, t: int, worker: Option<string>, n: int, now: int,
                            other: Option<string>)
    requires id < |After(events).db.jobs| && After(events).db.jobs[id].status == Queued && n != 0
    requires forall i :: 0 <= i < id ==> After(events).db.jobs[i].status in {Done, Failed}
    ensures var w := After(events);
            var w' := After(events + [ClaimNext(t, worker, Some(n))] + [ClaimNext(now, other, None)]);
            var first := Claim(id, worker, w.db.jobs[id].attempts + 1);
            var again := Claim(id, other, w.db.jobs[id].attempts + 2);
            if t + n < now then w'.claims == w.claims + [first] + [again]
            else w.claims + [first] <= w'.claims && forall i :: |w.claims| < i < |w'.claims| ==> w'.claims[i].id != id
  {
    hide After;
    var start := events + [ClaimNext(t, worker, Some(n))];
    var db := After(events).db;
    AfterStep(events, ClaimNext(t, worker, Some(n)));
    ClaimTakesFirst(db, t, worker, Some(n), id);
    AfterStep(start, ClaimNext(now, other, None));
    var jobs := After(start).db.jobs;
    assert forall i :: 0 <= i < id ==> jobs[i] == db.jobs[i];
    if t + n < now {
      ClaimTakesFirst(After(start).db, now, other, None, id);
    } else {
      OldestIsClaimable(jobs, now, 0);
    }
  }

  // ----- what the tables hold ----------------------------------------------

  /** The runs and kinds enqueued, in order. */
  function Requests(events: seq<Event>): seq<(string, string)> {
    if events == [] then []
    else Requests(events[..|events| - 1]) +
         match events[|events| - 1] case Enqueue(run, kind) => [(run, kind)] case _ => []
  }

  /** Every job is the request it was enqueued for. */
  lemma {:induction false} JobsAreRequests(events: seq<Event>)
    ensures |After(events).db.jobs| == |Requests(events)|
    ensures forall i :: 0 <= i < |After(events).db.jobs| ==>
              (After(events).db.jobs[i].run, After(events).db.jobs[i].kind) == Requests(events)[i]
  {
    if events != [] {
      JobsAreRequests(events[..|events| - 1]);
      var e := events[|events| - 1];
      if e.ClaimNext? {
        OldestIsClaimable(After(events[..|events| - 1]).db.jobs, e.now, 0);
      }
      hide After, Requests, OldestFrom;
      assert events == events[..|events| - 1] + [e];
      AfterStep(events[..|events| - 1], e);
      RequestsStep(events[..|events| - 1], e);
    }
  }

  lemma RequestsStep(events: seq<Event>, e: Event)
    ensures Requests(events + [e]) ==
            Requests(events) + match e case Enqueue(run, kind) => [(run, kind)] case _ => []
  {
    assert (events + [e])[..|events|] == events;
  }

  /** Every result is the evaluation some client recorded for that job under the claim that wrote it, and it is
      filed under the run the job was enqueued for. */
  lemma {:induction false} ResultsAreRecorded(events: seq<Event>, r: nat)
    requires r < |After(events).db.results|
    ensures r < |After(events).authors| && After(events).db.results[r].job == After(events).authors[r].id
    ensures exists i :: 0 <= i < |events|
                        && events[i] == Record(After(events).authors[r], After(events).db.results[r].eval)
    ensures After(events).db.results[r].job < |Requests(events)|
    ensures After(events).db.results[r].run == Requests(events)[After(events).db.results[r].job].0
  {
    InvAlways(events);
    JobsAreRequests(events);
    RecordedSomewhere(events, r);
    hide After, Requests, ClaimsNumbered;
  }

  lemma {:induction false} RecordedSomewhere(events: seq<Event>, r: nat)
    requires r < |After(events).db.results|
    ensures r < |After(events).authors|
    ensures exists i :: 0 <= i < |events|
                        && events[i] == Record(After(events).authors[r], After(events).db.results[r].eval)
  {
    hide After;
    InvAlways(events);
    hide ClaimsNumbered;
    if events == [] {
      NothingYet();
    } else {
      var init, e := events[..|events| - 1], events[|events| - 1];
      assert events == init + [e];
      AfterStep(init, e);
      InvAlways(init);
      if r < |After(init).db.results| {
        RecordedSomewhere(init, r);
        var i :| 0 <= i < |init| && init[i] == Record(After(init).authors[r], After(init).db.results[r].eval);
        assert events[i] == init[i];
      }
    }
  }

  lemma NothingYet()
    ensures After([]).db.results == []
  {
  }
}
