/** What every stretch of the job service does, job by job. */
module JobOutcomes {
  import opened JobScheduler

  /** How many of the waiting jobs find a free slot. */
  function Fitting(s: Service): int {
    var free := s.concurrency - s.activeCount;
    if free <= 0 then 0 else if |s.pending| < free then |s.pending| else free
  }

  /** The first n waiting jobs have been started, in their order, each from the beginning; nothing else has changed. */
  predicate StartsFirst(s: Service, t: Service, n: int) {
    && 0 <= n <= |s.pending|
    && t.pending == s.pending[n..] && t.started == s.started + s.pending[..n] && t.activeCount == s.activeCount + n
    && |t.workers| == |s.workers| + n && t.workers[..|s.workers|] == s.workers
    && (forall k :: 0 <= k < n ==> t.workers[|s.workers| + k].id == s.pending[k] && t.workers[|s.workers| + k].phase == Loading)
    && t.concurrency == s.concurrency && t.controllers == s.controllers && t.drains == s.drains && t.submitted == s.submitted
  }

  /** Draining starts the waiting jobs that fit, all of them and no more. */
  lemma {:induction false} DrainOutcome(s: Service)
    ensures StartsFirst(s, Drain(s), Fitting(s))
    decreases |s.pending|
  {
    if s.activeCount < s.concurrency && s.pending != [] {
      DrainOutcome(Start(s));
      assert Fitting(Start(s)) == Fitting(s) - 1;
      StartsMore(s, Drain(Start(s)), Fitting(s) - 1);
    }
  }

  lemma StartsMore(s: Service, t: Service, n: int)
    requires s.pending != [] && StartsFirst(Start(s), t, n)
    ensures StartsFirst(s, t, n + 1)
  {
    var u := Start(s);
    assert s.pending[..n + 1] == [s.pending[0]] + s.pending[1..][..n];
    assert t.workers[..|s.workers|] == s.workers by {
      assert t.workers[..|s.workers|] == t.workers[..|u.workers|][..|s.workers|];
    }
    forall k | 0 <= k < n + 1
      ensures t.workers[|s.workers| + k].id == s.pending[k] && t.workers[|s.workers| + k].phase == Loading
    {
      if k == 0 {
        assert t.workers[|s.workers|] == t.workers[..|u.workers|][|s.workers|];
      } else {
        assert t.workers[|u.workers| + (k - 1)].id == u.pending[k - 1];
      }
    }
  }

  /** A submission waits at the end and schedules one drain. */
  lemma {:induction false} SubmitOutcome(s: Service, id: string)
    requires Enabled(s, Submit(id))
    ensures var t := Step(s, Submit(id));
      && id != "" && id !in s.submitted && |t.pending| == |s.pending| + 1 && t.pending[|s.pending|] == id && t.pending[..|s.pending|] == s.pending
      && t.drains == s.drains + 1 && t.submitted == s.submitted + [id]
      && t.(pending := s.pending, drains := s.drains, submitted := s.submitted) == s
  {
  }

  lemma {:induction false} RunDrainOutcome(s: Service)
    requires Enabled(s, RunDrain)
    ensures s.drains > 0 && StartsFirst(s.(drains := s.drains - 1), Step(s, RunDrain), Fitting(s))
  {
    DrainOutcome(s.(drains := s.drains - 1));
  }

  /**
   An execution saves what it loaded, runs with a controller of its own, and gives the controller up when
   it has concluded; one that cannot be loaded or saved settles without ever having had one.
   */
  lemma {:induction false} ResumeOutcome(s: Service, i: nat, proceed: bool)
    requires Enabled(s, Resume(i, proceed))
    ensures var t := Step(s, Resume(i, proceed)); var id := s.workers[i].id;
      && i < |s.workers| == |t.workers| && t.workers[i].id == id
      && (forall k :: 0 <= k < |s.workers| && k != i ==> t.workers[k] == s.workers[k])
      && t.(workers := s.workers, controllers := s.controllers) == s
      && match s.workers[i].phase
         case Loading => t.workers[i].phase == (if proceed then Saving else Settled) && t.controllers == s.controllers
         case Saving => if proceed then t.workers[i].phase == Executing && t.controllers == s.controllers + {id}
                        else t.workers[i].phase == Settled && t.controllers == s.controllers
         case Executing => t.workers[i].phase == Concluding && t.controllers == s.controllers
         case Concluding => t.workers[i].phase == Settled && t.controllers == s.controllers - {id}
         case Settled => false
  {
  }

  /** A settled execution leaves, and the freed slot goes to the next waiting job. */
  lemma {:induction false} FinishOutcome(s: Service, i: nat)
    requires Enabled(s, Finish(i))
    ensures i < |s.workers| && s.workers[i].phase == Settled
    ensures var rest := s.workers[..i] + s.workers[i + 1..]; var left := s.(workers := rest, activeCount := s.activeCount - 1);
      StartsFirst(left, Step(s, Finish(i)), Fitting(left))
  {
    DrainOutcome(s.(workers := s.workers[..i] + s.workers[i + 1..], activeCount := s.activeCount - 1));
  }

  /** A service is created for one to a hundred executions at a time. */
  lemma ConcurrencyIff(concurrency: int)
    ensures ValidConcurrency(concurrency) <==> 0 < concurrency < 101
  {
  }
}
