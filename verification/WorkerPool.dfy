/** The bounded worker pool of mapWithConcurrency (hybrid-scenes.service.ts). */
module WorkerPool {
  import opened Basics

  /** A worker between two items, awaiting the mapper on one, past the last item, or rejected. */
  datatype Worker = Ready | Calling(index: nat) | Finished | Rejected

  /** `calls` logs the indices handed to the mapper. */
  datatype State<T> = State(nextIndex: nat, results: seq<Option<T>>, workers: seq<Worker>, calls: seq<nat>)

  datatype Event = Take(worker: nat) | Return(worker: nat) | Stop(worker: nat)

  ghost predicate Initial<T>(s: State<T>, n: nat, concurrency: nat) {
    s == State(0, seq(n, i => None), seq(if concurrency < n then concurrency else n, i => Ready), [])
  }

  ghost predicate Step<T>(mapper: nat -> Answer<T>, n: nat, s: State<T>, event: Event, t: State<T>) {
    && event.worker < |s.workers|
    && var worker := s.workers[event.worker];
       match event
       case Take(k) =>
         && worker.Ready? && s.nextIndex < n
         && t == State(s.nextIndex + 1, s.results, s.workers[k := Calling(s.nextIndex)], s.calls + [s.nextIndex])
       case Return(k) =>
         && worker.Calling? && worker.index < |s.results|
         && t == (if mapper(worker.index).Answered?
                  then s.(results := s.results[worker.index := Some(mapper(worker.index).value)], workers := s.workers[k := Ready])
                  else s.(workers := s.workers[k := Rejected]))
       case Stop(k) =>
         && worker.Ready? && s.nextIndex >= n
         && t == s.(workers := s.workers[k := Finished])
  }

  ghost predicate Steps<T>(mapper: nat -> Answer<T>, n: nat, s: State<T>, t: State<T>) {
    exists event :: Step(mapper, n, s, event, t)
  }

  ghost predicate Run<T>(mapper: nat -> Answer<T>, n: nat, concurrency: nat, trace: seq<State<T>>) {
    && trace != []
    && Initial(trace[0], n, concurrency)
    && (forall k :: 0 <= k < |trace| - 1 ==> Steps(mapper, n, trace[k], trace[k + 1]))
  }

  /** Where an index is: not yet called, being called, answered or failed. */
  ghost predicate Placed<T>(mapper: nat -> Answer<T>, s: State<T>, i: nat) {
    || (i < |s.results| && mapper(i).Answered? && s.results[i] == Some(mapper(i).value))
    || (exists k :: 0 <= k < |s.workers| && s.workers[k] == Calling(i))
    || (mapper(i).Threw? && exists k :: 0 <= k < |s.workers| && s.workers[k].Rejected?)
  }

  ghost predicate Inv<T>(mapper: nat -> Answer<T>, n: nat, s: State<T>) {
    && s.nextIndex <= n && |s.results| == n
    && s.calls == seq(s.nextIndex, i => i)
    && (forall k :: 0 <= k < |s.workers| && s.workers[k].Calling? ==> s.workers[k].index < s.nextIndex)
    && (forall i :: 0 <= i < s.nextIndex ==> Placed(mapper, s, i))
    && (forall k :: 0 <= k < |s.workers| && s.workers[k].Finished? ==> s.nextIndex == n)
    && ((exists k :: 0 <= k < |s.workers| && s.workers[k].Rejected?) ==> exists i :: 0 <= i < n && mapper(i).Threw?)
  }

  lemma PlacedStays<T>(mapper: nat -> Answer<T>, n: nat, s: State<T>, event: Event, t: State<T>, i: nat)
    requires Step(mapper, n, s, event, t) && |s.results| == n && Placed(mapper, s, i)
    requires forall k :: 0 <= k < |s.workers| && s.workers[k].Calling? ==> s.workers[k].index < n
    ensures Placed(mapper, t, i)
  {
    var e := event.worker;
    if k :| 0 <= k < |s.workers| && s.workers[k] == Calling(i) {
      if k == e {
        assert mapper(i).Threw? ==> t.workers[k].Rejected?;
      } else {
        assert t.workers[k] == Calling(i);
      }
    } else if mapper(i).Threw? {
      var k :| 0 <= k < |s.workers| && s.workers[k].Rejected?;
      assert k != e && t.workers[k].Rejected?;
    }
  }

  lemma StepKeeps<T>(mapper: nat -> Answer<T>, n: nat, s: State<T>, event: Event, t: State<T>)
    requires Inv(mapper, n, s) && Step(mapper, n, s, event, t)
    ensures Inv(mapper, n, t)
  {
    forall i | 0 <= i < t.nextIndex ensures Placed(mapper, t, i) {
      if i < s.nextIndex {
        PlacedStays(mapper, n, s, event, t, i);
      } else {
        assert t.workers[event.worker] == Calling(i);
      }
    }
    if k :| 0 <= k < |t.workers| && t.workers[k].Rejected? {
      if s.workers[k].Calling? && k == event.worker {
        assert mapper(s.workers[k].index).Threw?;
      } else {
        assert s.workers[k].Rejected?;
      }
    }
  }

  lemma RunKeeps<T>(mapper: nat -> Answer<T>, n: nat, concurrency: nat, trace: seq<State<T>>, k: nat)
    requires Run(mapper, n, concurrency, trace) && k < |trace|
    ensures Inv(mapper, n, trace[k])
    ensures |trace[k].workers| <= concurrency && (n > 0 && concurrency > 0 ==> |trace[k].workers| > 0)
  {
    if k > 0 {
      RunKeeps(mapper, n, concurrency, trace, k - 1);
      assert Steps(mapper, n, trace[k - 1], trace[k - 1 + 1]);
      var event :| Step(mapper, n, trace[k - 1], event, trace[k]);
      StepKeeps(mapper, n, trace[k - 1], event, trace[k]);
    }
  }

  predicate HasEnded(worker: Worker) {
    worker.Finished? || worker.Rejected?
  }

  /** Under every interleaving each index goes to the mapper at most once, in order; once all workers have settled
      the pool rejects exactly if a mapper call throws, and otherwise has every result at its own index. */
  lemma ResultsInInputOrder<T>(mapper: nat -> Answer<T>, n: nat, concurrency: nat, trace: seq<State<T>>, k: nat)
    requires Run(mapper, n, concurrency, trace) && k < |trace| && concurrency > 0
    ensures trace[k].calls == seq(trace[k].nextIndex, i => i) && trace[k].nextIndex <= n
    ensures (forall w :: 0 <= w < |trace[k].workers| ==> HasEnded(trace[k].workers[w])) ==>
              if exists w :: 0 <= w < |trace[k].workers| && trace[k].workers[w].Rejected?
              then exists i :: 0 <= i < n && mapper(i).Threw?
              else trace[k].nextIndex == n && |trace[k].results| == n
                   && forall i :: 0 <= i < n ==> mapper(i).Answered? && trace[k].results[i] == Some(mapper(i).value)
  {
    RunKeeps(mapper, n, concurrency, trace, k);
    var s := trace[k];
    if (forall w :: 0 <= w < |s.workers| ==> HasEnded(s.workers[w])) && !(exists w :: 0 <= w < |s.workers| && s.workers[w].Rejected?) {
      if n > 0 {
        assert HasEnded(s.workers[0]);
      }
      forall i | 0 <= i < n ensures mapper(i).Answered? && s.results[i] == Some(mapper(i).value) {
        assert Placed(mapper, s, i);
      }
    }
  }

  /** What is left to do: two steps an item not yet taken, one for a call and one for each live worker. */
  ghost function Left(workers: seq<Worker>): nat {
    if workers == [] then 0
    else Left(workers[..|workers| - 1]) + match workers[|workers| - 1] { case Ready => 1 case Calling(_) => 2 case _ => 0 }
  }

  lemma LeftAfter(workers: seq<Worker>, k: nat, worker: Worker)
    requires k < |workers|
    ensures Left(workers[k := worker]) == Left(workers) - Left([workers[k]]) + Left([worker])
  {
    var before := workers[..|workers| - 1];
    assert workers[k := worker][..|workers| - 1] == if k < |before| then before[k := worker] else before;
    assert [workers[k]][..0] == [] && [worker][..0] == [];
    if k < |before| {
      LeftAfter(before, k, worker);
    }
  }

  lemma {:induction false} LeftAtMost(workers: seq<Worker>)
    requires forall k :: 0 <= k < |workers| ==> workers[k].Ready?
    ensures Left(workers) == |workers|
  {
    if workers != [] {
      LeftAtMost(workers[..|workers| - 1]);
    }
  }

  /** Every run is over after at most two steps an item and one for each worker. */
  lemma RunsEnd<T>(mapper: nat -> Answer<T>, n: nat, concurrency: nat, trace: seq<State<T>>, k: nat)
    requires Run(mapper, n, concurrency, trace) && k < |trace|
    ensures k + 2 * (n - trace[k].nextIndex) + Left(trace[k].workers) <= 2 * n + concurrency
  {
    if k == 0 {
      LeftAtMost(trace[0].workers);
    } else {
      RunsEnd(mapper, n, concurrency, trace, k - 1);
      assert Steps(mapper, n, trace[k - 1], trace[k - 1 + 1]);
      var event :| Step(mapper, n, trace[k - 1], event, trace[k]);
      LeftAfter(trace[k - 1].workers, event.worker, trace[k].workers[event.worker]);
      RunKeeps(mapper, n, concurrency, trace, k);
    }
  }
}
