/**
 * The job table of the third-party `schedule` library, as far as the scheduler uses it.
 *
 * The library's own code is not part of this model. What the scheduler relies on:
 * `every().day.at(t).do(job)` either raises (for a time the library refuses) or appends
 * a new job to the default scheduler's list; `cancel_job(job)` removes that job from the
 * list when present; `clear()` empties the list; a job has a next run time, possibly
 * unset. Which times the library refuses and when a job next runs depend on code and a
 * clock outside the model, so they are the parameters `accepts` and `nextRunAt`.
 */
module JobLibrary {
  import opened Wrappers
  import opened Text

  /** A registered job: a unique id and its `next_run` (seconds on some clock). */
  datatype Handle = Handle(id: nat, nextRun: Option<int>)

  /** Ids strictly increase along the list. */
  predicate Increasing(jobs: seq<Handle>) {
    forall i, j :: 0 <= i < j < |jobs| ==> jobs[i].id < jobs[j].id
  }

  predicate IdsAbove(jobs: seq<Handle>, lo: int) {
    forall k :: 0 <= k < |jobs| ==> lo < jobs[k].id
  }

  predicate IdsBelow(jobs: seq<Handle>, hi: int) {
    forall k :: 0 <= k < |jobs| ==> jobs[k].id < hi
  }

  /** Ids strictly increase along the list and stay below the next id to hand out. */
  predicate FreshIds(jobs: seq<Handle>, nextId: nat) {
    Increasing(jobs) && IdsBelow(jobs, nextId)
  }

  lemma IncreasingCons(jobs: seq<Handle>)
    requires jobs != []
    ensures Increasing(jobs) <==> IdsAbove(jobs[1..], jobs[0].id) && Increasing(jobs[1..])
  {
    var t := jobs[1..];
    if Increasing(jobs) {
      forall k | 0 <= k < |t| ensures jobs[0].id < t[k].id {
        assert t[k] == jobs[k + 1];
      }
      forall i, j | 0 <= i < j < |t| ensures t[i].id < t[j].id {
        assert t[i] == jobs[i + 1] && t[j] == jobs[j + 1];
      }
    }
    if IdsAbove(t, jobs[0].id) && Increasing(t) {
      forall i, j | 0 <= i < j < |jobs| ensures jobs[i].id < jobs[j].id {
        assert jobs[j] == t[j - 1];
        if i > 0 {
          assert jobs[i] == t[i - 1];
        }
      }
    }
  }

  /** Removing a job keeps a lower bound on the remaining ids. */
  lemma {:induction false} RemoveFirstAbove(jobs: seq<Handle>, lo: int, h: Handle)
    requires IdsAbove(jobs, lo)
    ensures IdsAbove(RemoveFirst(jobs, h), lo)
    decreases |jobs|
  {
    if jobs != [] {
      var t := jobs[1..];
      assert IdsAbove(t, lo) by {
        forall k | 0 <= k < |t| ensures lo < t[k].id {
          assert t[k] == jobs[k + 1];
        }
      }
      if jobs[0] != h {
        RemoveFirstAbove(t, lo, h);
        var r := [jobs[0]] + RemoveFirst(t, h);
        forall k | 0 <= k < |r| ensures lo < r[k].id {
          if k > 0 {
            assert r[k] == RemoveFirst(t, h)[k - 1];
          }
        }
      }
    }
  }

  /** Removing a job keeps an upper bound on the remaining ids. */
  lemma {:induction false} RemoveFirstBelow(jobs: seq<Handle>, hi: int, h: Handle)
    requires IdsBelow(jobs, hi)
    ensures IdsBelow(RemoveFirst(jobs, h), hi)
    decreases |jobs|
  {
    if jobs != [] {
      var t := jobs[1..];
      assert IdsBelow(t, hi) by {
        forall k | 0 <= k < |t| ensures t[k].id < hi {
          assert t[k] == jobs[k + 1];
        }
      }
      if jobs[0] != h {
        RemoveFirstBelow(t, hi, h);
        var r := [jobs[0]] + RemoveFirst(t, h);
        forall k | 0 <= k < |r| ensures r[k].id < hi {
          if k > 0 {
            assert r[k] == RemoveFirst(t, h)[k - 1];
          }
        }
      }
    }
  }

  /** Removing a job keeps the ids increasing. */
  lemma {:induction false} RemoveFirstIncreasing(jobs: seq<Handle>, h: Handle)
    requires Increasing(jobs)
    ensures Increasing(RemoveFirst(jobs, h))
    decreases |jobs|
  {
    if jobs != [] {
      IncreasingCons(jobs);
      if jobs[0] != h {
        var t := jobs[1..];
        RemoveFirstIncreasing(t, h);
        RemoveFirstAbove(t, jobs[0].id, h);
        var r := [jobs[0]] + RemoveFirst(t, h);
        assert r[1..] == RemoveFirst(t, h);
        IncreasingCons(r);
      }
    }
  }

  /** Removing a job keeps the ids increasing and below `nextId`. */
  lemma RemoveFirstFresh(jobs: seq<Handle>, nextId: nat, h: Handle)
    requires FreshIds(jobs, nextId)
    ensures FreshIds(RemoveFirst(jobs, h), nextId)
  {
    RemoveFirstIncreasing(jobs, h);
    RemoveFirstBelow(jobs, nextId, h);
  }

  /** The default scheduler of the `schedule` library. */
  class JobTable {
    var jobs: seq<Handle>
    var nextId: nat
    /** Whether `every().day.at(t)` accepts the time `t` instead of raising. */
    const accepts: string -> bool
    /** The `next_run` the library computes for a new daily job at `t`. */
    const nextRunAt: string -> Option<int>

    ghost predicate Valid()
      reads this
    {
      FreshIds(jobs, nextId)
    }

    constructor (accepts: string -> bool, nextRunAt: string -> Option<int>)
      ensures Valid() && jobs == [] && this.accepts == accepts && this.nextRunAt == nextRunAt
    {
      jobs := [];
      nextId := 0;
      this.accepts := accepts;
      this.nextRunAt := nextRunAt;
    }

    /** `schedule.clear()`. */
    method Clear()
      modifies this
      ensures Valid() && jobs == [] && nextId == old(nextId)
    {
      jobs := [];
    }

    /** `schedule.every().day.at(time).do(job)`: None when the library raises. */
    method Register(time: string) returns (h: Option<Handle>)
      requires Valid()
      modifies this
      ensures Valid()
      ensures h.Some? <==> accepts(time)
      ensures h.Some? ==> h.value == Handle(old(nextId), nextRunAt(time)) && jobs == old(jobs) + [h.value]
      ensures h.None? ==> jobs == old(jobs)
      ensures old(nextId) <= nextId
    {
      if !accepts(time) {
        return None;
      }
      var handle := Handle(nextId, nextRunAt(time));
      jobs := jobs + [handle];
      nextId := nextId + 1;
      return Some(handle);
    }

    /** `schedule.cancel_job(job)`: removes the job if it is still listed. */
    method Cancel(h: Handle)
      requires Valid()
      modifies this
      ensures Valid()
      ensures jobs == RemoveFirst(old(jobs), h) && nextId == old(nextId)
    {
      RemoveFirstFresh(jobs, nextId, h);
      jobs := RemoveFirst(jobs, h);
    }
  }
}
