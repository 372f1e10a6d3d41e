/** The parse pipeline's in-memory half: failure counting, the coalescing
    wake-up token, retry timers and the release that ends every parse. */
module Pipeline {
  import opened Basics
  import opened ParseQueue
  import opened Tables

  const MAX_PARSE_ATTEMPTS := 3
  const DEFAULT_PARSE_WORKERS := 16
  const DEFAULT_RETRY_BACKOFF := 1_000_000_000

  datatype Attempts = Attempts(generation: int, failures: nat)

  /** Consecutive failures of `d` within one generation. */
  function Failures(attempts: map<Id, Attempts>, d: Id, generation: int): nat {
    if d in attempts && attempts[d].generation == generation then attempts[d].failures else 0
  }

  function Recorded(attempts: map<Id, Attempts>, d: Id, generation: int): map<Id, Attempts> {
    attempts[d := Attempts(generation, Failures(attempts, d, generation) + 1)]
  }

  /** One more failure of `d`: within its generation the count goes on, and another
      generation starts anew. */
  ghost predicate Counted(before: map<Id, Attempts>, after: map<Id, Attempts>, d: Id, generation: int) {
    && after.Keys == before.Keys + {d} && (forall x | x in before && x != d :: after[x] == before[x])
    && after[d].generation == generation
    && after[d].failures == 1 + if d in before && before[d].generation == generation then before[d].failures else 0
  }

  /** Doubles `base` once for every failure after the first. */
  function Backoff(base: nat, failures: int): nat
    decreases failures
  {
    if failures <= 1 then base else 2 * Backoff(base, failures - 1)
  }

  /** What OnResult, or a step before it, reported for one parse. */
  datatype ParseOutcome = Imported | Broken

  class Pipeline {
    const store: ParseQueueStore
    const workers: int
    const retryBackoff: int
    var attempts: map<Id, Attempts>
    var token: bool        // the channel of capacity one
    var timers: seq<nat>   // delays of the pending retry timers

    constructor (store: ParseQueueStore, workers: int, retryBackoff: int)
      ensures this.store == store && this.workers == workers && this.retryBackoff == retryBackoff
      ensures attempts == map[] && !token && timers == []
    {
      this.store, this.workers, this.retryBackoff := store, workers, retryBackoff;
      attempts, token, timers := map[], false, [];
    }

    function WorkerCount(): (n: nat)
      ensures n > 0 && (n == workers || (workers <= 0 && n == DEFAULT_PARSE_WORKERS))
    {
      if workers > 0 then workers else DEFAULT_PARSE_WORKERS
    }

    function RetryDelay(failures: int): (delay: nat)
      ensures failures <= 1 ==> delay == if retryBackoff > 0 then retryBackoff else DEFAULT_RETRY_BACKOFF
      ensures failures > 1 ==> delay == 2 * RetryDelay(failures - 1)
      decreases failures
    {
      Backoff(if retryBackoff <= 0 then DEFAULT_RETRY_BACKOFF else retryBackoff,
              if failures < 1 then 1 else failures)
    }

    /** Wake-ups coalesce: at most one token is ever queued. */
    method Wake()
      modifies `token
      ensures token
    {
      if !token {
        token := true;
      }
    }

    method RecordFailure(d: Id, generation: int) returns (failures: nat)
      modifies `attempts
      ensures attempts == Recorded(old(attempts), d, generation)
      ensures Counted(old(attempts), attempts, d, generation) && failures == attempts[d].failures
    {
      var at := if d in attempts then attempts[d] else Attempts(0, 0);
      if at.generation != generation {
        at := Attempts(generation, 0);
      }
      at := at.(failures := at.failures + 1);
      attempts := attempts[d := at];
      failures := at.failures;
    }

    method ClearAttempts(d: Id)
      modifies `attempts
      ensures attempts == old(attempts) - {d}
    {
      attempts := attempts - {d};
    }

    /** A failed parse that the count in `attempts` already covers: below the budget the
        dir is dirty again and a timer starts, unless the lock is lost or the run is
        cancelled; at the budget it is released clean. */
    ghost predicate Settled(dir: ClaimedDir, before: map<Id, DirRow>, timersBefore: seq<nat>, cancelled: bool)
      reads this, store, store.db
    {
      && dir.id in attempts
      && var retry := attempts[dir.id].failures < MAX_PARSE_ATTEMPTS;
         && Unlocked(before, store.db.dirs, dir.id, dir.generation, retry)
         && (retry && dir.id in before && before[dir.id].locked == Some(dir.generation) && !cancelled ==>
               timers == timersBefore + [RetryDelay(attempts[dir.id].failures)])
         && (!(retry && dir.id in before && before[dir.id].locked == Some(dir.generation) && !cancelled) ==>
               timers == timersBefore)
    }

    /** Ends a failed parse: dirty again with a timer below the budget, clean
        once the budget is spent, and nothing but the count if the lock is gone. */
    method ReleaseFailed(dir: ClaimedDir, cancelled: bool)
      modifies this`attempts, this`timers, store.db`dirs
      ensures attempts == Recorded(old(attempts), dir.id, dir.generation)
      ensures store.db.dirs == ReleaseRows(old(store.db.dirs), dir.id, dir.generation,
        Failures(attempts, dir.id, dir.generation) < MAX_PARSE_ATTEMPTS)
      ensures Counted(old(attempts), attempts, dir.id, dir.generation)
      ensures Settled(dir, old(store.db.dirs), old(timers), cancelled)
    {
      var failures := RecordFailure(dir.id, dir.generation);
      if failures >= MAX_PARSE_ATTEMPTS {
        var _ := store.ReleaseDir(dir.id, dir.generation);
        return;
      }
      var ok := store.ReleaseAndRedirty(dir.id, dir.generation);
      if !ok || cancelled {
        return;
      }
      timers := timers + [RetryDelay(failures)];
    }

    /** One claimed dir, end to end. */
    method ParseClaimed(dir: ClaimedDir, outcome: ParseOutcome, cancelled: bool)
      modifies this`attempts, this`timers, store.db`dirs
      ensures outcome == Imported ==>
        && attempts == old(attempts) - {dir.id}
        && timers == old(timers)
        && store.db.dirs == ReleaseRows(old(store.db.dirs), dir.id, dir.generation, false)
        && Unlocked(old(store.db.dirs), store.db.dirs, dir.id, dir.generation, false)
      ensures outcome == Broken ==>
        && attempts == Recorded(old(attempts), dir.id, dir.generation)
        && store.db.dirs == ReleaseRows(old(store.db.dirs), dir.id, dir.generation,
             Failures(attempts, dir.id, dir.generation) < MAX_PARSE_ATTEMPTS)
        && Counted(old(attempts), attempts, dir.id, dir.generation)
        && Settled(dir, old(store.db.dirs), old(timers), cancelled)
    {
      match outcome
      case Broken =>
        ReleaseFailed(dir, cancelled);
      case Imported =>
        ClearAttempts(dir.id);
        var _ := store.ReleaseDir(dir.id, dir.generation);
    }
  }
}
