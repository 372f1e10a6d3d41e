/** Scanner, dispatcher, workers, timers and crashes as one step system over
    the `dirs` table. Every event is one atomic statement, channel operation or
    mutex section of the program; a run is any sequence of enabled events. */
module QueueProtocol {
  import opened Basics
  import opened Tables
  import opened ParseQueue
  import opened Pipeline

  /** What happened to a dir so far. `syncs` counts its syncs, `version` the
      dirty ones, `holder` is its latest claim and `imported` the version that
      the latest import of the dir had read. */
  datatype History = History(syncs: nat, version: nat, holder: Option<nat>, imported: Option<nat>)

  datatype Ending = Completed | GaveUp | Retried | Unreleased | Lost

  /** Where a claim is in its life. A version is what its DirFiles read. */
  datatype Phase =
    | Queued
    | Held
    | Read(read: nat)
    | Stored(read: nat)
    | Cleared(read: nat)
    | Failing(failures: nat)
    | Rearming
    | Over(ending: Ending)

  /** One claim; `syncs` and `version` are the dir's counts at claim time. */
  datatype Claim = Claim(dir: Id, generation: int, syncs: nat, version: nat, phase: Phase)

  /** `log` lists every claim ever made. `batch`, `queue` and `held` refer to
      claims by position: the dispatcher's batch, the channel, the workers. */
  datatype State = State(
    workers: nat,
    dirs: map<Id, DirRow>,
    history: map<Id, History>,
    log: seq<Claim>,
    attempts: map<Id, Attempts>,
    batch: seq<nat>,
    queue: seq<nat>,
    held: seq<Option<nat>>,
    asleep: bool,
    token: bool,
    wakes: nat,
    timers: nat)

  datatype Event =
    | BeginScan(location: Id)
    | Sync(dir: Id, location: Id, relpath: string, generation: int, dirty: bool)
    | WakeCall
    | TimerFires
    | WakeUp
    | ClaimDirs(ids: seq<Id>)
    | LoseClaims(ids: seq<Id>)
    | Send
    | Receive(worker: nat)
    | ReadFiles(worker: nat)
    | Import(worker: nat)
    | Fail(worker: nat)
    | ClearCount(worker: nat)
    | Release(worker: nat, applied: bool, replied: bool)
    | Rearm(worker: nat, skipped: bool)
    | Crash

  // ----- the step system -----

  function Init(workers: nat): State {
    State(workers, map[], map[], [], map[], [], [], seq(workers, _ => None), false, false, 0, 0)
  }

  /** Worker w holds a claim of a known dir. */
  predicate Busy(s: State, w: nat) {
    && w < |s.held| && s.held[w].Some? && s.held[w].value < |s.log|
    && s.log[s.held[w].value].dir in s.dirs && s.log[s.held[w].value].dir in s.history
  }

  function At(s: State, w: nat): Claim
    requires Busy(s, w)
  {
    s.log[s.held[w].value]
  }

  /** The pump asks for its next batch. */
  ghost predicate CanClaim(s: State, ids: seq<Id>) {
    !s.asleep && s.batch == [] && ClaimChoice(s.dirs, ids, s.workers) && s.dirs.Keys <= s.history.Keys
  }

  ghost predicate Enabled(s: State, e: Event) {
    match e
    case BeginScan(_) => true
    case Sync(d, location, relpath, generation, _) =>
      // one sync per dir per generation, and generations only grow
      if d in s.dirs then
        && d in s.history && s.dirs[d].seen < generation
        && s.dirs[d].location == location && s.dirs[d].relpath == relpath
      else
        forall x | x in s.dirs :: s.dirs[x].location != location || s.dirs[x].relpath != relpath
    case WakeCall => s.wakes > 0
    case TimerFires => s.timers > 0
    case WakeUp => s.asleep && s.token
    case ClaimDirs(ids) => CanClaim(s, ids)
    case LoseClaims(ids) => ids != [] && CanClaim(s, ids)
    case Send => s.batch != [] && |s.queue| < s.workers
    case Receive(w) => w < |s.held| && s.held[w].None? && s.queue != [] && s.queue[0] < |s.log|
    case ReadFiles(w) => Busy(s, w) && At(s, w).phase.Held?
    case Import(w) => Busy(s, w) && At(s, w).phase.Read?
    case Fail(w) => Busy(s, w) && (At(s, w).phase.Held? || At(s, w).phase.Read?)
    case ClearCount(w) => Busy(s, w) && At(s, w).phase.Stored?
    case Release(w, _, _) => Busy(s, w) && (At(s, w).phase.Cleared? || At(s, w).phase.Failing?)
    case Rearm(w, _) => Busy(s, w) && At(s, w).phase.Rearming?
    case Crash => true
  }

  function SetPhase(log: seq<Claim>, c: nat, phase: Phase): seq<Claim>
    requires c < |log|
  {
    log[c := log[c].(phase := phase)]
  }

  /** Worker w's claim moves on, and w keeps it. */
  function Advance(s: State, w: nat, phase: Phase): State
    requires Busy(s, w)
  {
    s.(log := SetPhase(s.log, s.held[w].value, phase))
  }

  /** Worker w's claim ends, and w is idle. */
  function Finish(s: State, w: nat, ending: Ending): State
    requires Busy(s, w)
  {
    s.(log := SetPhase(s.log, s.held[w].value, Over(ending)), held := s.held[w := None])
  }

  function NewClaim(s: State, d: Id): Claim
    requires d in s.dirs && d in s.history
  {
    Claim(d, s.dirs[d].seen, s.history[d].syncs, s.history[d].version, Queued)
  }

  function NewClaims(s: State, ids: seq<Id>): seq<Claim>
    requires forall d :: d in ids ==> d in s.dirs && d in s.history
  {
    seq(|ids|, i requires 0 <= i < |ids| => NewClaim(s, ids[i]))
  }

  /** Position of the latest claim among the batch just made. */
  function Position(ids: seq<Id>, d: Id): nat
    requires d in ids
    ensures Position(ids, d) < |ids| && ids[Position(ids, d)] == d
  {
    if ids[0] == d then 0 else 1 + Position(ids[1..], d)
  }

  function EndAll(log: seq<Claim>): seq<Claim> {
    seq(|log|, i requires 0 <= i < |log| =>
      if log[i].phase.Over? then log[i] else log[i].(phase := Over(Lost)))
  }

  function AfterSync(s: State, d: Id, dirty: bool): History {
    var h := if d in s.history then s.history[d] else History(0, 0, None, None);
    h.(syncs := h.syncs + 1, version := if dirty then h.version + 1 else h.version)
  }

  function AfterBegin(s: State, location: Id): State {
    s.(dirs := RecoverRows(s.dirs, location))
  }

  function AfterClaim(s: State, ids: seq<Id>): State
    requires forall d :: d in ids ==> d in s.dirs && d in s.history
  {
    s.(dirs := ClaimRows(s.dirs, ids),
       history := map d | d in s.history ::
         if d in ids then s.history[d].(holder := Some(|s.log| + Position(ids, d)))
         else s.history[d],
       log := s.log + NewClaims(s, ids),
       batch := seq(|ids|, i requires 0 <= i < |ids| => |s.log| + i))
  }

  function LoseFrom(log: seq<Claim>, n: nat): seq<Claim> {
    seq(|log|, i requires 0 <= i < |log| => if i < n then log[i] else log[i].(phase := Over(Lost)))
  }

  /** The claim statement took effect, and the dispatcher could not read its rows. */
  function AfterLoss(s: State, ids: seq<Id>): State
    requires forall d :: d in ids ==> d in s.dirs && d in s.history
  {
    var t := AfterClaim(s, ids);
    t.(log := LoseFrom(t.log, |s.log|), batch := [])
  }

  /** A failed claim below its budget is released dirty. */
  predicate Retries(k: Claim) {
    k.phase.Failing? && k.phase.failures < MAX_PARSE_ATTEMPTS
  }

  /** The phase after a release statement: it may take effect or not, and its
      reply may be lost. Only a worker that knows its lock was released rearms. */
  function ReleasedPhase(s: State, k: Claim, applied: bool, replied: bool): (phase: Phase)
    ensures phase.Rearming? || phase.Over?
  {
    if !applied then Over(Unreleased)
    else if !Retries(k) then Over(if k.phase.Cleared? then Completed else GaveUp)
    else if replied && HoldsLock(s.dirs, k.dir, k.generation) then Rearming
    else Over(Unreleased)
  }

  function AfterRead(s: State, w: nat): State
    requires Busy(s, w)
  {
    Advance(s, w, Read(s.history[At(s, w).dir].version))
  }

  function AfterImport(s: State, w: nat): State
    requires Busy(s, w) && At(s, w).phase.Read?
  {
    var d, read := At(s, w).dir, At(s, w).phase.read;
    Advance(s, w, Stored(read)).(history := s.history[d := s.history[d].(imported := Some(read))])
  }

  function AfterFail(s: State, w: nat): State
    requires Busy(s, w)
  {
    var k := At(s, w);
    Advance(s, w, Failing(Failures(s.attempts, k.dir, k.generation) + 1)).(
      attempts := Recorded(s.attempts, k.dir, k.generation))
  }

  function AfterClear(s: State, w: nat): State
    requires Busy(s, w) && At(s, w).phase.Stored?
  {
    Advance(s, w, Cleared(At(s, w).phase.read)).(attempts := s.attempts - {At(s, w).dir})
  }

  function AfterRelease(s: State, w: nat, applied: bool, replied: bool): State
    requires Busy(s, w)
  {
    var k := At(s, w);
    var phase := ReleasedPhase(s, k, applied, replied);
    (if phase.Rearming? then Advance(s, w, phase) else Finish(s, w, phase.ending)).(
      dirs := if applied then ReleaseRows(s.dirs, k.dir, k.generation, Retries(k)) else s.dirs)
  }

  function AfterRearm(s: State, w: nat, skipped: bool): State
    requires Busy(s, w)
  {
    Finish(s, w, Retried).(timers := if skipped then s.timers else s.timers + 1)
  }

  function Next(s: State, e: Event): State
    requires Enabled(s, e)
  {
    match e
    case BeginScan(location) => AfterBegin(s, location)
    case Sync(d, location, relpath, generation, dirty) =>
      s.(dirs := SyncRows(s.dirs, d, location, relpath, generation, dirty),
         history := s.history[d := AfterSync(s, d, dirty)],
         wakes := if dirty then s.wakes + 1 else s.wakes)
    case WakeCall => s.(wakes := s.wakes - 1, token := true)
    case TimerFires => s.(timers := s.timers - 1, token := true)
    case WakeUp => s.(asleep := false, token := false)
    case ClaimDirs(ids) =>
      if ids == [] then s.(asleep := true) else AfterClaim(s, ids)
    case LoseClaims(ids) => AfterLoss(s, ids)
    case Send => s.(queue := s.queue + [s.batch[0]], batch := s.batch[1..])
    case Receive(w) =>
      s.(queue := s.queue[1..], held := s.held[w := Some(s.queue[0])],
         log := SetPhase(s.log, s.queue[0], Held))
    case ReadFiles(w) => AfterRead(s, w)
    case Import(w) => AfterImport(s, w)
    case Fail(w) => AfterFail(s, w)
    case ClearCount(w) => AfterClear(s, w)
    case Release(w, applied, replied) => AfterRelease(s, w, applied, replied)
    case Rearm(w, skipped) => AfterRearm(s, w, skipped)
    case Crash =>
      Init(s.workers).(dirs := s.dirs, history := s.history, log := EndAll(s.log))
  }

  ghost predicate Runs(s: State, run: seq<Event>)
    decreases |run|
  {
    run == [] || (Enabled(s, run[0]) && Runs(Next(s, run[0]), run[1..]))
  }

  ghost function Final(s: State, run: seq<Event>): State
    requires Runs(s, run)
    decreases |run|
  {
    if run == [] then s else Final(Next(s, run[0]), run[1..])
  }

  /** A claim that still acts: its worker may yet import or release. */
  predicate Live(phase: Phase) {
    !phase.Rearming? && !phase.Over?
  }

  /** Same syncs, versions and latest claims. */
  ghost predicate SameHistory(s: State, t: State) {
    && t.history.Keys == s.history.Keys
    && forall d | d in s.history ::
         && t.history[d].syncs == s.history[d].syncs
         && t.history[d].version == s.history[d].version
         && t.history[d].holder == s.history[d].holder
  }

  /** The steps a worker takes on its claim, other than the release. */
  predicate Working(e: Event) {
    e.ReadFiles? || e.Import? || e.Fail? || e.ClearCount? || e.Rearm?
  }

  /** They change one phase, and no row. */
  lemma WorkShape(s: State, e: Event)
    requires Working(e) && Enabled(s, e)
    ensures var t := Next(s, e);
      var c := s.held[e.worker].value;
      && t.dirs == s.dirs && SameHistory(s, t)
      && !s.log[c].phase.Over?
      && t.log == SetPhase(s.log, c, t.log[c].phase)
  {
    match e
    case ReadFiles(_) =>
    case Import(_) =>
    case Fail(_) =>
    case ClearCount(_) =>
    case Rearm(_, _) =>
  }

  /** What each step does to a dir's row, field by field. */
  lemma DirRows(s: State, e: Event, d: Id)
    requires Enabled(s, e) && d in s.dirs
    ensures d in Next(s, e).dirs
    ensures var row, after := s.dirs[d], Next(s, e).dirs[d];
      match e
      case BeginScan(location) =>
        after == if row.location == location && row.locked.Some? then row.(locked := None, dirty := true) else row
      case Sync(x, _, _, generation, dirty) =>
        after == if x == d then row.(seen := generation, missing := false, dirty := row.dirty || dirty) else row
      case ClaimDirs(ids) => after == if d in ids then row.(dirty := false, locked := Some(row.seen)) else row
      case LoseClaims(ids) => after == if d in ids then row.(dirty := false, locked := Some(row.seen)) else row
      case Release(w, applied, _) =>
        var k := At(s, w);
        after == if applied && k.dir == d && row.locked == Some(k.generation)
                 then row.(locked := None, dirty := row.dirty || (k.phase.Failing? && k.phase.failures < 3)) else row
      case _ => after == row
  {
  }
}
