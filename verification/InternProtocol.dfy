/** Any number of workers interning artist names through one importer: the
    double-checked cache as a step system. Read sections are one step; the write
    section is held across the store calls. */
module InternProtocol {
  import opened Basics
  import opened Artists

  /** Where one call of internArtist is. */
  datatype Phase =
    | Idle
    | Called(norm: string)
    | Missed(norm: string)
    | Locked(norm: string)
    | Looking(norm: string)
    | Inserting(norm: string, id: Id)
    | Resolved(norm: string, id: Id)

  /** `inserted` and `returned` record every insert and every answer. */
  datatype State = State(
    aliases: Aliases,
    nextId: Id,
    cache: map<string, Id>,
    workers: seq<Phase>,
    writer: Option<nat>,
    inserted: seq<(string, Id)>,
    returned: seq<(string, Id)>)

  datatype Event =
    | Call(w: nat, norm: string)
    | Read(w: nat)
    | Lock(w: nat)
    | Recheck(w: nat)
    | Lookup(w: nat, ok: bool)
    | Insert(w: nat, commits: bool, replies: bool)
    | Cache(w: nat)
    | Restart

  predicate Holds(phase: Phase) {
    phase.Locked? || phase.Looking? || phase.Inserting? || phase.Resolved?
  }

  ghost predicate Enabled(s: State, e: Event) {
    match e
    case Call(w, norm) => w < |s.workers| && s.workers[w].Idle? && norm != ""
    case Read(w) => w < |s.workers| && s.workers[w].Called? && s.writer.None?
    case Lock(w) => w < |s.workers| && s.workers[w].Missed? && s.writer.None?
    case Recheck(w) => w < |s.workers| && s.workers[w].Locked?
    case Lookup(w, _) => w < |s.workers| && s.workers[w].Looking?
    case Insert(w, _, _) => w < |s.workers| && s.workers[w].Inserting?
    case Cache(w) => w < |s.workers| && s.workers[w].Resolved?
    case Restart => true
  }

  function Move(s: State, w: nat, phase: Phase): State
    requires w < |s.workers|
  {
    s.(workers := s.workers[w := phase])
  }

  /** The call answers; the write lock is free afterwards. */
  function Return(s: State, w: nat, norm: string, id: Id): State
    requires w < |s.workers|
  {
    Move(s, w, Idle).(writer := None, returned := s.returned + [(norm, id)])
  }

  function Give(s: State, w: nat): State
    requires w < |s.workers|
  {
    Move(s, w, Idle).(writer := None)
  }

  ghost function AfterLookup(s: State, w: nat, ok: bool): State
    requires w < |s.workers| && s.workers[w].Looking?
  {
    var norm := s.workers[w].norm;
    if !ok then Give(s, w)
    else if Known(s.aliases, norm) then Move(s, w, Resolved(norm, OldestArtist(s.aliases, norm)))
    else Move(s, w, Inserting(norm, s.nextId)).(nextId := s.nextId + 1)
  }

  function AfterInsert(s: State, w: nat, commits: bool, replies: bool): State
    requires w < |s.workers| && s.workers[w].Inserting?
  {
    var (norm, id) := (s.workers[w].norm, s.workers[w].id);
    (if commits && replies then Move(s, w, Resolved(norm, id)) else Give(s, w)).(
      aliases := if commits then Inserted(s.aliases, norm, id) else s.aliases,
      inserted := if commits then s.inserted + [(norm, id)] else s.inserted)
  }

  ghost function Next(s: State, e: Event): State
    requires Enabled(s, e)
  {
    match e
    case Call(w, norm) => Move(s, w, Called(norm))
    case Read(w) =>
      var norm := s.workers[w].norm;
      if norm in s.cache then Return(s, w, norm, s.cache[norm]) else Move(s, w, Missed(norm))
    case Lock(w) => Move(s, w, Locked(s.workers[w].norm)).(writer := Some(w))
    case Recheck(w) =>
      var norm := s.workers[w].norm;
      if norm in s.cache then Return(s, w, norm, s.cache[norm]) else Move(s, w, Looking(norm))
    case Lookup(w, ok) => AfterLookup(s, w, ok)
    case Insert(w, commits, replies) => AfterInsert(s, w, commits, replies)
    case Cache(w) =>
      var (norm, id) := (s.workers[w].norm, s.workers[w].id);
      Return(s, w, norm, id).(cache := s.cache[norm := id])
    case Restart => s.(cache := map[], workers := seq(|s.workers|, _ => Idle), writer := None)
  }

  ghost predicate Runs(s: State, run: seq<Event>)
    decreases |run|
  {
    run == [] || (Enabled(s, run[0]) && Runs(Next(s, run[0]), run[1..]))
  }

  ghost function Final(s: State, run: seq<Event>): State
    requires Runs(s, run)
    decreases |run|
  {
    if run == [] then s else Final(Next(s, run[0]), run[1..])
  }

  /** A fresh process over any store. */
  ghost predicate Start(s: State) {
    && OlderThan(s.aliases, s.nextId) && s.cache == map[] && s.writer == None
    && s.inserted == [] && s.returned == [] && forall w :: 0 <= w < |s.workers| ==> s.workers[w].Idle?
  }

  /** The id is the oldest artist that holds the name. */
  ghost predicate Right(s: State, norm: string, id: Id) {
    Known(s.aliases, norm) && OldestArtist(s.aliases, norm) == id
  }

  /** What a worker inside the write section knows. */
  ghost predicate Knows(s: State, phase: Phase) {
    match phase
    case Looking(norm) => norm !in s.cache
    case Inserting(norm, id) => norm !in s.cache && !Known(s.aliases, norm) && id < s.nextId
    case Resolved(norm, id) => norm !in s.cache && Right(s, norm, id)
    case Idle => true
    case Called(_) => true
    case Missed(_) => true
    case Locked(_) => true
  }

  ghost predicate Exclusive(s: State) {
    && (forall w | 0 <= w < |s.workers| && Holds(s.workers[w]) :: s.writer == Some(w))
    && (s.writer.Some? ==> s.writer.value < |s.workers| && Holds(s.workers[s.writer.value]))
    && forall w :: 0 <= w < |s.workers| ==> Knows(s, s.workers[w])
  }

  ghost predicate Answers(s: State, answers: seq<(string, Id)>) {
    forall i :: 0 <= i < |answers| ==> Right(s, answers[i].0, answers[i].1)
  }

  ghost predicate OncePerName(inserted: seq<(string, Id)>) {
    forall i, j :: 0 <= i < j < |inserted| ==> inserted[i].0 != inserted[j].0
  }

  ghost predicate Inv(s: State) {
    && OlderThan(s.aliases, s.nextId) && Exclusive(s)
    && (forall n :: n in s.cache ==> Right(s, n, s.cache[n]))
    && Answers(s, s.returned) && Answers(s, s.inserted) && OncePerName(s.inserted)
  }

  /** A name once known keeps its oldest artist. */
  lemma RightKept(s: State, e: Event, norm: string, id: Id)
    requires Inv(s) && Enabled(s, e) && Right(s, norm, id)
    ensures Right(Next(s, e), norm, id)
  {
  }

  lemma AnswersKept(s: State, e: Event, answers: seq<(string, Id)>)
    requires Inv(s) && Enabled(s, e) && Answers(s, answers)
    ensures Answers(Next(s, e), answers)
  {
  }

  lemma CacheStep(s: State, e: Event)
    requires Inv(s) && Enabled(s, e)
    ensures var t := Next(s, e);
      && OlderThan(t.aliases, t.nextId)
      && forall n :: n in t.cache ==> Right(t, n, t.cache[n])
  {
  }

  /** Only the holder of the write section changes what it knows. */
  lemma ExclusiveStep(s: State, e: Event)
    requires Inv(s) && Enabled(s, e)
    ensures Exclusive(Next(s, e))
  {
    hide Answers, OncePerName;
    var t := Next(s, e);
    forall w | 0 <= w < |t.workers| ensures Knows(t, t.workers[w]) {
      if t.workers[w].Resolved? { ResolvedStep(s, e, w); }
    }
  }

  lemma ResolvedStep(s: State, e: Event, w: nat)
    requires Inv(s) && Enabled(s, e) && w < |Next(s, e).workers| && Next(s, e).workers[w].Resolved?
    ensures Knows(Next(s, e), Next(s, e).workers[w])
  {
    hide Answers, OncePerName;
    if s.workers[w].Resolved? { RightKept(s, e, s.workers[w].norm, s.workers[w].id); }
  }

  lemma LogStep(s: State, e: Event)
    requires Inv(s) && Enabled(s, e)
    ensures var t := Next(s, e); Answers(t, t.returned) && Answers(t, t.inserted) && OncePerName(t.inserted)
  {
    var t := Next(s, e);
    AnswersKept(s, e, s.returned);
    AnswersKept(s, e, s.inserted);
    CacheStep(s, e);
    if e.Cache? { RightKept(s, e, s.workers[e.w].norm, s.workers[e.w].id); }
    if e.Read? || e.Recheck? {
      var norm := s.workers[e.w].norm;
      if norm in s.cache { RightKept(s, e, norm, s.cache[norm]); }
    }
  }

  lemma InvStep(s: State, e: Event)
    requires Inv(s) && Enabled(s, e)
    ensures Inv(Next(s, e))
  {
    CacheStep(s, e);
    ExclusiveStep(s, e);
    LogStep(s, e);
    hide Next, Enabled, Answers, OncePerName, Exclusive, OlderThan;
  }

  lemma {:induction false} RunInv(s: State, run: seq<Event>)
    requires Inv(s) && Runs(s, run)
    ensures Inv(Final(s, run))
    decreases |run|
  {
    if run != [] {
      InvStep(s, run[0]);
      RunInv(Next(s, run[0]), run[1..]);
    }
  }

  /** At most one artist is inserted per name, every answer for a name is the same
      artist, and it and the cached one are the oldest artist that holds the name. */
  lemma OneArtistPerName(s: State, run: seq<Event>)
    requires Start(s) && Runs(s, run)
    ensures var t := Final(s, run);
      && OncePerName(t.inserted)
      && (forall i, j | 0 <= i < |t.returned| && 0 <= j < |t.returned| ::
            t.returned[i].0 == t.returned[j].0 ==> t.returned[i].1 == t.returned[j].1)
      && (forall i :: 0 <= i < |t.returned| ==> Right(t, t.returned[i].0, t.returned[i].1))
      && (forall n :: n in t.cache ==> Right(t, n, t.cache[n]))
  {
    RunInv(s, run);
  }

  /** A name that some artist already holds is never inserted. */
  lemma {:induction false} KnownNotInserted(s: State, run: seq<Event>, norm: string)
    requires Inv(s) && Runs(s, run) && Known(s.aliases, norm)
    ensures forall i | |s.inserted| <= i < |Final(s, run).inserted| :: Final(s, run).inserted[i].0 != norm
    ensures |s.inserted| <= |Final(s, run).inserted|
    ensures s.inserted == Final(s, run).inserted[..|s.inserted|]
    decreases |run|
  {
    if run != [] {
      var t := Next(s, run[0]);
      InvStep(s, run[0]);
      RightKept(s, run[0], norm, OldestArtist(s.aliases, norm));
      assert run[0].Insert? ==> Knows(s, s.workers[run[0].w]);
      KnownNotInserted(t, run[1..], norm);
      var last := Final(t, run[1..]).inserted;
      assert s.inserted <= t.inserted <= last;
    }
  }

  // ----- the cache -----

  /** A cached name is answered at once, without the write lock and the store. */
  lemma CachedAtOnce(s: State, w: nat)
    requires Enabled(s, Read(w)) && s.workers[w].norm in s.cache
    ensures var t := Next(s, Read(w));
      && t.returned == s.returned + [(s.workers[w].norm, s.cache[s.workers[w].norm])] && t.workers[w].Idle?
      && t.aliases == s.aliases && t.inserted == s.inserted && t.cache == s.cache
  {
  }

  ghost predicate AllCached(s: State) {
    forall i :: 0 <= i < |s.returned| ==> s.returned[i].0 in s.cache
  }

  /** Until a restart every name that was answered is cached, so it is looked up once. */
  lemma {:induction false} AnswersCached(s: State, run: seq<Event>)
    requires AllCached(s) && Runs(s, run) && forall e :: e in run ==> !e.Restart?
    ensures AllCached(Final(s, run))
    decreases |run|
  {
    if run != [] {
      assert run[0] in run;
      AnswersCached(Next(s, run[0]), run[1..]);
    }
  }

  /** A restart forgets the cache and every call under way, and frees the lock; what the
      store holds stays. */
  lemma RestartForgets(s: State)
    ensures var t := Next(s, Restart);
      && t.cache == map[] && t.writer == None && t.aliases == s.aliases && t.nextId == s.nextId
      && |t.workers| == |s.workers| && forall w :: 0 <= w < |t.workers| ==> t.workers[w].Idle?
  {
  }

  /** In every run the write lock is free or held by a worker inside the section, which
      can always take its next step: no call waits for a lock that nobody holds. */
  lemma LockNotOrphaned(s: State, run: seq<Event>)
    requires Start(s) && Runs(s, run)
    ensures var t := Final(s, run);
      t.writer.Some? ==>
        var w := t.writer.value;
        w < |t.workers| && Holds(t.workers[w])
        && (Enabled(t, Recheck(w)) || Enabled(t, Lookup(w, true)) || Enabled(t, Insert(w, true, true))
            || Enabled(t, Cache(w)))
  {
    RunInv(s, run);
  }
}
