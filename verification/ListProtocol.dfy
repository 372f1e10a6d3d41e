/** Any interleaving of loads, key changes, failures and cache clears, over any
    number of views: entries stay gap-free page chains, and views show prefixes
    of their own key's chain. */
module ListProtocol {
  import opened Basics
  import opened Keyset
  import opened InfiniteList

  /** One page as asked for and answered. */
  datatype Fetched = Fetched(token: string, page: Page)

  /** An entry object: cached under its key, or dropped with a fetch in flight.
      `pages` is what was fetched for it. */
  datatype Slot = Slot(key: string, entry: EntryState, pages: seq<Fetched>)

  /** A view and, for the proof, the slot it last showed, how many of its pages, and
      whether its key changed since the key effect ran. */
  datatype Shown = Shown(view: ViewState, slot: Option<nat>, pages: nat, stale: bool)

  datatype Request = Request(view: nat, key: string, slot: nat, token: string, open: bool)

  datatype State = State(slots: seq<Slot>, cache: map<string, nat>, views: seq<Shown>, requests: seq<Request>)

  datatype Event =
    | Mount(key: string)
    | LoadMore(v: nat)
    | Resolve(f: nat, page: Page)
    | Reject(f: nat)
    | ChangeKey(v: nat, key: string)
    | KeyEffect(v: nat)
    | Touch(v: nat)
    | Clear

  predicate Enabled(s: State, e: Event) {
    match e
    case Mount(_) => true
    case LoadMore(v) => v < |s.views| && CacheFits(s)
    case Resolve(f, _) => f < |s.requests| && s.requests[f].open && Fits(s, s.requests[f])
    case Reject(f) => f < |s.requests| && s.requests[f].open && Fits(s, s.requests[f])
    case ChangeKey(v, _) => v < |s.views|
    case KeyEffect(v) => v < |s.views| && CacheFits(s)
    case Touch(v) => v < |s.views| && CacheFits(s)
    case Clear => true
  }

  predicate Fits(s: State, f: Request) {
    f.view < |s.views| && f.slot < |s.slots|
  }

  predicate CacheFits(s: State) {
    forall k :: k in s.cache ==> s.cache[k] < |s.slots|
  }

  /** entryFor: the cached slot of the key, or a new empty one. */
  function EntryFor(s: State, key: string): (r: (State, nat))
    requires CacheFits(s)
    ensures r.1 < |r.0.slots| && CacheFits(r.0)
  {
    if key in s.cache then (s, s.cache[key])
    else (s.(slots := s.slots + [Slot(key, EMPTY, [])], cache := s.cache[key := |s.slots|]), |s.slots|)
  }

  /** loadMore of view v up to its await, for slot i of its key. */
  function Ask(s: State, v: nat, i: nat): State
    requires v < |s.views| && i < |s.slots|
  {
    var slot, shown := s.slots[i], s.views[v];
    if !Wants(slot.entry) then s
    else s.(
      slots := s.slots[i := slot.(entry := Asked(slot.entry))],
      views := s.views[v := shown.(view := ShowAsked(shown.view, slot.entry))],
      requests := s.requests + [Request(v, shown.view.key, i, slot.entry.pageToken, true)])
  }

  function AfterResolve(s: State, f: nat, page: Page): State
    requires f < |s.requests| && Fits(s, s.requests[f])
  {
    var req := s.requests[f];
    var slot, shown := s.slots[req.slot], s.views[req.view];
    var loaded := slot.(entry := Loaded(slot.entry, page), pages := slot.pages + [Fetched(req.token, page)]);
    s.(slots := s.slots[req.slot := loaded],
       requests := s.requests[f := req.(open := false)],
       views := if shown.view.key == req.key
         then
           var view := ShowLoaded(shown.view, req.key, loaded.entry);
           s.views[req.view := Shown(view, Some(req.slot), |loaded.pages|, false)]
         else s.views)
  }

  function AfterReject(s: State, f: nat): State
    requires f < |s.requests| && Fits(s, s.requests[f])
  {
    var req := s.requests[f];
    var slot, shown := s.slots[req.slot], s.views[req.view];
    s.(slots := s.slots[req.slot := slot.(entry := slot.entry.(inflight := false))],
       requests := s.requests[f := req.(open := false)],
       views := s.views[req.view := shown.(view := ShowFailed(shown.view, req.key))])
  }

  function Display(s: State, v: nat, i: nat): State
    requires v < |s.views| && i < |s.slots|
  {
    s.(views := s.views[v := Shown(Showing(s.views[v].view, s.slots[i].entry), Some(i), |s.slots[i].pages|, false)])
  }

  function AfterEffect(s: State, v: nat): State
    requires v < |s.views| && CacheFits(s)
  {
    var (t, i) := EntryFor(s, s.views[v].view.key);
    if t.slots[i].entry.items == [] then Ask(Display(t, v, i), v, i) else Display(t, v, i)
  }

  function Next(s: State, e: Event): State
    requires Enabled(s, e)
  {
    match e
    case Mount(key) => s.(views := s.views + [Shown(ViewState(key, [], false, false, false), None, 0, true)])
    case LoadMore(v) =>
      var (t, i) := EntryFor(s, s.views[v].view.key);
      Ask(t, v, i)
    case Resolve(f, page) => AfterResolve(s, f, page)
    case Reject(f) => AfterReject(s, f)
    case ChangeKey(v, key) =>
      var shown := s.views[v];
      s.(views := s.views[v := shown.(view := shown.view.(key := key), stale := shown.stale || key != shown.view.key)])
    case KeyEffect(v) => AfterEffect(s, v)
    case Touch(v) => EntryFor(s, s.views[v].view.key).0
    case Clear => s.(cache := map[])
  }

  ghost predicate Runs(s: State, run: seq<Event>)
    decreases |run|
  {
    run == [] || (Enabled(s, run[0]) && Runs(Next(s, run[0]), run[1..]))
  }

  ghost function Final(s: State, run: seq<Event>): State
    requires Runs(s, run)
    decreases |run|
  {
    if run == [] then s else Final(Next(s, run[0]), run[1..])
  }

  function Init(): State {
    State([], map[], [], [])
  }

  // ----- page chains -----

  function Items(pages: seq<Fetched>): seq<Key> {
    if pages == [] then [] else Items(pages[..|pages| - 1]) + pages[|pages| - 1].page.items
  }

  function NextToken(pages: seq<Fetched>): string {
    if pages == [] then "" else pages[|pages| - 1].page.next
  }

  predicate Complete(pages: seq<Fetched>) {
    pages != [] && NextToken(pages) == ""
  }

  /** Each page was asked for with the token of the page before, the first with the
      empty one, and none after the last. */
  ghost predicate Chained(pages: seq<Fetched>) {
    forall i :: 0 <= i < |pages| ==> pages[i].token == NextToken(pages[..i]) && !Complete(pages[..i])
  }

  ghost predicate Sound(slot: Slot) {
    && Chained(slot.pages) && slot.entry.items == Items(slot.pages)
    && slot.entry.pageToken == NextToken(slot.pages) && (slot.entry.done <==> Complete(slot.pages))
  }

  // ----- requests -----

  /** An open request is the only one of its slot, and asks for its next page. */
  ghost predicate Asking(s: State, f: Request) {
    && Fits(s, f)
    && (f.open ==> AsksFor(f, s.slots[f.slot]))
  }

  predicate AsksFor(f: Request, slot: Slot) {
    slot.entry.inflight && !slot.entry.done && f.key == slot.key && f.token == slot.entry.pageToken
  }

  ghost predicate Requested(s: State) {
    && (forall f :: 0 <= f < |s.requests| ==> Asking(s, s.requests[f]))
    && (forall f, g | 0 <= f < |s.requests| && 0 <= g < |s.requests| && s.requests[f].open && s.requests[g].open ::
          s.requests[f].slot == s.requests[g].slot ==> f == g)
  }

  /** A slot in flight has an open request, so it is never stuck. */
  ghost predicate Awaited(s: State) {
    forall i | 0 <= i < |s.slots| && s.slots[i].entry.inflight :: IsAsked(s, i)
  }

  ghost predicate IsAsked(s: State, i: nat) {
    exists f :: 0 <= f < |s.requests| && s.requests[f].open && s.requests[f].slot == i
  }

  ghost predicate Filed(s: State) {
    forall k | k in s.cache :: s.cache[k] < |s.slots| && s.slots[s.cache[k]].key == k
  }

  /** The view shows the first `pages` pages of its slot. */
  ghost predicate Prefix(s: State, shown: Shown) {
    if shown.slot.None? then shown.view.items == [] && !shown.view.done
    else
      && shown.slot.value < |s.slots| && shown.pages <= |s.slots[shown.slot.value].pages|
      && shown.view.items == Items(s.slots[shown.slot.value].pages[..shown.pages])
      && (shown.view.done <==> Complete(s.slots[shown.slot.value].pages[..shown.pages]))
  }

  /** Once the key effect has run, what a view shows belongs to its key. */
  ghost predicate OwnKey(s: State, shown: Shown) {
    !shown.stale ==> shown.slot.Some? && shown.slot.value < |s.slots| && s.slots[shown.slot.value].key == shown.view.key
  }

  ghost predicate Inv(s: State) {
    && (forall i :: 0 <= i < |s.slots| ==> Sound(s.slots[i]))
    && Requested(s) && Awaited(s) && Filed(s)
    && (forall v :: 0 <= v < |s.views| ==> Prefix(s, s.views[v]) && OwnKey(s, s.views[v]))
  }

  // ----- every step keeps the invariant -----

  lemma ChainNext(pages: seq<Fetched>, token: string, page: Page)
    requires Chained(pages) && token == NextToken(pages) && !Complete(pages)
    ensures var more := pages + [Fetched(token, page)];
      && Chained(more) && Items(more) == Items(pages) + page.items && NextToken(more) == page.next
      && forall k | 0 <= k <= |pages| :: more[..k] == pages[..k]
  {
    var more := pages + [Fetched(token, page)];
    assert more[..|pages|] == pages;
    assert forall k | 0 <= k <= |pages| :: more[..k] == pages[..k];
  }

  lemma EntryForKeeps(s: State, key: string)
    requires Inv(s)
    ensures CacheFits(s)
    ensures var (t, i) := EntryFor(s, key);
      && Inv(t) && t.slots[i].key == key && t.views == s.views && t.requests == s.requests
  {
    assert CacheFits(s);
    var (t, i) := EntryFor(s, key);
    if key !in s.cache {
      assert Sound(Slot(key, EMPTY, []));
      hide Chained, Items, NextToken;
      assert Awaited(t) by {
        forall j | 0 <= j < |t.slots| && t.slots[j].entry.inflight ensures IsAsked(t, j) {
          assert IsAsked(s, j);
        }
      }
      forall v | 0 <= v < |t.views| ensures Prefix(t, t.views[v]) && OwnKey(t, t.views[v]) {
        assert Prefix(s, s.views[v]) && OwnKey(s, s.views[v]);
      }
    }
  }

  lemma AskKeeps(s: State, v: nat, i: nat)
    requires Inv(s) && v < |s.views| && i < |s.slots| && s.slots[i].key == s.views[v].view.key
    ensures Inv(Ask(s, v, i))
  {
    hide Chained, Items;
    var t := Ask(s, v, i);
    if Wants(s.slots[i].entry) {
      AskedAwaited(s, v, i);
      AskedRequests(s, v, i);
      hide Requested, Awaited;
    }
  }

  lemma AskedAwaited(s: State, v: nat, i: nat)
    requires Awaited(s) && v < |s.views| && i < |s.slots| && Wants(s.slots[i].entry)
    ensures Awaited(Ask(s, v, i))
  {
    var t, n := Ask(s, v, i), |s.requests|;
    assert t.requests[n].open && t.requests[n].slot == i;
    forall j | 0 <= j < |t.slots| && t.slots[j].entry.inflight ensures IsAsked(t, j) {
      if j != i {
        assert IsAsked(s, j);
        var f :| 0 <= f < n && s.requests[f].open && s.requests[f].slot == j;
        assert t.requests[f].open && t.requests[f].slot == j;
      }
    }
  }

  lemma AskedRequests(s: State, v: nat, i: nat)
    requires Requested(s) && v < |s.views| && i < |s.slots|
    requires s.slots[i].key == s.views[v].view.key && Wants(s.slots[i].entry)
    ensures Requested(Ask(s, v, i))
  {
  }

  lemma DisplayKeeps(s: State, v: nat, i: nat)
    requires Inv(s) && v < |s.views| && i < |s.slots| && s.slots[i].key == s.views[v].view.key
    ensures Inv(Display(s, v, i))
  {
    hide Chained, Items;
    var t := Display(s, v, i);
    assert s.slots[i].pages[..|s.slots[i].pages|] == s.slots[i].pages;
    assert forall f | 0 <= f < |t.requests| :: Asking(s, s.requests[f]) ==> Asking(t, t.requests[f]);
    assert forall j | 0 <= j < |s.slots| && IsAsked(s, j) :: IsAsked(t, j);
  }

  /** Answering or refusing a request frees its slot alone. */
  lemma ClosedRequest(s: State, t: State, f: nat)
    requires Requested(s) && Awaited(s) && f < |s.requests| && s.requests[f].open
    requires |t.views| == |s.views| && t.requests == s.requests[f := s.requests[f].(open := false)]
    requires s.requests[f].slot < |s.slots| == |t.slots|
    requires t.slots == s.slots[s.requests[f].slot := t.slots[s.requests[f].slot]]
    requires !t.slots[s.requests[f].slot].entry.inflight
    ensures Requested(t) && Awaited(t)
  {
    forall g | 0 <= g < |t.requests| ensures Asking(t, t.requests[g]) {
      assert Asking(s, s.requests[g]);
    }
    forall j | 0 <= j < |t.slots| && t.slots[j].entry.inflight ensures IsAsked(t, j) {
      assert IsAsked(s, j);
      var g :| 0 <= g < |s.requests| && s.requests[g].open && s.requests[g].slot == j;
      assert t.requests[g].open && t.requests[g].slot == j;
    }
  }

  /** The slot grows by the page, and keeps its earlier pages. */
  lemma ResolvedSlot(s: State, f: nat, page: Page)
    requires Inv(s) && f < |s.requests| && s.requests[f].open && Fits(s, s.requests[f])
    ensures var t := AfterResolve(s, f, page);
      var i := s.requests[f].slot;
      var pages, more := s.slots[i].pages, t.slots[i].pages;
      && Sound(t.slots[i]) && more[..|more|] == more && |pages| <= |more|
      && forall k | 0 <= k <= |pages| :: more[..k] == pages[..k]
  {
    var req := s.requests[f];
    assert Asking(s, req);
    var slot := s.slots[req.slot];
    assert Sound(slot);
    ChainNext(slot.pages, req.token, page);
    var more := slot.pages + [Fetched(req.token, page)];
    assert more[..|more|] == more;
  }

  lemma ResolveKeeps(s: State, f: nat, page: Page)
    requires Inv(s) && f < |s.requests| && s.requests[f].open && Fits(s, s.requests[f])
    ensures Inv(AfterResolve(s, f, page))
  {
    hide Chained, Items, Complete, Sound, NextToken;
    var t := AfterResolve(s, f, page);
    ResolvedSlot(s, f, page);
    ResolvedViews(s, f, page);
    ClosedRequest(s, t, f);
    hide Prefix, OwnKey, Requested, Awaited;
  }

  lemma ResolvedViews(s: State, f: nat, page: Page)
    requires Inv(s) && f < |s.requests| && s.requests[f].open && Fits(s, s.requests[f])
    ensures var t := AfterResolve(s, f, page);
      forall v | 0 <= v < |t.views| :: Prefix(t, t.views[v]) && OwnKey(t, t.views[v])
  {
    hide Chained, Items, Complete, NextToken, Requested, Awaited;
    var t, req := AfterResolve(s, f, page), s.requests[f];
    ResolvedSlot(s, f, page);
    assert req.key == s.slots[req.slot].key by { OpenAsks(s, f); }
    forall v | 0 <= v < |t.views| ensures Prefix(t, t.views[v]) && OwnKey(t, t.views[v]) {
      assert Prefix(s, s.views[v]) && OwnKey(s, s.views[v]);
    }
  }

  lemma OpenAsks(s: State, f: nat)
    requires Requested(s) && f < |s.requests| && s.requests[f].open
    ensures Fits(s, s.requests[f]) && AsksFor(s.requests[f], s.slots[s.requests[f].slot])
  {
  }

  lemma RejectKeeps(s: State, f: nat)
    requires Inv(s) && f < |s.requests| && s.requests[f].open && Fits(s, s.requests[f])
    ensures Inv(AfterReject(s, f))
  {
    hide Chained, Items;
    var t := AfterReject(s, f);
    ClosedRequest(s, t, f);
    forall v | 0 <= v < |t.views| ensures Prefix(t, t.views[v]) && OwnKey(t, t.views[v]) {
      assert Prefix(s, s.views[v]) && OwnKey(s, s.views[v]);
    }
  }

  lemma InvStep(s: State, e: Event)
    requires Inv(s) && Enabled(s, e)
    ensures Inv(Next(s, e))
  {
    match e
    case LoadMore(v) =>
      EntryForKeeps(s, s.views[v].view.key);
      var (t, i) := EntryFor(s, s.views[v].view.key);
      AskKeeps(t, v, i);
    case KeyEffect(v) =>
      EntryForKeeps(s, s.views[v].view.key);
      var (t, i) := EntryFor(s, s.views[v].view.key);
      DisplayKeeps(t, v, i);
      AskKeeps(Display(t, v, i), v, i);
    case Touch(v) => EntryForKeeps(s, s.views[v].view.key);
    case Resolve(f, page) => ResolveKeeps(s, f, page);
    case Reject(f) => RejectKeeps(s, f);
    case Mount(_) => ViewsOnly(s, Next(s, e));
    case ChangeKey(_, _) => ViewsOnly(s, Next(s, e));
    case Clear => ViewsOnly(s, Next(s, e));
  }

  /** Steps that touch only views and the cache. */
  lemma ViewsOnly(s: State, t: State)
    requires Inv(s) && t.slots == s.slots && t.requests == s.requests && |s.views| <= |t.views|
    requires t.cache == s.cache || t.cache == map[]
    requires forall v | 0 <= v < |t.views| :: Prefix(t, t.views[v]) && OwnKey(t, t.views[v])
    ensures Inv(t)
  {
  }
}
