/** What the growing lists promise over every run, and that a complete list over a
    table that does not change is the table's whole listing. */
module ListRuns {
  import opened Basics
  import opened Keyset
  import opened InfiniteList
  import opened ListProtocol

  lemma {:induction false} RunInv(s: State, run: seq<Event>)
    requires Inv(s) && Runs(s, run)
    ensures Inv(Final(s, run))
    decreases |run|
  {
    if run != [] {
      InvStep(s, run[0]);
      RunInv(Next(s, run[0]), run[1..]);
    }
  }

  /** Every entry is the pages chained from the empty token, without gap or repeat,
      complete only after the last page; every view shows the first pages of an
      entry, which is its own key's once the key effect has run. */
  lemma ListsStaySound(run: seq<Event>)
    requires Runs(Init(), run)
    ensures var s := Final(Init(), run);
      && (forall i :: 0 <= i < |s.slots| ==> Sound(s.slots[i]))
      && (forall v :: 0 <= v < |s.views| ==> Prefix(s, s.views[v]) && OwnKey(s, s.views[v]))
      && Requested(s) && Awaited(s)
  {
    RunInv(Init(), run);
  }

  /** A fetch that ends changes its own entry, and no view but its own, and that
      only if the view still has the key. */
  lemma OtherKeysUntouched(s: State, e: Event)
    requires Inv(s) && Enabled(s, e) && (e.Resolve? || e.Reject?)
    ensures var req, t := s.requests[e.f], Next(s, e);
      && (forall i | 0 <= i < |s.slots| && s.slots[i].key != req.key :: t.slots[i] == s.slots[i])
      && (forall v | 0 <= v < |s.views| && (s.views[v].view.key != req.key || v != req.view) ::
        t.views[v] == s.views[v])
  {
  }

  /** Entries only grow, by whole pages. */
  lemma {:induction false} PagesOnlyGrow(s: State, run: seq<Event>, i: nat)
    requires Runs(s, run) && i < |s.slots|
    ensures i < |Final(s, run).slots| && Final(s, run).slots[i].key == s.slots[i].key
    ensures s.slots[i].pages <= Final(s, run).slots[i].pages
    decreases |run|
  {
    if run != [] {
      GrowStep(s, run[0], i);
      PagesOnlyGrow(Next(s, run[0]), run[1..], i);
    }
  }

  lemma GrowStep(s: State, e: Event, i: nat)
    requires Enabled(s, e) && i < |s.slots|
    ensures i < |Next(s, e).slots| && Next(s, e).slots[i].key == s.slots[i].key
    ensures s.slots[i].pages <= Next(s, e).slots[i].pages
  {
  }

  // ----- against the server -----

  /** Each fetch was answered with the server's page of one fixed table. A token
      decodes to the cursor it was made from; only the empty one to none. */
  ghost predicate Served(desc: seq<bool>, keys: set<Key>, limit: nat, decode: string -> Option<Key>,
                         pages: seq<Fetched>)
    requires Shaped(desc, keys)
  {
    && (forall t :: decode(t).None? <==> t == "")
    && forall i :: 0 <= i < |pages| ==>
         IsPage(desc, keys, decode(pages[i].token), limit, pages[i].page.items, decode(pages[i].page.next))
  }

  /** What a request with this token would list, were there no limit. */
  ghost function Left(desc: seq<bool>, keys: set<Key>, decode: string -> Option<Key>, token: string): seq<Key>
    requires Shaped(desc, keys)
  {
    Listing(desc, Rest(desc, keys, decode(token)))
  }

  ghost predicate Fitting(desc: seq<bool>, decode: string -> Option<Key>, token: string) {
    decode(token).Some? ==> |decode(token).value| == |desc|
  }

  /** One served page: its items come off the front of what was left. */
  lemma OnePage(desc: seq<bool>, keys: set<Key>, limit: nat, decode: string -> Option<Key>, f: Fetched)
    requires Shaped(desc, keys) && limit > 0 && Served(desc, keys, limit, decode, [f]) && Fitting(desc, decode, f.token)
    ensures f.page.next == "" ==> f.page.items == Left(desc, keys, decode, f.token)
    ensures f.page.next != "" ==> Fitting(desc, decode, f.page.next)
    ensures f.page.next != "" ==>
      f.page.items + Left(desc, keys, decode, f.page.next) == Left(desc, keys, decode, f.token)
  {
    var cursor := decode(f.token);
    assert [f][0] == f && IsPage(desc, keys, cursor, limit, f.page.items, decode(f.page.next));
    PageTakesFront(desc, keys, cursor, limit, f.page.items, decode(f.page.next));
  }

  /** The items so far and what is left make up the whole listing. */
  lemma {:induction false} ServedSoFar(desc: seq<bool>, keys: set<Key>, limit: nat, decode: string -> Option<Key>,
                                       pages: seq<Fetched>)
    requires Shaped(desc, keys) && limit > 0 && Served(desc, keys, limit, decode, pages) && Chained(pages)
    ensures Complete(pages) ==> Items(pages) == Left(desc, keys, decode, "")
    ensures !Complete(pages) ==> Fitting(desc, decode, NextToken(pages))
    ensures !Complete(pages) ==>
      Items(pages) + Left(desc, keys, decode, NextToken(pages)) == Left(desc, keys, decode, "")
    decreases |pages|
  {
    hide Left, Shaped, Served, Chained;
    if pages == [] {
      assert Items(pages) + Left(desc, keys, decode, "") == Left(desc, keys, decode, "");
      assert Fitting(desc, decode, "") by { EmptyToken(desc, keys, limit, decode, pages); }
    } else {
      var n := |pages| - 1;
      var before, last := pages[..n], pages[n];
      ServedParts(desc, keys, limit, decode, pages);
      ServedSoFar(desc, keys, limit, decode, before);
      OnePage(desc, keys, limit, decode, last);
      var rest := Left(desc, keys, decode, last.page.next);
      assert (Items(before) + last.page.items) + rest == Items(before) + (last.page.items + rest);
    }
  }

  lemma EmptyToken(desc: seq<bool>, keys: set<Key>, limit: nat, decode: string -> Option<Key>, pages: seq<Fetched>)
    requires Shaped(desc, keys) && Served(desc, keys, limit, decode, pages)
    ensures Fitting(desc, decode, "")
  {
  }

  lemma ServedParts(desc: seq<bool>, keys: set<Key>, limit: nat, decode: string -> Option<Key>, pages: seq<Fetched>)
    requires Shaped(desc, keys) && Served(desc, keys, limit, decode, pages) && Chained(pages) && pages != []
    ensures var n := |pages| - 1;
      && Served(desc, keys, limit, decode, pages[..n]) && Chained(pages[..n])
      && Served(desc, keys, limit, decode, [pages[n]])
      && pages[n].token == NextToken(pages[..n]) && !Complete(pages[..n])
  {
    hide IsPage, Complete, NextToken;
    var n := |pages| - 1;
    assert forall i | 0 <= i < n :: pages[..n][i] == pages[i] && pages[..n][..i] == pages[..i];
  }

  /** A complete list over a table that did not change holds every row, in order, once. */
  lemma CompleteListIsListing(desc: seq<bool>, keys: set<Key>, limit: nat, decode: string -> Option<Key>, slot: Slot)
    requires Shaped(desc, keys) && limit > 0 && Sound(slot) && Served(desc, keys, limit, decode, slot.pages)
    requires slot.entry.done
    ensures slot.entry.items == Listing(desc, keys)
  {
    ServedSoFar(desc, keys, limit, decode, slot.pages);
    assert Rest(desc, keys, None) == keys;
  }

  // ----- which pages a view shows -----

  /** The view shows everything fetched for its entry. */
  ghost predicate ShowsAll(s: State, v: nat)
    requires v < |s.views|
  {
    var shown := s.views[v];
    shown.slot.Some? && shown.slot.value < |s.slots| && shown.pages == |s.slots[shown.slot.value].pages|
  }

  /** The view's key effect runs, or its own fetch for its present key arrives. */
  predicate Refreshes(s: State, e: Event, v: nat)
    requires Enabled(s, e) && v < |s.views|
  {
    || (e.KeyEffect? && e.v == v)
    || (e.Resolve? && s.requests[e.f].view == v && s.requests[e.f].key == s.views[v].view.key)
  }

  /** A page arrives for the entry that the view shows. */
  predicate EntryGrows(s: State, e: Event, v: nat)
    requires Enabled(s, e) && v < |s.views|
  {
    e.Resolve? && s.views[v].slot == Some(s.requests[e.f].slot)
  }

  /** After any step a view shows its whole entry if and only if the step refreshed
      it, or it did before and no page came for the entry behind its back. */
  lemma ShowsAllIff(s: State, e: Event, v: nat)
    requires Inv(s) && Enabled(s, e) && v < |s.views|
    ensures v < |Next(s, e).views|
    ensures ShowsAll(Next(s, e), v) <==> Refreshes(s, e, v) || (ShowsAll(s, v) && !EntryGrows(s, e, v))
  {
    if e.Resolve? {
      PageArrives(s, e, v);
    } else {
      PagesKept(s, e, v);
      hide Next, Inv;
    }
  }

  lemma PageArrives(s: State, e: Event, v: nat)
    requires Inv(s) && Enabled(s, e) && v < |s.views| && e.Resolve?
    ensures v < |Next(s, e).views|
    ensures ShowsAll(Next(s, e), v) <==> Refreshes(s, e, v) || (ShowsAll(s, v) && !EntryGrows(s, e, v))
  {
    assert Prefix(s, s.views[v]);
    hide Inv, Items, Complete, Chained, NextToken, Loaded, ShowLoaded;
  }

  /** Without an answer no entry grows, and only the key effect shows another one. */
  lemma PagesKept(s: State, e: Event, v: nat)
    requires Enabled(s, e) && v < |s.views| && !e.Resolve?
    ensures var t := Next(s, e);
      && v < |t.views| && |t.slots| >= |s.slots|
      && (forall i | 0 <= i < |s.slots| :: t.slots[i].pages == s.slots[i].pages)
      && (if e.KeyEffect? && e.v == v then ShowsAll(t, v)
          else t.views[v].slot == s.views[v].slot && t.views[v].pages == s.views[v].pages)
  {
  }

  // ----- the loading flag -----

  ghost predicate Fetching(s: State, v: nat) {
    exists f :: 0 <= f < |s.requests| && s.requests[f].open && s.requests[f].view == v
  }

  /** The flag is set exactly while a fetch of the view is in flight. */
  ghost predicate Honest(s: State, v: nat)
    requires v < |s.views|
  {
    s.views[v].view.loading <==> Fetching(s, v)
  }

  ghost predicate LastOpen(s: State, f: nat)
    requires f < |s.requests|
  {
    forall g | 0 <= g < |s.requests| && s.requests[g].open && s.requests[g].view == s.requests[f].view :: g == f
  }

  /** A fetch ends that the flag is not cleared for although it was the view's last,
      or is cleared for although another one is in flight. */
  ghost predicate Misleads(s: State, e: Event, v: nat)
    requires Enabled(s, e) && v < |s.views|
  {
    && (e.Resolve? || e.Reject?) && s.requests[e.f].view == v
    && (s.requests[e.f].key == s.views[v].view.key) != LastOpen(s, e.f)
  }

  /** An honest flag stays honest exactly unless the step is one of these. */
  lemma HonestIff(s: State, e: Event, v: nat)
    requires Inv(s) && Enabled(s, e) && v < |s.views| && Honest(s, v)
    ensures v < |Next(s, e).views|
    ensures Honest(Next(s, e), v) <==> !Misleads(s, e, v)
  {
    hide Sound, Prefix, OwnKey, Awaited;
    if e.Resolve? || e.Reject? {
      FetchEnds(s, e, v);
    } else if e.LoadMore? || e.KeyEffect? {
      FetchStarts(s, e, v);
    } else {
      assert Next(s, e).requests == s.requests;
    }
  }

  lemma FetchEnds(s: State, e: Event, v: nat)
    requires Inv(s) && Enabled(s, e) && v < |s.views| && (e.Resolve? || e.Reject?)
    ensures var t := Next(s, e);
      Fetching(t, v) <==> Fetching(s, v) && !(s.requests[e.f].view == v && LastOpen(s, e.f))
  {
    var t := Next(s, e);
    assert t.requests == s.requests[e.f := s.requests[e.f].(open := false)];
    hide Next, Inv;
    if g :| 0 <= g < |s.requests| && g != e.f && s.requests[g].open && s.requests[g].view == v {
      assert t.requests[g] == s.requests[g];
    }
  }

  /** A request appears exactly when the flag is set. */
  lemma AskShape(s: State, e: Event)
    requires Enabled(s, e) && (e.LoadMore? || e.KeyEffect?)
    ensures var t := Next(s, e);
      && |t.views| == |s.views|
      && (forall v | 0 <= v < |s.views| && v != e.v :: t.views[v] == s.views[v])
      && if t.views[e.v].view.loading && |t.requests| > |s.requests|
         then exists r :: t.requests == s.requests + [r] && r.open && r.view == e.v
         else t.requests == s.requests && t.views[e.v].view.loading == s.views[e.v].view.loading
  {
    var t := Next(s, e);
    assert |t.requests| > |s.requests| ==> t.requests == s.requests + [t.requests[|s.requests|]];
  }

  lemma FetchStarts(s: State, e: Event, v: nat)
    requires Inv(s) && Enabled(s, e) && v < |s.views| && Honest(s, v) && (e.LoadMore? || e.KeyEffect?)
    ensures v < |Next(s, e).views| && Honest(Next(s, e), v)
  {
    AskShape(s, e);
    var t := Next(s, e);
    hide Next, Enabled, Inv;
    if t.requests != s.requests {
      var r :| t.requests == s.requests + [r] && r.open && r.view == e.v;
      assert t.requests[|s.requests|] == r;
      assert forall f | 0 <= f < |s.requests| :: t.requests[f] == s.requests[f];
    }
  }

  /** No step of the run ends a fetch behind a flag. */
  ghost predicate NeverMisleads(s: State, run: seq<Event>)
    requires Runs(s, run)
    decreases |run|
  {
    run == []
    || ((forall v: nat | v < |s.views| :: !Misleads(s, run[0], v)) && NeverMisleads(Next(s, run[0]), run[1..]))
  }

  ghost predicate AllHonest(s: State) {
    forall v: nat | v < |s.views| :: Honest(s, v)
  }

  /** So in every run without such a step every view's flag is right. */
  lemma {:induction false} FlagsHonest(s: State, run: seq<Event>)
    requires Inv(s) && AllHonest(s) && Runs(s, run) && NeverMisleads(s, run)
    ensures AllHonest(Final(s, run))
    decreases |run|
  {
    if run != [] {
      var t := Next(s, run[0]);
      InvStep(s, run[0]);
      forall v: nat | v < |t.views| ensures Honest(t, v) {
        if v < |s.views| { HonestIff(s, run[0], v); } else { NewViewHonest(s, run[0]); }
      }
      hide Honest, Inv;
      FlagsHonest(t, run[1..]);
    }
  }

  lemma NewViewHonest(s: State, e: Event)
    requires Inv(s) && Enabled(s, e)
    ensures var t := Next(s, e);
      |t.views| >= |s.views| && forall v: nat | |s.views| <= v < |t.views| :: Honest(t, v)
  {
    hide Sound, Prefix, OwnKey, Awaited;
    if e.Mount? {
      forall f | 0 <= f < |s.requests| ensures s.requests[f].view < |s.views| {
        assert Asking(s, s.requests[f]);
      }
    }
  }

  // ----- clearing -----

  /** After a clear a view that runs its key effect shows nothing and asks for the first
      page again, whatever was cached or in flight. */
  lemma ClearRefetches(s: State, v: nat)
    requires Inv(s) && v < |s.views|
    ensures Enabled(s, Clear) && Enabled(Next(s, Clear), KeyEffect(v))
    ensures var t := Next(Next(s, Clear), KeyEffect(v));
      && v < |t.views| && t.views[v].view.items == [] && !t.views[v].view.done && t.views[v].view.loading
      && |t.requests| == |s.requests| + 1
      && t.requests[|s.requests|] == Request(v, s.views[v].view.key, |s.slots|, "", true)
  {
    hide Inv;
  }

  // ----- two runs -----

  ghost predicate Reachable(s: State) {
    exists run :: Runs(Init(), run) && Final(Init(), run) == s
  }

  lemma {:induction false} RunThen(s: State, run: seq<Event>, e: Event)
    requires Runs(s, run) && Enabled(Final(s, run), e)
    ensures Runs(s, run + [e]) && Final(s, run + [e]) == Next(Final(s, run), e)
    decreases |run|
  {
    if run == [] {
      assert (run + [e])[1..] == [];
    } else {
      RunThen(Next(s, run[0]), run[1..], e);
      assert (run + [e])[1..] == run[1..] + [e];
    }
  }

  lemma Reach(s: State, e: Event)
    requires Reachable(s) && Enabled(s, e)
    ensures Reachable(Next(s, e))
  {
    var run :| Runs(Init(), run) && Final(Init(), run) == s;
    RunThen(Init(), run, e);
  }

  /** List "b" is complete and shown, and the first page of list "a" is asked for. */
  function Outlived(): State {
    State([Slot("b", EntryState([[Num(1)]], "", true, false), [Fetched("", Page([[Num(1)]], ""))]),
           Slot("a", EntryState([], "", false, true), [])],
          map["b" := 0, "a" := 1],
          [Shown(ViewState("b", [[Num(1)]], true, true, false), Some(0), 1, false)],
          [Request(0, "b", 0, "", false), Request(0, "a", 1, "", true)])
  }

  lemma OutlivedReachable()
    ensures Reachable(Outlived())
  {
    assert Runs(Init(), []) && Final(Init(), []) == Init();
    var s0 := Next(Init(), Mount("b"));
    Reach(Init(), Mount("b"));
    var s1 := Next(s0, KeyEffect(0));
    Reach(s0, KeyEffect(0));
    assert s1.slots == [Slot("b", EntryState([], "", false, true), [])];
    FirstPage(s1);
  }

  /** The only page of list "b" arrives. */
  lemma FirstPage(s1: State)
    requires Reachable(s1)
    requires s1 == State([Slot("b", EntryState([], "", false, true), [])], map["b" := 0],
      [Shown(ViewState("b", [], false, true, false), Some(0), 0, false)], [Request(0, "b", 0, "", true)])
    ensures Reachable(Outlived())
  {
    var s2 := Next(s1, Resolve(0, Page([[Num(1)]], "")));
    Reach(s1, Resolve(0, Page([[Num(1)]], "")));
    assert [] + [[Num(1)]] == [[Num(1)]];
    assert [] + [Fetched("", Page([[Num(1)]], ""))] == [Fetched("", Page([[Num(1)]], ""))];
    assert s2.slots == [Slot("b", EntryState([[Num(1)]], "", true, false), [Fetched("", Page([[Num(1)]], ""))])];
    assert s2.views == [Shown(ViewState("b", [[Num(1)]], true, false, false), Some(0), 1, false)];
    assert s2.requests == [Request(0, "b", 0, "", false)];
    LeaveAndReturn(s2);
  }

  /** The reader looks at list "a" and comes back before its page arrives. */
  lemma LeaveAndReturn(s: State)
    requires Reachable(s)
    requires s == State([Slot("b", EntryState([[Num(1)]], "", true, false), [Fetched("", Page([[Num(1)]], ""))])],
      map["b" := 0],
      [Shown(ViewState("b", [[Num(1)]], true, false, false), Some(0), 1, false)],
      [Request(0, "b", 0, "", false)])
    ensures Reachable(Outlived())
  {
    var s3 := Next(s, ChangeKey(0, "a"));
    Reach(s, ChangeKey(0, "a"));
    var s4 := Next(s3, KeyEffect(0));
    Reach(s3, KeyEffect(0));
    ReturnEarly(s4);
  }

  lemma ReturnEarly(s4: State)
    requires Reachable(s4)
    requires s4 == Outlived().(views := [Shown(ViewState("a", [], false, true, false), Some(1), 0, false)])
    ensures Reachable(Outlived())
  {
    var s5 := Next(s4, ChangeKey(0, "b"));
    Reach(s4, ChangeKey(0, "b"));
    Reach(s5, KeyEffect(0));
    assert Next(s5, KeyEffect(0)) == Outlived();
  }

  /** A fetch that outlives its key leaves the view loading: nothing is in flight
      any more, the shown list is complete, and the flag is still set. */
  lemma LoadingStaysOn()
    ensures exists s :: Reachable(s) && LoadsNothing(s)
  {
    OutlivedReachable();
    Reach(Outlived(), Resolve(1, Page([], "")));
    assert LoadsNothing(Next(Outlived(), Resolve(1, Page([], ""))));
  }

  predicate LoadsNothing(s: State) {
    && |s.views| == 1 && s.views[0].view.loading && s.views[0].view.done
    && forall f :: 0 <= f < |s.requests| ==> !s.requests[f].open
  }

  /** Nothing is in flight, the key's entry is complete and not empty, and a view of
      this key shows none of it, for good. */
  ghost predicate ShowsNothing(s: State, v: nat) {
    && v < |s.views| && s.views[v].view == ViewState("a", [], false, false, false) && !s.views[v].stale
    && "a" in s.cache && s.cache["a"] < |s.slots|
    && s.slots[s.cache["a"]].entry.done && s.slots[s.cache["a"]].entry.items != []
    && (forall f :: 0 <= f < |s.requests| ==> !s.requests[f].open)
    && Enabled(s, LoadMore(v)) && Next(s, LoadMore(v)) == s
  }

  /** A second view of a key, mounted while the first one's fetch is in flight, gets
      nothing of what that fetch brings. */
  lemma SecondViewStaysEmpty()
    ensures exists s :: Reachable(s) && ShowsNothing(s, 1)
  {
    assert Runs(Init(), []) && Final(Init(), []) == Init();
    var s0 := Next(Init(), Mount("a"));
    Reach(Init(), Mount("a"));
    var s1 := Next(s0, KeyEffect(0));
    Reach(s0, KeyEffect(0));
    var s2 := Next(s1, Mount("a"));
    Reach(s1, Mount("a"));
    MountedTwice(s2);
  }

  lemma MountedTwice(s: State)
    requires Reachable(s) && s.cache == map["a" := 0] && s.requests == [Request(0, "a", 0, "", true)]
    requires s.slots == [Slot("a", EntryState([], "", false, true), [])]
    requires |s.views| == 2 && s.views[0].view.key == "a"
    requires s.views[1] == Shown(ViewState("a", [], false, false, false), None, 0, true)
    ensures exists t :: Reachable(t) && ShowsNothing(t, 1)
  {
    var page := Page([[Num(1)]], "");
    var s3 := Next(s, KeyEffect(1));
    Reach(s, KeyEffect(1));
    assert s3.requests == s.requests && s3.slots == s.slots;
    var s4 := Next(s3, Resolve(0, page));
    Reach(s3, Resolve(0, page));
    assert ShowsNothing(s4, 1);
  }
}
