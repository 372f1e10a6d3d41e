/** The client's growing lists: module-level cache entries that fetches mutate
    across awaits, and the views that show them. Every section between two awaits
    is one step. */
module InfiniteList {
  import opened Keyset

  /** A page token is a string; the empty one asks for, or follows, no page. */
  datatype Page = Page(items: seq<Key>, next: string)

  datatype EntryState = EntryState(items: seq<Key>, pageToken: string, done: bool, inflight: bool)

  /** What a list component shows. */
  datatype ViewState = ViewState(key: string, items: seq<Key>, done: bool, loading: bool, error: bool)

  const EMPTY := EntryState([], "", false, false)

  function Loaded(entry: EntryState, page: Page): EntryState {
    EntryState(entry.items + page.items, page.next, page.next == "", false)
  }

  /** The key effect shows the entry of the new key. */
  function Showing(view: ViewState, entry: EntryState): ViewState {
    view.(items := entry.items, done := entry.done, error := false)
  }

  function ShowLoaded(view: ViewState, key: string, entry: EntryState): ViewState {
    if view.key == key then Showing(view, entry).(loading := false) else view
  }

  function ShowFailed(view: ViewState, key: string): ViewState {
    if view.key == key then view.(error := true, loading := false) else view
  }

  /** loadMore fetches unless a fetch is in flight or the list is complete. */
  predicate Wants(entry: EntryState) {
    !entry.inflight && !entry.done
  }

  function Asked(entry: EntryState): EntryState {
    if Wants(entry) then entry.(inflight := true) else entry
  }

  function ShowAsked(view: ViewState, entry: EntryState): ViewState {
    if Wants(entry) then view.(loading := true) else view
  }

  // ----- the objects -----

  class Entry {
    var items: seq<Key>
    var pageToken: string
    var done: bool
    var inflight: bool

    constructor ()
      ensures Value() == EMPTY
    {
      items, pageToken, done, inflight := [], "", false, false;
    }

    function Value(): EntryState
      reads this
    {
      EntryState(items, pageToken, done, inflight)
    }
  }

  class ListCache {
    var entries: map<string, Entry>

    constructor ()
      ensures entries == map[]
    {
      entries := map[];
    }

    /** Fetches in flight keep the dropped entries. */
    method ClearListCache()
      modifies this
      ensures entries == map[]
    {
      entries := map[];
    }

    method EntryFor(key: string) returns (entry: Entry)
      modifies this
      ensures entries == old(entries)[key := entry]
      ensures key in old(entries) ==> entry == old(entries)[key]
      ensures key !in old(entries) ==> fresh(entry) && entry.Value() == EMPTY
    {
      if key in entries {
        entry := entries[key];
      } else {
        entry := new Entry();
        entries := entries[key := entry];
      }
    }
  }

  class View {
    const cache: ListCache
    var key: string
    var items: seq<Key>
    var done: bool
    var loading: bool
    var error: bool

    constructor (cache: ListCache, key: string)
      ensures this.cache == cache && Value() == ViewState(key, [], false, false, false)
    {
      this.cache, this.key := cache, key;
      items, done, loading, error := [], false, false, false;
    }

    function Value(): ViewState
      reads this
    {
      ViewState(key, items, done, loading, error)
    }

    /** The entry of the current key, empty when the cache has none. */
    function Cached(): EntryState
      reads this, cache, if key in cache.entries then {cache.entries[key]} else {}
    {
      if key in cache.entries then cache.entries[key].Value() else EMPTY
    }

    /** loadMore up to its await: the entry and token to fetch, unless a fetch is in
        flight or the list is complete. */
    method LoadMore() returns (entry: Entry, fetches: bool)
      modifies this, cache, if key in cache.entries then {cache.entries[key]} else {}
      ensures cache.entries == old(cache.entries)[key := entry]
      ensures key in old(cache.entries) ==> entry == old(cache.entries)[key]
      ensures key !in old(cache.entries) ==> fresh(entry)
      ensures var before := old(Cached());
        (fetches <==> Wants(before)) && entry.Value() == Asked(before) && Value() == ShowAsked(old(Value()), before)
      ensures var before := old(Cached());
        && (fetches <==> !before.inflight && !before.done) && (entry.inflight <==> before.inflight || fetches)
        && entry.items == before.items && entry.pageToken == before.pageToken && entry.done == before.done
      ensures (loading <==> old(loading) || fetches)
        && key == old(key) && items == old(items) && done == old(done) && error == old(error)
    {
      entry := cache.EntryFor(key);
      fetches := !entry.inflight && !entry.done;
      if fetches {
        entry.inflight := true;
        loading := true;
      }
    }

    /** loadMore after its await: the entry always takes the page, the view only
        while it still shows the key. */
    method Arrived(entry: Entry, k: string, page: Page)
      modifies this, entry
      ensures entry.Value() == Loaded(old(entry.Value()), page)
      ensures Value() == ShowLoaded(old(Value()), k, entry.Value())
      ensures entry.items == old(entry.items) + page.items && entry.pageToken == page.next && !entry.inflight
      ensures entry.done <==> page.next == ""
      ensures key == old(key)
      ensures key == k ==> items == entry.items && done == entry.done && !loading && !error
      ensures key != k ==> items == old(items) && done == old(done) && loading == old(loading) && error == old(error)
    {
      entry.items := entry.items + page.items;
      entry.pageToken := page.next;
      entry.done := page.next == "";
      if key == k {
        items, done, error := entry.items, entry.done, false;
      }
      entry.inflight := false;
      if key == k { loading := false; }
    }

    method Rejected(entry: Entry, k: string)
      modifies this, entry
      ensures entry.Value() == old(entry.Value()).(inflight := false)
      ensures Value() == ShowFailed(old(Value()), k)
      ensures entry.items == old(entry.items) && entry.pageToken == old(entry.pageToken)
      ensures entry.done == old(entry.done) && !entry.inflight
      ensures key == old(key) && items == old(items) && done == old(done)
      ensures key == k ==> error && !loading
      ensures key != k ==> loading == old(loading) && error == old(error)
    {
      if key == k { error := true; }
      entry.inflight := false;
      if key == k { loading := false; }
    }

    /** The key effect; it starts loading when there is nothing to show yet. */
    method KeyEffect() returns (entry: Entry, fetches: bool)
      modifies this, cache, if key in cache.entries then {cache.entries[key]} else {}
      ensures cache.entries == old(cache.entries)[key := entry]
      ensures key in old(cache.entries) ==> entry == old(cache.entries)[key]
      ensures key !in old(cache.entries) ==> fresh(entry)
      ensures var before := old(Cached());
        && (fetches <==> before.items == [] && Wants(before))
        && (before.items == [] ==>
          entry.Value() == Asked(before) && Value() == ShowAsked(Showing(old(Value()), before), before))
        && (before.items != [] ==> entry.Value() == before && Value() == Showing(old(Value()), before))
      ensures var before := old(Cached());
        && key == old(key) && items == before.items && done == before.done && !error
        && (loading <==> old(loading) || fetches)
        && (fetches <==> before.items == [] && !before.done && !before.inflight)
        && (entry.inflight <==> before.inflight || fetches)
        && entry.items == before.items && entry.pageToken == before.pageToken && entry.done == before.done
    {
      entry := cache.EntryFor(key);
      items, done, error := entry.items, entry.done, false;
      fetches := false;
      if |entry.items| == 0 && !entry.done {
        var same;
        same, fetches := LoadMore();
      }
    }
  }
}
