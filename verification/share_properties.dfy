/** Properties relating the share store's operations to each other
    (src/services/shareService.js:75-191): filtering by id keeps order and
    removes only that id, deleting a freshly saved share restores the
    store, a saved share is found by its id, updates are what later lookups
    see, every lookup counts one view, and links lead back to their share. */
module ShareProperties {
  import opened Wrappers
  import opened Text
  import opened Seqs
  import opened ShareService

  // ---------------------------------------------------------------------
  // Filtering by id
  // ---------------------------------------------------------------------

  /** Filtering distributes over concatenation, so the entries kept stay in
      their original order. */
  lemma {:induction false} WithoutAppend<T(!new)>(a: seq<T>, b: seq<T>, key: T -> string, id: string)
    ensures Without(a + b, key, id) == Without(a, key, id) + Without(b, key, id)
    decreases |a|
  {
    if a == [] {
      assert a + b == b;
    } else {
      assert (a + b)[1..] == a[1..] + b;
      WithoutAppend(a[1..], b, key, id);
    }
  }

  /** Nothing is removed when no entry has the id. */
  lemma {:induction false} WithoutNothingToRemove<T(!new)>(s: seq<T>, key: T -> string, id: string)
    requires forall k :: 0 <= k < |s| ==> key(s[k]) != id
    ensures Without(s, key, id) == s
    decreases |s|
  {
    if s != [] {
      WithoutNothingToRemove(s[1..], key, id);
      assert s == [s[0]] + s[1..];
    }
  }

  /** Deleting twice is deleting once. */
  lemma DeleteIdempotent(store: ShareStore, id: string)
    ensures DeleteShareData(DeleteShareData(store, id), id) == DeleteShareData(store, id)
  {
    var once := DeleteShareData(store, id);
    WithoutNothingToRemove(once.shares, ShareId, id);
    WithoutNothingToRemove(once.history, ItemId, id);
  }

  // ---------------------------------------------------------------------
  // Saving, deleting and looking up
  // ---------------------------------------------------------------------

  /** No share and no history entry has the id yet. */
  predicate Fresh(store: ShareStore, id: string) {
    && (forall k :: 0 <= k < |store.shares| ==> store.shares[k].id != id)
    && (forall k :: 0 <= k < |store.history| ==> store.history[k].id != id)
  }

  /** Deleting a share just saved under a fresh id gives back the store as
      it was, as long as saving did not evict anything. */
  lemma DeleteUndoesSave(store: ShareStore, s: ShareData, clean: string -> string)
    requires Fresh(store, s.id)
    requires |store.shares| < MaxShares && |store.history| < MaxHistory
    ensures DeleteShareData(SaveShareData(store, s, clean), s.id) == store
  {
    var saved := SaveShareData(store, s, clean);
    WithoutAppend(store.shares, [s], ShareId, s.id);
    WithoutNothingToRemove(store.shares, ShareId, s.id);
    assert Without([s], ShareId, s.id) == [];
    var item := HistoryItemOf(s, clean);
    assert saved.history == [item] + store.history;
    WithoutAppend([item], store.history, ItemId, s.id);
    WithoutNothingToRemove(store.history, ItemId, s.id);
    assert Without([item], ItemId, s.id) == [];
  }

  /** A share saved under a fresh id is what a lookup of that id returns,
      with its first view counted. */
  lemma SavedShareIsFound(store: ShareStore, s: ShareData, clean: string -> string, now: string)
    requires forall k :: 0 <= k < |store.shares| ==> store.shares[k].id != s.id
    ensures GetShareData(SaveShareData(store, s, clean), s.id, now).share == Some(Viewed(s, now))
  {
    var saved := SaveShareData(store, s, clean).shares;
    var last := |saved| - 1;
    assert FirstWithId(saved, s.id, last);
  }

  /** A freshly created share is shown, on its first lookup, with exactly
      one view recorded at the time of that lookup. */
  lemma CreatedShareFirstView(store: ShareStore, id: string, message: MessageInput, context: seq<MessageInput>,
                              options: ShareOptions, env: Env, clean: string -> string, now: string)
    requires forall k :: 0 <= k < |store.shares| ==> store.shares[k].id != id
    ensures var s := CreateShareData(id, message, context, options, env);
      var found := GetShareData(SaveShareData(store, s, clean), id, now).share;
      found.Some? && found.value.stats == Stats(1, Some(now))
  {
    var s := CreateShareData(id, message, context, options, env);
    SavedShareIsFound(store, s, clean, now);
  }

  /** Only one index can hold the first share with an id. */
  lemma FirstWithIdUnique(shares: seq<ShareData>, id: string, i: int, j: int)
    requires FirstWithId(shares, id, i) && FirstWithId(shares, id, j)
    ensures i == j
  {
  }

  /** After an update that replaced a share, a lookup of that id returns
      the update, with one more view. */
  lemma UpdateIsSeen(store: ShareStore, u: ShareData, now: string)
    requires UpdateShareData(store.shares, u).replaced
    ensures GetShareData(store.(shares := UpdateShareData(store.shares, u).shares), u.id, now).share
      == Some(Viewed(u, now))
  {
    var shares := UpdateShareData(store.shares, u).shares;
    var i :| FirstWithId(store.shares, u.id, i) && shares == store.shares[i := u];
    assert FirstWithId(shares, u.id, i);
    forall j | FirstWithId(shares, u.id, j)
      ensures j == i
    {
      FirstWithIdUnique(shares, u.id, i, j);
    }
  }

  /** Looking up the same id once per entry of `times`, in order. */
  function LookUpRepeatedly(store: ShareStore, id: string, times: seq<string>): ShareStore
    decreases |times|
  {
    if times == [] then store
    else LookUpRepeatedly(GetShareData(store, id, times[0]).store, id, times[1..])
  }

  /** Every lookup counts: after `n` lookups of a stored id, the first share
      with that id has `n` more views, the last lookup's time as its last
      view, and its position, its other fields and every other share are as
      before. */
  lemma {:induction false} ViewsCountLookups(store: ShareStore, id: string, times: seq<string>, i: nat)
    requires FirstWithId(store.shares, id, i)
    ensures var after := LookUpRepeatedly(store, id, times).shares;
      && |after| == |store.shares|
      && FirstWithId(after, id, i)
      && after[i].stats.views == store.shares[i].stats.views + |times|
      && (times != [] ==> after[i].stats.lastViewed == Some(times[|times| - 1]))
      && after[i].(stats := store.shares[i].stats) == store.shares[i]
      && forall k :: 0 <= k < |after| && k != i ==> after[k] == store.shares[k]
    decreases |times|
  {
    if times != [] {
      var next := GetShareData(store, id, times[0]).store;
      var j :| FirstWithId(store.shares, id, j)
        && next.shares == store.shares[j := Viewed(store.shares[j], times[0])];
      FirstWithIdUnique(store.shares, id, i, j);
      assert FirstWithId(next.shares, id, i);
      ViewsCountLookups(next, id, times[1..], i);
      if |times| > 1 {
        assert times[1..][|times[1..]| - 1] == times[|times| - 1];
      }
    }
  }

  // ---------------------------------------------------------------------
  // Links and previews
  // ---------------------------------------------------------------------

  /** A generated link leads back to its share id. */
  lemma LinkRoundTrip(baseUrl: string, id: string)
    ensures LinkedShareId(baseUrl, GenerateShareLink(baseUrl, id)) == Some(id)
  {
    var prefix := baseUrl + SharePath;
    var link := GenerateShareLink(baseUrl, id);
    assert link == prefix + id;
    assert link[|prefix|..] == id;
  }

  /** Distinct shares of the same page get distinct links. */
  lemma LinkInjective(baseUrl: string, id1: string, id2: string)
    requires GenerateShareLink(baseUrl, id1) == GenerateShareLink(baseUrl, id2)
    ensures id1 == id2
  {
    LinkRoundTrip(baseUrl, id1);
    LinkRoundTrip(baseUrl, id2);
  }

  /** A preview is never longer than the limit plus the ellipsis, and
      without its ellipsis it is the start of the cleaned content. */
  lemma PreviewBounded(content: Option<string>, maxLength: nat, clean: string -> string)
    ensures |MessagePreview(content, maxLength, clean)| <= maxLength + |Ellipsis|
    ensures Truthy(content) ==>
      var r := MessagePreview(content, maxLength, clean);
      var c := clean(content.value);
      exists n :: 0 <= n <= |c| && (r == c[..n] || r == c[..n] + Ellipsis)
  {
    var r := MessagePreview(content, maxLength, clean);
    if Truthy(content) {
      var c := clean(content.value);
      if |c| > maxLength {
        assert r == c[..maxLength] + Ellipsis;
      } else {
        assert r == c[..|c|];
      }
    } else {
      assert |NoContent| == 3;
    }
  }
}
