/** The share store (`ShareService`, src/services/shareService.js) with its
    persistence abstracted away: the two localStorage keys become the two
    sequences of a `ShareStore` value, and every method is a pure
    transition from one store to the next. The clock, the browser
    environment, the share-id generator and the Markdown-cleaning regex
    chain are parameters. */
module ShareService {
  import opened Wrappers
  import opened Text
  import opened Seqs

  const MaxShares: nat := 100
  const MaxHistory: nat := 50
  const PreviewLength: nat := 100
  const DefaultShareType: string := "link"
  const NoContent: string := "无内容"
  const Ellipsis: string := "..."
  const SharePath: string := "#/share/"

  // ---------------------------------------------------------------------
  // Records
  // ---------------------------------------------------------------------

  /** A chat message as handed to `createShareData`; its timestamp may be
      missing. */
  datatype MessageInput = MessageInput(role: string, content: string, timestamp: Option<string>)

  /** A message as stored in a share. */
  datatype SharedMessage = SharedMessage(role: string, content: string, timestamp: string)

  datatype Metadata = Metadata(
    createdAt: string,
    publicAccess: bool,
    includeContext: bool,
    shareType: string,
    userAgent: string,
    url: string)

  /** View statistics; `lastViewed` is `null` until the first view. */
  datatype Stats = Stats(views: nat, lastViewed: Option<string>)

  datatype ShareData = ShareData(
    id: string,
    message: SharedMessage,
    context: seq<SharedMessage>,
    metadata: Metadata,
    stats: Stats)

  /** The summary kept in the share history. */
  datatype HistoryItem = HistoryItem(
    id: string,
    messagePreview: string,
    shareType: string,
    createdAt: string,
    views: nat,
    publicAccess: bool)

  /** The two storage keys: all shares, oldest first, and the history,
      newest first. */
  datatype ShareStore = ShareStore(shares: seq<ShareData>, history: seq<HistoryItem>)

  /** The `options` of `createShareData`; a missing option is `None`. */
  datatype ShareOptions = ShareOptions(
    allowPublicAccess: Option<bool>,
    includeContext: Option<bool>,
    shareType: Option<string>)

  /** What the browser supplies: the current time (`new Date()`, one
      reading per call), `navigator.userAgent` and `window.location.href`. */
  datatype Env = Env(now: string, userAgent: string, url: string)

  function ShareId(s: ShareData): string { s.id }
  function ItemId(h: HistoryItem): string { h.id }

  // ---------------------------------------------------------------------
  // Creating a share
  // ---------------------------------------------------------------------

  /** A boolean option read with `|| false`. */
  predicate Enabled(option: Option<bool>) {
    option == Some(true)
  }

  /** `{ role, content, timestamp: msg.timestamp || new Date() }`. */
  function Stamp(m: MessageInput, now: string): (r: SharedMessage)
    ensures r.role == m.role && r.content == m.content
    ensures Truthy(m.timestamp) ==> r.timestamp == m.timestamp.value
    ensures !Truthy(m.timestamp) ==> r.timestamp == now
  {
    SharedMessage(m.role, m.content, OrElse(m.timestamp, now))
  }

  /** `createShareData` (src/services/shareService.js:37-68), with `id`
      standing for the generated share id: a share that has never been
      viewed, carrying the message and its context in order, with the
      options' defaults (private, no context, type "link"). */
  function CreateShareData(id: string, message: MessageInput, context: seq<MessageInput>,
                           options: ShareOptions, env: Env): (s: ShareData)
    ensures s.id == id
    ensures s.message == Stamp(message, env.now)
    ensures |s.context| == |context|
    ensures forall k :: 0 <= k < |context| ==> s.context[k] == Stamp(context[k], env.now)
    ensures s.metadata.publicAccess <==> options.allowPublicAccess == Some(true)
    ensures s.metadata.includeContext <==> options.includeContext == Some(true)
    ensures s.metadata.shareType == DefaultShareType <==>
      (options.shareType.None? || options.shareType.value in {"", DefaultShareType})
    ensures s.metadata.shareType == OrElse(options.shareType, DefaultShareType) != ""
    ensures s.metadata.userAgent == env.userAgent && s.metadata.url == env.url
    ensures s.metadata.createdAt == env.now
    ensures s.stats.views == 0 && s.stats.lastViewed.None?
  {
    ShareData(
      id,
      Stamp(message, env.now),
      seq(|context|, k requires 0 <= k < |context| => Stamp(context[k], env.now)),
      Metadata(env.now, Enabled(options.allowPublicAccess), Enabled(options.includeContext),
               OrElse(options.shareType, DefaultShareType), env.userAgent, env.url),
      Stats(0, None))
  }

  // ---------------------------------------------------------------------
  // Preview and history
  // ---------------------------------------------------------------------

  /** `getMessagePreview` (src/services/shareService.js:318-335) with the
      cleaning chain as `clean`. Content that is missing, not a string or
      empty has no preview; otherwise the cleaned text is kept whole when it
      fits and is cut to `maxLength` characters plus an ellipsis when it
      does not. */
  function MessagePreview(content: Option<string>, maxLength: nat, clean: string -> string): (r: string)
    ensures !Truthy(content) ==> r == NoContent
    ensures Truthy(content) && |clean(content.value)| <= maxLength ==> r == clean(content.value)
    ensures Truthy(content) && |clean(content.value)| > maxLength ==>
      |r| == maxLength + |Ellipsis| && r == clean(content.value)[..maxLength] + Ellipsis
  {
    if !Truthy(content) then NoContent
    else
      var c := clean(content.value);
      if |c| > maxLength then c[..maxLength] + Ellipsis else c
  }

  /** The history entry recorded for a share. */
  function HistoryItemOf(s: ShareData, clean: string -> string): (h: HistoryItem)
    ensures h.id == s.id && h.views == s.stats.views
    ensures h.shareType == s.metadata.shareType && h.publicAccess == s.metadata.publicAccess
    ensures h.createdAt == s.metadata.createdAt
    ensures h.messagePreview == MessagePreview(Some(s.message.content), PreviewLength, clean)
  {
    HistoryItem(s.id, MessagePreview(Some(s.message.content), PreviewLength, clean),
                s.metadata.shareType, s.metadata.createdAt, s.stats.views, s.metadata.publicAccess)
  }

  /** `updateShareHistory` (src/services/shareService.js:258-282): the new
      entry goes first, the older entries follow in their order, and only
      the first `MaxHistory` entries are kept. */
  function UpdateShareHistory(history: seq<HistoryItem>, s: ShareData, clean: string -> string): (r: seq<HistoryItem>)
    ensures |r| == Min(MaxHistory, |history| + 1)
    ensures r[0] == HistoryItemOf(s, clean)
    ensures forall k :: 1 <= k < |r| ==> r[k] == history[k - 1]
  {
    var all := [HistoryItemOf(s, clean)] + history;
    all[..Min(MaxHistory, |all|)]
  }

  // ---------------------------------------------------------------------
  // Saving, looking up, updating and deleting
  // ---------------------------------------------------------------------

  /** `saveShareData` (src/services/shareService.js:75-99): the share is
      appended, only the most recent `MaxShares` are kept, and the history
      records it. */
  function SaveShareData(store: ShareStore, s: ShareData, clean: string -> string): (r: ShareStore)
    ensures |r.shares| == Min(MaxShares, |store.shares| + 1)
    ensures r.shares[|r.shares| - 1] == s
    ensures forall k :: 0 <= k < |r.shares| - 1 ==>
      r.shares[k] == store.shares[|store.shares| + 1 - |r.shares| + k]
    ensures |store.shares| < MaxShares ==> r.shares == store.shares + [s]
    ensures r.history == UpdateShareHistory(store.history, s, clean)
  {
    ShareStore(Push(store.shares, s, MaxShares), UpdateShareHistory(store.history, s, clean))
  }

  /** The position of the first share with the id (`findIndex`), if any. */
  function FindIndex(shares: seq<ShareData>, id: string): (r: Option<nat>)
    ensures r.None? <==> forall k :: 0 <= k < |shares| ==> shares[k].id != id
    ensures r.Some? ==> r.value < |shares| && shares[r.value].id == id
    ensures r.Some? ==> forall k :: 0 <= k < r.value ==> shares[k].id != id
    decreases |shares|
  {
    if shares == [] then None
    else if shares[0].id == id then Some(0)
    else match FindIndex(shares[1..], id)
      case None => None
      case Some(i) => Some(i + 1)
  }

  /** The index `i` holds the first share with the id. */
  predicate FirstWithId(shares: seq<ShareData>, id: string, i: int) {
    && 0 <= i < |shares|
    && shares[i].id == id
    && forall k :: 0 <= k < i ==> shares[k].id != id
  }

  /** The outcome of `updateShareData`: the new list and whether a share
      was replaced. */
  datatype Updated = Updated(shares: seq<ShareData>, replaced: bool)

  /** `updateShareData` (src/services/shareService.js:144-160): the first
      share with the updated share's id is replaced and nothing else
      changes; without such a share the list is unchanged and the result is
      false. */
  function UpdateShareData(shares: seq<ShareData>, updated: ShareData): (r: Updated)
    ensures r.replaced <==> exists k :: 0 <= k < |shares| && shares[k].id == updated.id
    ensures r.replaced ==> exists i :: FirstWithId(shares, updated.id, i) && r.shares == shares[i := updated]
    ensures !r.replaced ==> r.shares == shares
  {
    match FindIndex(shares, updated.id)
    case None => Updated(shares, false)
    case Some(i) =>
      assert FirstWithId(shares, updated.id, i);
      Updated(shares[i := updated], true)
  }

  /** A share after one more view at time `now`. */
  function Viewed(s: ShareData, now: string): (v: ShareData)
    ensures v.stats.views == s.stats.views + 1 && v.stats.lastViewed == Some(now)
    ensures v.(stats := s.stats) == s
  {
    s.(stats := Stats(s.stats.views + 1, Some(now)))
  }

  /** The outcome of `getShareData`: the store afterwards and the share
      returned (`null` when there is none). */
  datatype Lookup = Lookup(store: ShareStore, share: Option<ShareData>)

  /** `getShareData` (src/services/shareService.js:106-123): the first share
      with the id is returned with one more view, recorded at `now`, and
      stored back in its place; every other share and the history are
      untouched. An unknown id returns nothing and changes nothing. */
  function GetShareData(store: ShareStore, id: string, now: string): (r: Lookup)
    ensures r.share.None? <==> forall k :: 0 <= k < |store.shares| ==> store.shares[k].id != id
    ensures r.share.None? ==> r.store == store
    ensures r.store.history == store.history
    ensures r.share.Some? ==>
      exists i :: && FirstWithId(store.shares, id, i)
                  && r.share.value == Viewed(store.shares[i], now)
                  && r.store.shares == store.shares[i := r.share.value]
  {
    match FindIndex(store.shares, id)
    case None => Lookup(store, None)
    case Some(i) =>
      var v := Viewed(store.shares[i], now);
      var u := UpdateShareData(store.shares, v);
      assert FirstWithId(store.shares, id, i);
      Lookup(store.(shares := u.shares), Some(v))
  }

  /** `filter((x) => key(x) !== id)`: the entries with another key, in
      their order. */
  function Without<T(!new)>(s: seq<T>, key: T -> string, id: string): (r: seq<T>)
    ensures |r| <= |s|
    ensures forall k :: 0 <= k < |r| ==> key(r[k]) != id
    ensures forall x :: x in r <==> x in s && key(x) != id
    decreases |s|
  {
    if s == [] then []
    else if key(s[0]) == id then Without(s[1..], key, id)
    else [s[0]] + Without(s[1..], key, id)
  }

  /** `removeFromShareHistory` (src/services/shareService.js:302-310). */
  function RemoveFromShareHistory(history: seq<HistoryItem>, id: string): (r: seq<HistoryItem>)
    ensures r == Without(history, ItemId, id)
    ensures forall k :: 0 <= k < |r| ==> r[k].id != id
    ensures forall h :: h in r <==> h in history && h.id != id
  {
    Without(history, ItemId, id)
  }

  /** `deleteShareData` (src/services/shareService.js:167-182): the share and
      its history entries are removed; everything else stays, in order. */
  function DeleteShareData(store: ShareStore, id: string): (r: ShareStore)
    ensures r.shares == Without(store.shares, ShareId, id)
    ensures forall k :: 0 <= k < |r.shares| ==> r.shares[k].id != id
    ensures forall s :: s in r.shares <==> s in store.shares && s.id != id
    ensures r.history == RemoveFromShareHistory(store.history, id)
  {
    ShareStore(Without(store.shares, ShareId, id), RemoveFromShareHistory(store.history, id))
  }

  // ---------------------------------------------------------------------
  // Links
  // ---------------------------------------------------------------------

  /** `generateShareLink` (src/services/shareService.js:189-191), with
      `baseUrl` the page's origin and path. */
  function GenerateShareLink(baseUrl: string, id: string): (link: string)
    ensures StartsWith(link, baseUrl + SharePath)
  {
    baseUrl + SharePath + id
  }

  /** The share id a link points to, for links of this page. */
  function LinkedShareId(baseUrl: string, link: string): Option<string> {
    var prefix := baseUrl + SharePath;
    if StartsWith(link, prefix) then Some(link[|prefix|..]) else None
  }
}
