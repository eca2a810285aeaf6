/** The simpler relay-list editor (`BasicRelaySetupInfoModel`) shared by the
    DM, search and other single-purpose relay lists: a list of URLs with their
    live statistics, a "modified" flag, and a rebuild from the saved list.
    The saved list is an input; the statistics come from the `RelayStats` store. */
module BasicRelaySetup {
  import opened Optional
  import opened KotlinLists
  import opened RelayStats

  /** Which `RelayStat` object a record holds. Objects compare by identity:
      `Stored(url)` is the one `RelayStats.get(url)` returns, and `Detached(id)`
      is a new `RelayStat()` made outside the store. */
  datatype StatRef = Stored(key: string) | Detached(id: int)

  /** `BasicRelaySetupInfo(url, relayStat, paidRelay)`. */
  datatype BasicRelaySetupInfo = BasicRelaySetupInfo(url: string, relayStat: StatRef, paidRelay: bool)

  /** The editor's state. */
  datatype Editor = Editor(relays: seq<BasicRelaySetupInfo>, hasModified: bool)

  /** The received bytes of a record's statistics. */
  function ReceivedBytes(store: Store, ref: StatRef): int {
    match ref
    case Stored(k) => if k in store then store[k].receivedBytes else 0
    case Detached(_) => ZeroStat.receivedBytes
  }

  predicate HasUrl(relays: seq<BasicRelaySetupInfo>, url: string) {
    exists i :: 0 <= i < |relays| && relays[i].url == url
  }

  predicate UrlsDistinct(relays: seq<BasicRelaySetupInfo>) {
    forall i, j :: 0 <= i < j < |relays| ==> relays[i].url != relays[j].url
  }

  /** `addRelay(relay)`: a record whose URL is already listed changes nothing,
      not even the flag; otherwise it is appended and the list is modified. */
  function AddRelay(e: Editor, relay: BasicRelaySetupInfo): (r: Editor)
    ensures HasUrl(e.relays, relay.url) ==> r == e
    ensures !HasUrl(e.relays, relay.url) ==> r == Editor(e.relays + [relay], true)
    ensures UrlsDistinct(e.relays) ==> UrlsDistinct(r.relays)
  {
    if HasUrl(e.relays, relay.url) then e else Editor(e.relays + [relay], true)
  }

  /** `deleteRelay(relay)`: drops the first equal record; the list is modified either way. */
  function DeleteRelay(e: Editor, relay: BasicRelaySetupInfo): (r: Editor)
    ensures r.hasModified
    ensures multiset(r.relays) == multiset(e.relays) - multiset{relay}
    ensures relay !in e.relays ==> r.relays == e.relays
    ensures relay in e.relays ==>
      exists i :: 0 <= i < |e.relays| && e.relays[i] == relay && relay !in e.relays[..i] && r.relays == e.relays[..i] + e.relays[i + 1..]
  {
    Editor(RemoveFirst(e.relays, relay), true)
  }

  /** `deleteAll()`. */
  function DeleteAll(e: Editor): (r: Editor)
    ensures r.relays == [] && r.hasModified
  {
    Editor([], true)
  }

  /** `togglePaidRelay(relay, paid)`: records equal to `relay` get the paid
      flag; the "modified" flag is untouched. */
  function TogglePaidRelay(e: Editor, relay: BasicRelaySetupInfo, paid: bool): (r: Editor)
    ensures r.hasModified == e.hasModified
    ensures |r.relays| == |e.relays|
    ensures forall i :: 0 <= i < |e.relays| && e.relays[i] == relay ==> r.relays[i] == relay.(paidRelay := paid)
    ensures forall i :: 0 <= i < |e.relays| && e.relays[i] != relay ==> r.relays[i] == e.relays[i]
  {
    Editor(Updated(e.relays, relay, relay.(paidRelay := paid)), e.hasModified)
  }

  /** `map { it.url }`. */
  function Urls(relays: seq<BasicRelaySetupInfo>): (r: seq<string>)
    ensures |r| == |relays| && forall i :: 0 <= i < |relays| ==> r[i] == relays[i].url
  {
    if |relays| == 0 then [] else [relays[0].url] + Urls(relays[1..])
  }

  /** `get(url)` for every URL, in order: the store afterwards. */
  function GetAll(store: Store, urls: seq<string>): (r: Store)
    ensures forall i :: 0 <= i < |urls| ==> urls[i] in r
    ensures forall u :: u in store ==> u in r && r[u] == store[u]
    ensures forall u :: u in r && u !in store ==> r[u] == ZeroStat
    decreases |urls|
  {
    if |urls| == 0 then store
    else
      var r := GetAll(Get(store, urls[0]).1, urls[1..]);
      assert forall i :: 1 <= i < |urls| ==> urls[i] == urls[1..][i - 1];
      r
  }

  /** The record `clear` builds for a URL. */
  function Fresh(url: string): BasicRelaySetupInfo {
    BasicRelaySetupInfo(url, Stored(url), false)
  }

  /** The records for a list of URLs, in order. */
  function FreshAll(urls: seq<string>): (r: seq<BasicRelaySetupInfo>)
    ensures |r| == |urls| && forall i :: 0 <= i < |urls| ==> r[i] == Fresh(urls[i])
  {
    if |urls| == 0 then [] else [Fresh(urls[0])] + FreshAll(urls[1..])
  }

  /** The sort key of `clear`: received bytes in the store after the lookups. */
  function ByReceived(store: Store): (BasicRelaySetupInfo, BasicRelaySetupInfo) -> bool {
    (a: BasicRelaySetupInfo, b: BasicRelaySetupInfo) => ReceivedBytes(store, a.relayStat) <= ReceivedBytes(store, b.relayStat)
  }

  lemma ByReceivedTotalPreorder(store: Store)
    ensures TotalPreorder(ByReceived(store))
  {
  }

  /** The records `clear` builds: one per distinct saved URL. */
  function Unique(urls: seq<string>): seq<BasicRelaySetupInfo> {
    DistinctBy(FreshAll(urls), (x: BasicRelaySetupInfo) => x.url)
  }

  /** The list `clear` builds from the saved URLs and the store after the lookups. */
  function Rebuild(urls: seq<string>, st: Store): (r: seq<BasicRelaySetupInfo>)
    ensures multiset(r) == multiset(Unique(urls))
    ensures Descending(r, ByReceived(st))
  {
    ByReceivedTotalPreorder(st);
    SortDescending(Unique(urls), ByReceived(st))
  }

  /** `clear()` on the list and the store: the saved URLs (none when there is
      no saved list), one record per distinct URL, by non-increasing received
      bytes. The `hasModified` it sets is a local variable, so the editor's
      flag keeps its value. */
  function Clear(e: Editor, saved: Option<seq<string>>, store: Store): (r: (Editor, Store))
    ensures r.0.hasModified == e.hasModified
    ensures r.1 == GetAll(store, saved.GetOr([]))
    ensures r.0.relays == Rebuild(saved.GetOr([]), r.1)
  {
    var urls := saved.GetOr([]);
    var st := GetAll(store, urls);
    (Editor(Rebuild(urls, st), e.hasModified), st)
  }

  /** The built records have pairwise different URLs, and each is the record of a saved URL. */
  lemma UniqueFacts(urls: seq<string>)
    ensures NoDuplicates(Unique(urls))
    ensures forall x :: x in multiset(Unique(urls)) ==> x == Fresh(x.url) && x.url in urls
    ensures forall u :: u in urls ==> Fresh(u) in multiset(Unique(urls))
  {
    var key := (x: BasicRelaySetupInfo) => x.url;
    var built := FreshAll(urls);
    var unique := Unique(urls);
    DistinctByKeysDistinct(built, key);
    DistinctByKeys(built, key);
    forall x: BasicRelaySetupInfo | x in multiset(unique) ensures x == Fresh(x.url) && x.url in urls {
      assert x in multiset(built);
      var i :| 0 <= i < |built| && built[i] == x;
    }
    forall u | u in urls ensures Fresh(u) in multiset(unique) {
      var i :| 0 <= i < |urls| && urls[i] == u;
      assert key(built[i]) == u;
      assert u in Keys(built, key);
      var k :| 0 <= k < |unique| && key(unique[k]) == u;
      assert unique[k] in multiset(unique);
    }
  }

  /** The rebuilt list holds no record twice; each is the record of a saved
      URL, and every saved URL has one. */
  lemma RebuildElements(urls: seq<string>, st: Store)
    ensures NoDuplicates(Rebuild(urls, st))
    ensures forall x :: x in Rebuild(urls, st) ==> x == Fresh(x.url) && x.url in urls
    ensures forall u :: u in urls ==> Fresh(u) in Rebuild(urls, st)
  {
    var rs := Rebuild(urls, st);
    UniqueFacts(urls);
    NoDuplicatesPermutation(Unique(urls), rs);
    PermutationMembers(Unique(urls), rs);
    forall x | x in rs ensures x == Fresh(x.url) && x.url in urls {
      assert x in Unique(urls);
      assert x in multiset(Unique(urls));
    }
    forall u | u in urls ensures Fresh(u) in rs {
      assert Fresh(u) in multiset(Unique(urls));
      assert Fresh(u) in Unique(urls);
    }
  }

  /** The rebuilt list has distinct URLs, and a URL is listed exactly when it was saved. */
  lemma RebuildUrls(urls: seq<string>, st: Store)
    ensures UrlsDistinct(Rebuild(urls, st))
    ensures forall u :: u in urls <==> HasUrl(Rebuild(urls, st), u)
  {
    var rs := Rebuild(urls, st);
    RebuildElements(urls, st);
    forall i, j | 0 <= i < j < |rs| ensures rs[i].url != rs[j].url {
      assert rs[i] in rs && rs[j] in rs;
    }
    forall u ensures u in urls <==> HasUrl(rs, u) {
      if u in urls {
        var m :| 0 <= m < |rs| && rs[m] == Fresh(u);
      }
      if HasUrl(rs, u) {
        var m :| 0 <= m < |rs| && rs[m].url == u;
        assert rs[m] in rs;
      }
    }
  }

  /** Each rebuilt record reads the store entry of its own URL, so the list is
      ordered by the received bytes stored for its URLs. */
  lemma RebuildSorted(urls: seq<string>, st: Store)
    requires forall u :: u in urls ==> u in st
    ensures forall i, j :: 0 <= i < j < |Rebuild(urls, st)| ==>
      Rebuild(urls, st)[i].url in st && Rebuild(urls, st)[j].url in st &&
      st[Rebuild(urls, st)[j].url].receivedBytes <= st[Rebuild(urls, st)[i].url].receivedBytes
  {
    var rs := Rebuild(urls, st);
    RebuildElements(urls, st);
    forall i, j | 0 <= i < j < |rs|
      ensures rs[i].url in st && rs[j].url in st && st[rs[j].url].receivedBytes <= st[rs[i].url].receivedBytes
    {
      assert rs[i] in rs && rs[j] in rs;
      assert ByReceived(st)(rs[j], rs[i]);
    }
  }

  /** `clear` on an editor: distinct URLs, exactly the saved ones, ordered by
      non-increasing received bytes in the store, flag untouched. */
  lemma ClearFacts(e: Editor, saved: Option<seq<string>>, store: Store)
    ensures var c := Clear(e, saved, store);
      && c.0.hasModified == e.hasModified
      && UrlsDistinct(c.0.relays)
      && (forall u :: u in saved.GetOr([]) <==> HasUrl(c.0.relays, u))
      && (forall i, j :: 0 <= i < j < |c.0.relays| ==>
            c.0.relays[i].url in c.1 && c.0.relays[j].url in c.1 &&
            c.1[c.0.relays[j].url].receivedBytes <= c.1[c.0.relays[i].url].receivedBytes)
  {
    var urls := saved.GetOr([]);
    var st := GetAll(store, urls);
    assert Clear(e, saved, store) == (Editor(Rebuild(urls, st), e.hasModified), st);
    assert forall u :: u in urls ==> u in st;
    RebuildUrls(urls, st);
    RebuildSorted(urls, st);
  }

  /** `create()`: with modifications, the URLs are saved in list order and the
      list is rebuilt from `reloaded`, the saved list read back; without, nothing happens. */
  function Create(e: Editor, reloaded: Option<seq<string>>, store: Store): (r: (Option<seq<string>>, Editor, Store))
    ensures !e.hasModified ==> r == (None, e, store)
    ensures e.hasModified ==> r.0 == Some(Urls(e.relays)) && (r.1, r.2) == Clear(e, reloaded, store)
  {
    if e.hasModified then
      var (ed, st) := Clear(e, reloaded, store);
      (Some(Urls(e.relays)), ed, st)
    else (None, e, store)
  }
}
