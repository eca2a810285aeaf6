/** The relay-list editor behind the "relays" screen (`NewRelayListViewModel`):
    a list of relay records edited by add, delete, delete-all and per-field
    toggles, and rebuilt from the contact list (or the local relays) by `clear`.
    The account, the relay pool and the constants for forced search relays
    are inputs. */
module NewRelayList {
  import opened Optional
  import opened KotlinText
  import opened KotlinLists

  /** `FeedType`. */
  datatype FeedType = Follows | PublicChats | PrivateDms | Global | Search

  /** `FeedType.values().toSet()`. */
  const AllFeedTypes: set<FeedType> := {Follows, PublicChats, PrivateDms, Global, Search}

  /** `RelaySetupInfo`, a data class: equality compares every field. */
  datatype RelaySetupInfo = RelaySetupInfo(
    url: string,
    read: bool,
    write: bool,
    errorCount: int,
    downloadCountInBytes: int,
    uploadCountInBytes: int,
    spamCount: int,
    feedTypes: set<FeedType>,
    paidRelay: bool)

  /** No two records share a URL. */
  predicate UrlsDistinct(relays: seq<RelaySetupInfo>) {
    forall i, j :: 0 <= i < j < |relays| ==> relays[i].url != relays[j].url
  }

  /** Whether some record has this URL. */
  predicate HasUrl(relays: seq<RelaySetupInfo>, url: string) {
    exists i :: 0 <= i < |relays| && relays[i].url == url
  }

  /** `addRelay(relay)`: appends, unless a record with the same URL is present. */
  function AddRelay(relays: seq<RelaySetupInfo>, relay: RelaySetupInfo): (r: seq<RelaySetupInfo>)
    ensures HasUrl(relays, relay.url) ==> r == relays
    ensures !HasUrl(relays, relay.url) ==> r == relays + [relay]
    ensures HasUrl(r, relay.url)
    ensures UrlsDistinct(relays) ==> UrlsDistinct(r)
  {
    if HasUrl(relays, relay.url) then relays
    else
      var r := relays + [relay];
      assert r[|relays|] == relay;
      r
  }

  /** Adding the same record twice is adding it once. */
  lemma AddRelayIdempotent(relays: seq<RelaySetupInfo>, relay: RelaySetupInfo)
    ensures AddRelay(AddRelay(relays, relay), relay) == AddRelay(relays, relay)
  {
  }

  /** `deleteRelay(relay)`: `List.minus`, which drops the first equal record only. */
  function DeleteRelay(relays: seq<RelaySetupInfo>, relay: RelaySetupInfo): (r: seq<RelaySetupInfo>)
    ensures relay !in relays ==> r == relays
    ensures relay in relays ==> exists i :: 0 <= i < |relays| && relays[i] == relay && relay !in relays[..i] && r == relays[..i] + relays[i + 1..]
    ensures multiset(r) == multiset(relays) - multiset{relay}
  {
    RemoveFirst(relays, relay)
  }

  /** Removing one position keeps URLs distinct, and with distinct URLs the
      removed record occurs nowhere else. */
  lemma RemoveAtDistinct(relays: seq<RelaySetupInfo>, i: int)
    requires UrlsDistinct(relays) && 0 <= i < |relays|
    ensures UrlsDistinct(relays[..i] + relays[i + 1..])
    ensures relays[i] !in relays[..i] + relays[i + 1..]
  {
    var r := relays[..i] + relays[i + 1..];
    assert forall k :: 0 <= k < |r| ==> r[k] == relays[if k < i then k else k + 1];
  }

  /** In a list with distinct URLs, a deleted record is gone and URLs stay distinct. */
  lemma DeleteRelayDistinct(relays: seq<RelaySetupInfo>, relay: RelaySetupInfo)
    requires UrlsDistinct(relays)
    ensures relay !in DeleteRelay(relays, relay)
    ensures UrlsDistinct(DeleteRelay(relays, relay))
    ensures |DeleteRelay(relays, relay)| == if relay in relays then |relays| - 1 else |relays|
  {
    var i := IndexOf(relays, relay);
    if i < |relays| {
      assert DeleteRelay(relays, relay) == relays[..i] + relays[i + 1..];
      RemoveAtDistinct(relays, i);
    }
  }

  /** `deleteAll()`: `dropWhile { relays.isNotEmpty() }`, whose predicate
      ignores the element and holds for every element of a non-empty list. */
  function DeleteAll(relays: seq<RelaySetupInfo>): (r: seq<RelaySetupInfo>)
    ensures r == []
  {
    DropWhile(relays, (_: RelaySetupInfo) => |relays| > 0)
  }

  /** `relay.copy(read = !relay.read)` and `relay.copy(write = !relay.write)`. */
  function WithRead(relay: RelaySetupInfo): RelaySetupInfo { relay.(read := !relay.read) }
  function WithWrite(relay: RelaySetupInfo): RelaySetupInfo { relay.(write := !relay.write) }

  /** `toggleDownload(relay)`: records equal to `relay` get the opposite `read`. */
  function ToggleDownload(relays: seq<RelaySetupInfo>, relay: RelaySetupInfo): (r: seq<RelaySetupInfo>)
    ensures |r| == |relays|
    ensures forall i :: 0 <= i < |relays| && relays[i] == relay ==>
      r[i].read == !relays[i].read && r[i].(read := relays[i].read) == relays[i]
    ensures forall i :: 0 <= i < |relays| && relays[i] != relay ==> r[i] == relays[i]
  {
    Updated(relays, relay, WithRead(relay))
  }

  /** `toggleUpload(relay)`: records equal to `relay` get the opposite `write`. */
  function ToggleUpload(relays: seq<RelaySetupInfo>, relay: RelaySetupInfo): (r: seq<RelaySetupInfo>)
    ensures |r| == |relays|
    ensures forall i :: 0 <= i < |relays| && relays[i] == relay ==>
      r[i].write == !relays[i].write && r[i].(write := relays[i].write) == relays[i]
    ensures forall i :: 0 <= i < |relays| && relays[i] != relay ==> r[i] == relays[i]
  {
    Updated(relays, relay, WithWrite(relay))
  }

  /** Toggling the download flag back undoes the toggle, unless the toggled
      record was already in the list. */
  lemma ToggleDownloadTwice(relays: seq<RelaySetupInfo>, relay: RelaySetupInfo)
    requires WithRead(relay) !in relays
    ensures ToggleDownload(ToggleDownload(relays, relay), WithRead(relay)) == relays
  {
    var once := ToggleDownload(relays, relay);
    var twice := ToggleDownload(once, WithRead(relay));
    assert WithRead(WithRead(relay)) == relay;
    forall i | 0 <= i < |relays| ensures twice[i] == relays[i] {
      if relays[i] == relay {
        assert once[i] == WithRead(relay);
      } else {
        assert once[i] == relays[i];
        assert relays[i] != WithRead(relay);
      }
    }
  }

  /** The five feed toggles of the editor. */
  datatype FeedToggle = ToggleFollows | ToggleMessages | TogglePublicChats | ToggleGlobal | ToggleSearch

  /** The feed type each toggle flips. */
  function ToggledType(a: FeedToggle): FeedType {
    match a
    case ToggleFollows => Follows
    case ToggleMessages => PrivateDms
    case TogglePublicChats => PublicChats
    case ToggleGlobal => Global
    case ToggleSearch => Search
  }

  /** Different toggles flip different feed types. */
  lemma ToggledTypeInjective(a: FeedToggle, b: FeedToggle)
    ensures ToggledType(a) == ToggledType(b) <==> a == b
  {
  }

  /** `toggleFollows`, `toggleMessages`, `togglePublicChats`, `toggleGlobal`,
      `toggleSearch`: records equal to `relay` get `relay`'s feed types with
      exactly the toggled type's membership flipped; nothing else changes. */
  function ToggleFeed(relays: seq<RelaySetupInfo>, relay: RelaySetupInfo, a: FeedToggle): (r: seq<RelaySetupInfo>)
    ensures |r| == |relays|
    ensures forall i :: 0 <= i < |relays| && relays[i] == relay ==>
      && r[i].(feedTypes := relay.feedTypes) == relay
      && (ToggledType(a) in r[i].feedTypes <==> ToggledType(a) !in relay.feedTypes)
      && (forall t :: t != ToggledType(a) ==> (t in r[i].feedTypes <==> t in relay.feedTypes))
    ensures forall i :: 0 <= i < |relays| && relays[i] != relay ==> r[i] == relays[i]
  {
    var newTypes := TogglePresence(relay.feedTypes, ToggledType(a));
    Updated(relays, relay, relay.(feedTypes := newTypes))
  }

  /** `togglePaidRelay(relay, paid)`: records equal to `relay` get `paidRelay := paid`. */
  function TogglePaidRelay(relays: seq<RelaySetupInfo>, relay: RelaySetupInfo, paid: bool): (r: seq<RelaySetupInfo>)
    ensures |r| == |relays|
    ensures forall i :: 0 <= i < |relays| && relays[i] == relay ==> r[i] == relay.(paidRelay := paid)
    ensures forall i :: 0 <= i < |relays| && relays[i] != relay ==> r[i] == relays[i]
  {
    Updated(relays, relay, relay.(paidRelay := paid))
  }

  /** `ContactListEvent.ReadWrite`. */
  datatype ReadWrite = ReadWrite(read: bool, write: bool)

  /** A relay of `account.localRelays`. */
  datatype LocalRelay = LocalRelay(url: string, read: bool, write: bool, feedTypes: set<FeedType>)

  /** The counters of a live relay of `RelayPool`. */
  datatype LiveCounters = LiveCounters(errorCounter: int, downloadBytes: int, uploadBytes: int, spamCounter: int)

  /** What `clear` reads: the contact list's relays (an insertion-ordered map,
      as a list of entries with distinct keys), the local relays, the pool,
      and the forced search relays with their URL set. */
  datatype Environment = Environment(
    contactRelays: Option<seq<(string, ReadWrite)>>,
    localRelays: seq<LocalRelay>,
    pool: string -> Option<LiveCounters>,
    forcedRelayForSearch: seq<(string, ReadWrite)>,
    forcedRelaysForSearchSet: set<string>)

  /** `removeSuffix("/")`. */
  function RemoveSlash(s: string): (r: string)
    ensures r == s || (r + "/" == s)
    ensures |s| > 0 && s[|s| - 1] == '/' ==> r + "/" == s
    ensures !(|s| > 0 && s[|s| - 1] == '/') ==> r == s
  {
    if |s| > 0 && s[|s| - 1] == '/' then
      assert s == s[..|s| - 1] + "/";
      s[..|s| - 1]
    else s
  }

  /** The keys of an ordered map. */
  function KeysOf(m: seq<(string, ReadWrite)>): set<string> {
    set i | 0 <= i < |m| :: m[i].0
  }

  predicate KeysDistinct(m: seq<(string, ReadWrite)>) {
    forall i, j :: 0 <= i < j < |m| ==> m[i].0 != m[j].0
  }

  /** `Map.plus(pair)`: replaces the value of an existing key in place, else appends. */
  function Put(m: seq<(string, ReadWrite)>, k: string, v: ReadWrite): (r: seq<(string, ReadWrite)>)
    ensures KeysOf(r) == KeysOf(m) + {k}
    ensures KeysDistinct(m) ==> KeysDistinct(r)
    ensures |m| <= |r| && forall i :: 0 <= i < |m| ==> r[i].0 == m[i].0 && (m[i].0 != k ==> r[i] == m[i])
    ensures (k, v) in r
  {
    if k in KeysOf(m) then
      var r := seq(|m|, i requires 0 <= i < |m| => if m[i].0 == k then (k, v) else m[i]);
      assert forall i :: 0 <= i < |m| ==> r[i].0 == m[i].0;
      assert KeysOf(r) == KeysOf(m) by {
        forall x | x in KeysOf(r) ensures x in KeysOf(m) {
          var i :| 0 <= i < |r| && r[i].0 == x;
        }
        forall x | x in KeysOf(m) ensures x in KeysOf(r) {
          var i :| 0 <= i < |m| && m[i].0 == x;
          assert r[i].0 == x;
        }
      }
      var i :| 0 <= i < |m| && m[i].0 == k;
      assert r[i] == (k, v);
      r
    else
      var r := m + [(k, v)];
      assert r[|m|] == (k, v);
      assert KeysOf(r) == KeysOf(m) + {k} by {
        forall x | x in KeysOf(r) ensures x in KeysOf(m) + {k} {
          var i :| 0 <= i < |r| && r[i].0 == x;
          if i < |m| { assert m[i].0 == x; }
        }
        forall x | x in KeysOf(m) ensures x in KeysOf(r) {
          var i :| 0 <= i < |m| && m[i].0 == x;
          assert r[i] == m[i];
        }
      }
      r
  }

  /** The keys of a non-empty list are its first key and the rest's keys. */
  lemma KeysOfCons(pairs: seq<(string, ReadWrite)>)
    requires |pairs| > 0
    ensures KeysOf(pairs) == {pairs[0].0} + KeysOf(pairs[1..])
  {
    forall x | x in KeysOf(pairs) ensures x in {pairs[0].0} + KeysOf(pairs[1..]) {
      var i :| 0 <= i < |pairs| && pairs[i].0 == x;
      if i > 0 { assert pairs[1..][i - 1].0 == x; }
    }
    forall x | x in KeysOf(pairs[1..]) ensures x in KeysOf(pairs) {
      var i :| 0 <= i < |pairs[1..]| && pairs[1..][i].0 == x;
      assert pairs[i + 1].0 == x;
    }
  }

  /** `Map.plus(pairs)`: one `Put` per pair, in order. */
  function PutAll(m: seq<(string, ReadWrite)>, pairs: seq<(string, ReadWrite)>): (r: seq<(string, ReadWrite)>)
    ensures KeysOf(r) == KeysOf(m) + KeysOf(pairs)
    ensures KeysDistinct(m) ==> KeysDistinct(r)
    ensures |m| <= |r| && forall i :: 0 <= i < |m| ==> r[i].0 == m[i].0 && (m[i].0 !in KeysOf(pairs) ==> r[i] == m[i])
    decreases |pairs|
  {
    if |pairs| == 0 then m
    else
      var m' := Put(m, pairs[0].0, pairs[0].1);
      var r := PutAll(m', pairs[1..]);
      KeysOfCons(pairs);
      r
  }

  /** Whether the forced search relays are added: there is a contact list
      and none of its URLs, without a trailing "/", is a forced one. */
  predicate NeedsForcedSearch(env: Environment) {
    env.contactRelays.Some? &&
    forall i :: 0 <= i < |env.contactRelays.value| ==>
      RemoveSlash(env.contactRelays.value[i].0) !in env.forcedRelaysForSearchSet
  }

  /** The contact-list relays after the forced search relays, if needed, are added. */
  function RelayFile(env: Environment): (r: Option<seq<(string, ReadWrite)>>)
    ensures r.Some? <==> env.contactRelays.Some?
    ensures r.Some? && NeedsForcedSearch(env) ==>
      KeysOf(r.value) == KeysOf(env.contactRelays.value) + KeysOf(env.forcedRelayForSearch)
    ensures r.Some? && !NeedsForcedSearch(env) ==> r == env.contactRelays
  {
    if NeedsForcedSearch(env) then Some(PutAll(env.contactRelays.value, env.forcedRelayForSearch))
    else env.contactRelays
  }

  /** Position `i` holds the first local relay with this URL. */
  predicate FirstLocalAt(local: seq<LocalRelay>, url: string, i: int) {
    0 <= i < |local| && local[i].url == url && forall j :: 0 <= j < i ==> local[j].url != url
  }

  /** `localRelays.filter { it.url == url }.firstOrNull()?.feedTypes ?: FeedType.values().toSet()`. */
  function LocalFeedTypes(local: seq<LocalRelay>, url: string): (r: set<FeedType>)
    ensures (forall i :: 0 <= i < |local| ==> local[i].url != url) ==> r == AllFeedTypes
    ensures forall i :: FirstLocalAt(local, url, i) ==> r == local[i].feedTypes
  {
    if |local| == 0 then AllFeedTypes
    else if local[0].url == url then local[0].feedTypes
    else
      assert forall i :: 1 <= i < |local| ==> local[i] == local[1..][i - 1];
      assert forall i :: FirstLocalAt(local, url, i) ==> FirstLocalAt(local[1..], url, i - 1);
      LocalFeedTypes(local[1..], url)
  }

  /** A record built from a URL, its flags and feed types, and the pool's counters (0 without a live relay). */
  function Record(url: string, read: bool, write: bool, feedTypes: set<FeedType>,
                  pool: string -> Option<LiveCounters>): (r: RelaySetupInfo)
    ensures r.url == url && r.read == read && r.write == write && r.feedTypes == feedTypes && !r.paidRelay
    ensures pool(url).None? ==> r.errorCount == 0 && r.downloadCountInBytes == 0 && r.uploadCountInBytes == 0 && r.spamCount == 0
    ensures pool(url).Some? ==> r.downloadCountInBytes == pool(url).value.downloadBytes && r.errorCount == pool(url).value.errorCounter
    ensures pool(url).Some? ==> r.uploadCountInBytes == pool(url).value.uploadBytes && r.spamCount == pool(url).value.spamCounter
  {
    match pool(url)
    case None => RelaySetupInfo(url, read, write, 0, 0, 0, 0, feedTypes, false)
    case Some(c) => RelaySetupInfo(url, read, write, c.errorCounter, c.downloadBytes, c.uploadBytes, c.spamCounter, feedTypes, false)
  }

  /** The records of the contact-list branch, in map order. */
  function FromRelayFile(file: seq<(string, ReadWrite)>, env: Environment): (r: seq<RelaySetupInfo>)
    ensures |r| == |file|
    ensures forall i :: 0 <= i < |file| ==>
      r[i] == Record(file[i].0, file[i].1.read, file[i].1.write, LocalFeedTypes(env.localRelays, file[i].0), env.pool)
  {
    if |file| == 0 then []
    else
      var e := file[0];
      [Record(e.0, e.1.read, e.1.write, LocalFeedTypes(env.localRelays, e.0), env.pool)] + FromRelayFile(file[1..], env)
  }

  /** The records of the local-relay branch, in order. */
  function FromLocal(local: seq<LocalRelay>, pool: string -> Option<LiveCounters>): (r: seq<RelaySetupInfo>)
    ensures |r| == |local|
    ensures forall i :: 0 <= i < |local| ==>
      r[i] == Record(local[i].url, local[i].read, local[i].write, local[i].feedTypes, pool)
  {
    if |local| == 0 then [] else [Record(local[0].url, local[0].read, local[0].write, local[0].feedTypes, pool)] + FromLocal(local[1..], pool)
  }

  /** The sort key of `clear`. */
  function ByDownload(a: RelaySetupInfo, b: RelaySetupInfo): bool {
    a.downloadCountInBytes <= b.downloadCountInBytes
  }

  lemma ByDownloadTotalPreorder()
    ensures TotalPreorder(ByDownload)
  {
  }

  /** The records `clear` builds, before sorting. */
  function Unsorted(env: Environment): seq<RelaySetupInfo> {
    match RelayFile(env)
    case Some(file) => FromRelayFile(file, env)
    case None => FromLocal(env.localRelays, env.pool)
  }

  /** `clear()`: the rebuilt records, by non-increasing downloaded bytes. */
  function Clear(env: Environment): (r: seq<RelaySetupInfo>)
    ensures multiset(r) == multiset(Unsorted(env))
    ensures forall i, j :: 0 <= i < j < |r| ==> r[i].downloadCountInBytes >= r[j].downloadCountInBytes
  {
    ByDownloadTotalPreorder();
    var r := SortDescending(Unsorted(env), ByDownload);
    assert forall i, j :: 0 <= i < j < |r| ==> ByDownload(r[j], r[i]);
    r
  }

  /** A record of the rebuilt list with no local entry for its URL gets every
      feed type; with a contact list, every record comes from it. */
  lemma ClearFeedTypes(env: Environment, x: RelaySetupInfo)
    requires env.contactRelays.Some? && x in Clear(env)
    requires forall i :: 0 <= i < |env.localRelays| ==> env.localRelays[i].url != x.url
    ensures x.feedTypes == AllFeedTypes
    ensures x.url in KeysOf(RelayFile(env).value)
  {
    var file := RelayFile(env).value;
    var us := FromRelayFile(file, env);
    assert Unsorted(env) == us;
    assert x in multiset(Clear(env));
    assert x in us;
    var i :| 0 <= i < |us| && us[i] == x;
    var url := file[i].0;
    assert x == Record(url, file[i].1.read, file[i].1.write, LocalFeedTypes(env.localRelays, url), env.pool);
    assert x.url == url;
    assert LocalFeedTypes(env.localRelays, url) == AllFeedTypes;
  }

  /** With a contact list that names no forced search relay, every forced
      search relay appears in the rebuilt list. */
  lemma ClearAddsForcedSearch(env: Environment, url: string)
    requires NeedsForcedSearch(env)
    requires url in KeysOf(env.forcedRelayForSearch)
    ensures exists x :: x in Clear(env) && x.url == url
  {
    var file := RelayFile(env).value;
    assert url in KeysOf(file);
    var i :| 0 <= i < |file| && file[i].0 == url;
    var us := FromRelayFile(file, env);
    assert us[i].url == url;
    assert us[i] in multiset(Clear(env));
  }

  /** `create()`: what is saved and the list after `clear`. The save runs
      on an IO coroutine that reads the list when it starts, which may be
      before or after `clear` has replaced it on the calling thread;
      `readsAfterClear` chooses that interleaving. */
  function Create(relays: seq<RelaySetupInfo>, env: Environment, readsAfterClear: bool): (r: (seq<RelaySetupInfo>, seq<RelaySetupInfo>))
    ensures r.1 == Clear(env)
    ensures multiset(r.1) == multiset(Unsorted(env))
    ensures !readsAfterClear ==> r.0 == relays
    ensures readsAfterClear ==> r.0 == r.1
  {
    var cleared := Clear(env);
    (if readsAfterClear then cleared else relays, cleared)
  }

  /** When the coroutine reads late, the edited list has no effect on what
      is saved: the account's own list is rebuilt and saved back. */
  lemma CreateLateReadDropsEdits(edited: seq<RelaySetupInfo>, other: seq<RelaySetupInfo>, env: Environment)
    ensures Create(edited, env, true).0 == Create(other, env, true).0
    ensures multiset(Create(edited, env, true).0) == multiset(Unsorted(env))
  {
  }
}
