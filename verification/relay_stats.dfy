/** Per-relay statistics (`RelayStats` / `RelayStat`): byte, spam and error
    counters, the last ping, and a log of the latest debug messages. The
    global mutable store is a map from URL to statistics that every
    operation threads through; the clock is a parameter. */
module RelayStats {
  import opened Optional

  /** `RelayDebugMessageType`. */
  datatype MessageType = Spam | Notice | Error

  /** `RelayDebugMessage`. */
  datatype DebugMessage = DebugMessage(kind: MessageType, message: string, time: int)

  /** The capacity of the message log (`LruCache(100)`). */
  const MaxMessages: nat := 100

  /** The text logged for an error or notice that came without one. */
  const NoMessageText: string := "No error message provided"

  /** `RelayStat`: the message log is oldest first. */
  datatype RelayStat = RelayStat(
    receivedBytes: int,
    sentBytes: int,
    spamCounter: int,
    errorCounter: int,
    pingInMs: int,
    messages: seq<DebugMessage>)

  /** `RelayStat()`: every counter zero, no message. */
  const ZeroStat: RelayStat := RelayStat(0, 0, 0, 0, 0, [])

  /** The log keeps to its capacity. */
  predicate Bounded(s: RelayStat) {
    |s.messages| <= MaxMessages
  }

  /** `messages.put(m, m)`: every message is a distinct key that is never read
      back, so the least recently used entry is the oldest one, and it is
      evicted once the log is over capacity. */
  function Log(messages: seq<DebugMessage>, m: DebugMessage): (r: seq<DebugMessage>)
    requires |messages| <= MaxMessages
    ensures |r| <= MaxMessages && |r| > 0 && r[|r| - 1] == m
    ensures |messages| < MaxMessages ==> r == messages + [m]
    ensures |messages| == MaxMessages ==> r == messages[1..] + [m]
  {
    if |messages| < MaxMessages then messages + [m] else messages[1..] + [m]
  }

  /** `newNotice(notice)`: logs a notice; no counter changes. */
  function NewNotice(s: RelayStat, notice: Option<string>, now: int): (r: RelayStat)
    requires Bounded(s)
    ensures Bounded(r)
    ensures r.(messages := s.messages) == s
    ensures |r.messages| > 0 && r.messages[|r.messages| - 1] == DebugMessage(Notice, notice.GetOr(NoMessageText), now)
  {
    s.(messages := Log(s.messages, DebugMessage(Notice, notice.GetOr(NoMessageText), now)))
  }

  /** `newError(error)`: one more error, and an error message logged. */
  function NewError(s: RelayStat, error: Option<string>, now: int): (r: RelayStat)
    requires Bounded(s)
    ensures Bounded(r)
    ensures r.errorCounter == s.errorCounter + 1
    ensures r.(errorCounter := s.errorCounter, messages := s.messages) == s
    ensures |r.messages| > 0 && r.messages[|r.messages| - 1] == DebugMessage(Error, error.GetOr(NoMessageText), now)
  {
    s.(errorCounter := s.errorCounter + 1,
       messages := Log(s.messages, DebugMessage(Error, error.GetOr(NoMessageText), now)))
  }

  /** `newSpam(descriptor)`: one more spam, and a spam message logged. */
  function NewSpam(s: RelayStat, descriptor: string, now: int): (r: RelayStat)
    requires Bounded(s)
    ensures Bounded(r)
    ensures r.spamCounter == s.spamCounter + 1
    ensures r.(spamCounter := s.spamCounter, messages := s.messages) == s
    ensures |r.messages| > 0 && r.messages[|r.messages| - 1] == DebugMessage(Spam, descriptor, now)
  {
    s.(spamCounter := s.spamCounter + 1, messages := Log(s.messages, DebugMessage(Spam, descriptor, now)))
  }

  /** `addBytesReceived(n)`. */
  function AddBytesReceived(s: RelayStat, n: int): (r: RelayStat)
    ensures r.receivedBytes == s.receivedBytes + n
    ensures r.(receivedBytes := s.receivedBytes) == s
  {
    s.(receivedBytes := s.receivedBytes + n)
  }

  /** `addBytesSent(n)`. */
  function AddBytesSent(s: RelayStat, n: int): (r: RelayStat)
    ensures r.sentBytes == s.sentBytes + n
    ensures r.(sentBytes := s.sentBytes) == s
  {
    s.(sentBytes := s.sentBytes + n)
  }

  /** The store `innerCache`. */
  type Store = map<string, RelayStat>

  /** Every log in the store keeps to its capacity. */
  predicate StoreBounded(store: Store) {
    forall u :: u in store ==> Bounded(store[u])
  }

  /** `get(url)`: `getOrPut(url) { RelayStat() }`, returning the statistics and the store afterwards. */
  function Get(store: Store, url: string): (r: (RelayStat, Store))
    ensures url in store ==> r == (store[url], store)
    ensures url !in store ==> r == (ZeroStat, store[url := ZeroStat])
    ensures url in r.1 && r.1[url] == r.0
    ensures forall u :: u != url ==> (u in r.1 <==> u in store)
    ensures forall u :: u in store ==> u in r.1 && r.1[u] == store[u]
  {
    if url in store then (store[url], store) else (ZeroStat, store[url := ZeroStat])
  }

  /** A second `get` returns the same statistics and leaves the store alone. */
  lemma GetTwice(store: Store, url: string)
    ensures Get(Get(store, url).1, url) == (Get(store, url).0, Get(store, url).1)
  {
  }

  /** The statistics of `url` after a `get`. */
  function StatOf(store: Store, url: string): RelayStat {
    Get(store, url).0
  }

  /** The operations of `RelayStats`, each applied to the statistics of one URL. */
  datatype Update =
    | BytesReceived(n: int)
    | BytesSent(n: int)
    | ErrorEvent(error: Option<string>)
    | NoticeEvent(notice: Option<string>)
    | Ping(pingInMs: int)
    | SpamEvent(explanation: string)

  /** One update of one relay's statistics, at time `now`. */
  function ApplyToStat(s: RelayStat, u: Update, now: int): (r: RelayStat)
    requires Bounded(s)
    ensures Bounded(r)
  {
    match u
    case BytesReceived(n) => AddBytesReceived(s, n)
    case BytesSent(n) => AddBytesSent(s, n)
    case ErrorEvent(e) => NewError(s, e, now)
    case NoticeEvent(n) => NewNotice(s, n, now)
    case Ping(p) => s.(pingInMs := p)
    case SpamEvent(x) => NewSpam(s, x, now)
  }

  /** `RelayStats.addBytesReceived`, `addBytesSent`, `newError`, `newNotice`,
      `setPing`, `newSpam`: `get(url)` then the update. */
  function Apply(store: Store, url: string, u: Update, now: int): (r: Store)
    requires StoreBounded(store)
    ensures StoreBounded(r)
    ensures url in r && r[url] == ApplyToStat(StatOf(store, url), u, now)
    ensures forall v :: v != url ==> (v in r <==> v in store)
    ensures forall v :: v != url && v in store ==> r[v] == store[v]
  {
    var (s, st) := Get(store, url);
    st[url := ApplyToStat(s, u, now)]
  }

  /** Each update changes exactly its own counter of the relay: the error
      counter grows by one per error, the spam counter per spam, the byte
      counters by the amount, the ping is set, and a notice changes none. */
  lemma ApplyCounters(store: Store, url: string, u: Update, now: int)
    requires StoreBounded(store)
    ensures var before := StatOf(store, url);
      var after := Apply(store, url, u, now)[url];
      && after.errorCounter == before.errorCounter + (if u.ErrorEvent? then 1 else 0)
      && after.spamCounter == before.spamCounter + (if u.SpamEvent? then 1 else 0)
      && after.receivedBytes == before.receivedBytes + (if u.BytesReceived? then u.n else 0)
      && after.sentBytes == before.sentBytes + (if u.BytesSent? then u.n else 0)
      && after.pingInMs == (if u.Ping? then u.pingInMs else before.pingInMs)
  {
  }

  /** Errors, notices and spam log one message of their own type; bytes and
      pings log nothing. */
  lemma ApplyMessages(store: Store, url: string, u: Update, now: int)
    requires StoreBounded(store)
    ensures var before := StatOf(store, url);
      var after := Apply(store, url, u, now)[url];
      && (u.ErrorEvent? ==> after.messages[|after.messages| - 1] == DebugMessage(Error, u.error.GetOr(NoMessageText), now))
      && (u.NoticeEvent? ==> after.messages[|after.messages| - 1] == DebugMessage(Notice, u.notice.GetOr(NoMessageText), now))
      && (u.SpamEvent? ==> after.messages[|after.messages| - 1] == DebugMessage(Spam, u.explanation, now))
      && (u.BytesReceived? || u.BytesSent? || u.Ping? ==> after.messages == before.messages)
  {
  }

  /** The log grows by one message per logged event until it holds 100, then stays at 100. */
  lemma LogLength(messages: seq<DebugMessage>, m: DebugMessage)
    requires |messages| <= MaxMessages
    ensures |Log(messages, m)| == if |messages| < MaxMessages then |messages| + 1 else MaxMessages
  {
  }

  /** Updates of two different relays commute: each relay's statistics
      depend only on its own updates. */
  lemma ApplyCommutes(store: Store, a: string, ua: Update, b: string, ub: Update, now: int)
    requires StoreBounded(store) && a != b
    ensures Apply(Apply(store, a, ua, now), b, ub, now) == Apply(Apply(store, b, ub, now), a, ua, now)
  {
    var sa := Apply(store, a, ua, now);
    var sb := Apply(store, b, ub, now);
    var x := Apply(sa, b, ub, now);
    var y := Apply(sb, a, ua, now);
    assert StatOf(sa, b) == StatOf(store, b);
    assert StatOf(sb, a) == StatOf(store, a);
    forall k ensures (k in x <==> k in y) && (k in x ==> x[k] == y[k]) {
      if k != a && k != b && k in x {
        assert x[k] == sa[k] == store[k] == sb[k] == y[k];
      }
    }
    assert x.Keys == y.Keys;
  }
}
