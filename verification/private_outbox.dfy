/** The private outbox relay list (kind 10013): public "relay" tags plus a
    NIP-44 encrypted array of private tags kept, once decrypted, in a cache.
    Encryption, JSON and signing are foreign; `encrypt` stands for
    "serialise, then NIP-44 encrypt to oneself". */
module PrivateOutbox {
  import opened Optional
  import opened NostrTags

  const Kind: int := 10013

  /** `FIXED_D_TAG`: the replaceable address of the list has an empty `d` tag. */
  const FixedDTag: string := ""

  /** `TAGS`: the public tags every version carries. */
  const PublicTags: Tags := [["alt", "Relay list to store private content from this author"]]

  /** The public tags carry no relay. */
  lemma PublicTagsHaveNoRelay()
    ensures Values(PublicTags, "relay") == []
  {
    assert !Named(PublicTags[0], "relay");
  }

  /** An event of this kind together with its transient `privateTagsCache`. */
  datatype OutboxList = OutboxList(event: Event, privateTagsCache: Option<Tags>)

  /** A template handed to the signer, and the cache the signed event receives. */
  datatype Signed = Signed(template: Template, privateTagsCache: Option<Tags>)

  /** `dTag()`. */
  function DTag(l: OutboxList): (r: string)
    ensures |r| == 0
  {
    FixedDTag
  }

  /** `relays()`: the public relay values, then the cached private ones; `None` when both are empty. */
  function Relays(publicTags: Tags, cache: Option<Tags>): (r: Option<seq<string>>)
    ensures r.None? <==> Values(publicTags, "relay") == [] && (cache.None? || Values(cache.value, "relay") == [])
    ensures r.Some? ==> r.value == Values(publicTags, "relay") + Values(cache.GetOr([]), "relay")
    ensures cache.None? && r.Some? ==> r.value == Values(publicTags, "relay")
  {
    var all := Values(publicTags, "relay") + Values(cache.GetOr([]), "relay");
    if all == [] then None else Some(all)
  }

  /** `createTagArray(relays)`. */
  function CreateTagArray(relays: seq<string>): (r: Tags)
    ensures Values(r, "relay") == relays
    ensures |r| == |relays| && forall i :: 0 <= i < |relays| ==> r[i] == ["relay", relays[i]]
  {
    ValuesOfTagsOf("relay", relays);
    TagsOf("relay", relays)
  }

  /** The tags the filter keeps: those whose name is not "relay". */
  function WithoutRelays(tags: Tags): (r: Tags)
    ensures |r| <= |tags|
  {
    if |tags| == 0 then []
    else if |tags[0]| > 0 && tags[0][0] != "relay" then [tags[0]] + WithoutRelays(tags[1..])
    else WithoutRelays(tags[1..])
  }

  /** The kept tags are exactly the input's tags that are not named "relay". */
  lemma {:induction false} WithoutRelaysMembers(tags: Tags)
    ensures forall t :: t in WithoutRelays(tags) <==> t in tags && |t| > 0 && t[0] != "relay"
    ensures Values(WithoutRelays(tags), "relay") == []
  {
    if |tags| > 0 {
      WithoutRelaysMembers(tags[1..]);
      assert tags == [tags[0]] + tags[1..];
    }
  }

  /** One tag is kept exactly when its name is not "relay". */
  lemma WithoutRelaysOne(t: Tag)
    requires |t| > 0
    ensures WithoutRelays([t]) == if t[0] != "relay" then [t] else []
  {
  }

  /** The filter keeps the order of the tags it keeps. */
  lemma {:induction false} WithoutRelaysAppend(a: Tags, b: Tags)
    ensures WithoutRelays(a + b) == WithoutRelays(a) + WithoutRelays(b)
  {
    if |a| > 0 {
      assert (a + b)[1..] == a[1..] + b;
      WithoutRelaysAppend(a[1..], b);
    } else {
      assert a + b == b;
    }
  }

  /** `filter { it[0] != "relay" }`, which throws (here: `None`) at the first
      tag that has no element 0. */
  function KeepNonRelay(tags: Tags): (r: Option<Tags>)
    ensures r.None? <==> exists i :: 0 <= i < |tags| && tags[i] == []
    ensures r.Some? ==> Values(r.value, "relay") == []
    ensures r.Some? ==> forall t :: t in r.value <==> t in tags && t[0] != "relay"
    ensures r.Some? ==> r.value == WithoutRelays(tags)
  {
    WithoutRelaysMembers(tags);
    if exists i :: 0 <= i < |tags| && tags[i] == [] then None
    else
      assert forall t :: t in tags ==> |t| > 0;
      Some(WithoutRelays(tags))
  }

  /** `updateRelayList(earlierVersion, relays)`: the earlier private tags
      without their relays, then the new relays; the public tags are `TAGS` and
      the content the encrypted private tags. `None` stands for the exception
      a cached empty tag raises. */
  function UpdateRelayList(earlier: OutboxList, relays: seq<string>, createdAt: int, encrypt: Tags -> string): (r: Option<Signed>)
    ensures earlier.privateTagsCache.None? ==> r == Some(Signed(Template(createdAt, Kind, PublicTags, encrypt([])), Some([])))
    ensures earlier.privateTagsCache.Some? ==> (r.None? <==> KeepNonRelay(earlier.privateTagsCache.value).None?)
    ensures r.Some? ==> r.value.template.kind == Kind && r.value.template.tags == PublicTags
    ensures r.Some? ==> r.value.privateTagsCache.Some? && r.value.template.content == encrypt(r.value.privateTagsCache.value)
  {
    var tags :=
      match earlier.privateTagsCache
      case None => Some([])
      case Some(cache) =>
        match KeepNonRelay(cache)
        case None => None
        case Some(kept) => Some(kept + CreateTagArray(relays));
    match tags
    case None => None
    case Some(t) => Some(Signed(Template(createdAt, Kind, PublicTags, encrypt(t)), Some(t)))
  }

  /** Updating a decrypted list keeps every non-relay private tag, in order,
      and its relays become exactly the new ones. */
  lemma UpdateRelayListKeepsOtherTags(earlier: OutboxList, relays: seq<string>, createdAt: int, encrypt: Tags -> string)
    requires earlier.privateTagsCache.Some?
    requires KeepNonRelay(earlier.privateTagsCache.value).Some?
    ensures UpdateRelayList(earlier, relays, createdAt, encrypt).Some?
    ensures UpdateRelayList(earlier, relays, createdAt, encrypt).value.privateTagsCache
      == Some(KeepNonRelay(earlier.privateTagsCache.value).value + CreateTagArray(relays))
    ensures UpdateRelayList(earlier, relays, createdAt, encrypt).value.privateTagsCache
      == Some(WithoutRelays(earlier.privateTagsCache.value) + CreateTagArray(relays))
    ensures Relays(PublicTags, UpdateRelayList(earlier, relays, createdAt, encrypt).value.privateTagsCache)
      == if relays == [] then None else Some(relays)
  {
    var kept := KeepNonRelay(earlier.privateTagsCache.value).value;
    WithoutRelaysMembers(earlier.privateTagsCache.value);
    PublicTagsHaveNoRelay();
    ValuesAppend(kept, CreateTagArray(relays), "relay");
    assert Values(kept + CreateTagArray(relays), "relay") == relays;
    assert Values(PublicTags, "relay") + relays == relays;
  }

  /** Without a decrypted cache the new relays are dropped: the private tag
      array is empty and the list reads back no relays. */
  lemma UpdateRelayListWithoutCache(earlier: OutboxList, relays: seq<string>, createdAt: int, encrypt: Tags -> string)
    requires earlier.privateTagsCache.None?
    ensures Relays(PublicTags, UpdateRelayList(earlier, relays, createdAt, encrypt).value.privateTagsCache).None?
  {
    PublicTagsHaveNoRelay();
  }

  /** `create(relays)`: the private tags are one "relay" tag per relay. */
  function Create(relays: seq<string>, createdAt: int, encrypt: Tags -> string): (r: Signed)
    ensures r.template.kind == Kind && r.template.tags == PublicTags && r.template.createdAt == createdAt
    ensures r.privateTagsCache == Some(CreateTagArray(relays))
    ensures r.template.content == encrypt(CreateTagArray(relays))
    ensures Relays(r.template.tags, r.privateTagsCache) == if relays == [] then None else Some(relays)
  {
    PublicTagsHaveNoRelay();
    assert Values(PublicTags, "relay") + relays == relays;
    Signed(Template(createdAt, Kind, PublicTags, encrypt(CreateTagArray(relays))), Some(CreateTagArray(relays)))
  }

  /** `createFromScratch` is `create`. */
  function CreateFromScratch(relays: seq<string>, createdAt: int, encrypt: Tags -> string): (r: Signed)
    ensures Relays(r.template.tags, r.privateTagsCache) == if relays == [] then None else Some(relays)
  {
    Create(relays, createdAt, encrypt)
  }

  /** What `privateTags(signer, onReady)` does. */
  datatype PrivateTagsOutcome =
    | Delivered(tags: Tags, cache: Option<Tags>)  // `onReady(tags)`, with the cache afterwards
    | Silent(cache: Option<Tags>)                  // decryption or parsing failed: `onReady` never runs

  /** `privateTags`: empty content yields no tags, a cache is returned as is, and
      only otherwise is the content decrypted; `decrypted` is what decryption and
      parsing produce, `None` when either fails. */
  function PrivateTags(content: string, cache: Option<Tags>, decrypted: Option<Tags>): (r: PrivateTagsOutcome)
    ensures content == "" ==> r == Delivered([], cache)
    ensures content != "" && cache.Some? ==> r == Delivered(cache.value, cache)
    ensures r.Delivered? && content != "" ==> r.cache == Some(r.tags)
    ensures r.Silent? <==> content != "" && cache.None? && decrypted.None?
  {
    if content == "" then Delivered([], cache)
    else if cache.Some? then Delivered(cache.value, cache)
    else if decrypted.Some? then Delivered(decrypted.value, decrypted)
    else Silent(cache)
  }

  /** Once decrypted, asking again delivers the same tags whatever decryption would now give. */
  lemma PrivateTagsCached(content: string, decrypted: Option<Tags>, again: Option<Tags>)
    requires PrivateTags(content, None, decrypted).Delivered?
    ensures PrivateTags(content, PrivateTags(content, None, decrypted).cache, again)
      == PrivateTags(content, None, decrypted)
  {
  }
}
