# Amethyst core, modelled in Dafny

A model of the sequential logic beneath the Amethyst Nostr client's user
interface, with proofs of what that logic promises. Every module is a set of
immutable datatypes and pure transition functions; view-model state is a
record, and each operation returns the next record.

| module | file | models |
|---|---|---|
| `Optional` | optional.dfy | Kotlin's nullable values (`Option`) |
| `KotlinText` | kotlin_text.dfy | the string functions the code calls: `isBlank`, `trim`, `contains(ignoreCase)`, `startsWith`, `substringBefore`, `replace`, `toIntOrNull`/`toLongOrNull`, lexicographic order |
| `KotlinLists` | kotlin_lists.dfy | the list functions the code calls: `distinctBy`, `sortedBy { }.reversed()`, `minus`, set toggling, `updated` |
| `NostrTags` | nostr_tags.dfy | events and tag arrays as NIP-01 defines them; the "all values" and "first value" lookups every accessor uses, and tag builders |
| `AppDefinition` | app_definition.dfy | the NIP-89 app handler (kind 31990): `AppMetadata` name fallbacks, search, `cleanBlankNames`, supported kinds, publication date, `create` |
| `PrivateOutbox` | private_outbox.dfy | the private outbox relay list (kind 10013): relays, the private tag cache, `updateRelayList`, `create` |
| `RelaySet` | relay_set.dfy | the relay set (kind 30022) |
| `CalendarTimeSlot`, `CalendarRsvp` | calendar.dfy | NIP-52 time slots (kind 31923) and RSVPs (kind 31925) |
| `LnZapPayment` | ln_zap_payment.dfy | the NIP-47 `pay_invoice` request (kind 23194), its deserializer and invoice cache |
| `RelayStats` | relay_stats.dfy | the per-URL relay statistics store and its bounded debug log |
| `NewRelayList` | new_relay_list.dfy | the relay list editor (`NewRelayListViewModel`), with `removeSuffix("/")` on relay URLs |
| `BasicRelaySetup` | basic_relay_setup.dfy | the simple relay list editor (`BasicRelaySetupInfoModel`) with its modified flag |
| `TopBar` | top_bar.dfy | the follow-list selector of the top bar: display names, option assembly, placeholder, selection, people list and route filtering and sorting, route dispatch |
| `TextNote` | text_note.dfy | rendering a text note: the replied-to note, the edited body, the subject header |
| `ChannelScreen` | channel_screen.dfy | the chat message row: upload server, post button, sending, header click |
| `NewChannel` | new_channel.dfy | the create-or-edit channel dialog (`NewChannelViewModel`) |
| `Cashu` | cashu.dfy | redeeming a Cashu token ("cashuA" serialisation of Cashu NUT-00): amounts, fee, melt amount, and how the mint's answer is reported |

Signing, NIP-04/NIP-44 encryption, JSON, Base64 and network calls are
function parameters: an event's `create` returns the template handed to the
signer, and decryption or decoding is a function that may yield `None`
where the code would throw or the callback would not fire.

## Model

| member | source | states |
|---|---|---|
| AppDefinition.BestName | quartz/src/main/java/com/vitorpamplona/quartz/events/AppDefinitionEvent.kt:75-77 | the display name, else the name, else the username; absent only when all three are |
| AppDefinition.AnyName | quartz/src/main/java/com/vitorpamplona/quartz/events/AppDefinitionEvent.kt:61-63 | agrees with `BestName` and is one of the three name fields |
| AppDefinition.LnAddress | quartz/src/main/java/com/vitorpamplona/quartz/events/AppDefinitionEvent.kt:71-73 | lud16 when present, else lud06; absent only when both are |
| AppDefinition.AnyNameStartsWith | quartz/src/main/java/com/vitorpamplona/quartz/events/AppDefinitionEvent.kt:65-69 | true exactly when some present identifier among name, username, display name, nip05, lud06, lud16 contains the text ignoring case |
| AppDefinition.AnyNameStartsWithFields | quartz/src/main/java/com/vitorpamplona/quartz/events/AppDefinitionEvent.kt:65-69 | the same, field by field, both directions |
| AppDefinition.AnyNameStartsWithIsSubstringTest | quartz/src/main/java/com/vitorpamplona/quartz/events/AppDefinitionEvent.kt:65-69 | a name matching only in its middle is accepted, so the test is a substring test, not a prefix test |
| AppDefinition.CleanField | quartz/src/main/java/com/vitorpamplona/quartz/events/AppDefinitionEvent.kt:88-109 | a field becomes its trimmed value when non-blank and absent otherwise |
| AppDefinition.CleanBlankNames | quartz/src/main/java/com/vitorpamplona/quartz/events/AppDefinitionEvent.kt:87-110 | each of the nine name/link fields becomes its own cleaned value (the trimmed text when it is not blank, absent otherwise), so each comes out absent or non-blank and trimmed; about, banner, image, twitter, amount and the flags are untouched |
| AppDefinition.CleanBlankNamesIdempotent | quartz/src/main/java/com/vitorpamplona/quartz/events/AppDefinitionEvent.kt:87-110 | cleaning twice is cleaning once |
| AppDefinition.ParseInts | quartz/src/main/java/com/vitorpamplona/quartz/events/AppDefinitionEvent.kt:148 | never longer than the input |
| AppDefinition.IntOf | quartz/src/main/java/com/vitorpamplona/quartz/events/AppDefinitionEvent.kt:148 | a value contributes its integer exactly when it parses to one |
| AppDefinition.ParseIntsMembers | quartz/src/main/java/com/vitorpamplona/quartz/events/AppDefinitionEvent.kt:148 | an integer is in the result exactly when some value parses to it |
| AppDefinition.ParseIntsAppend | quartz/src/main/java/com/vitorpamplona/quartz/events/AppDefinitionEvent.kt:148 | parsing preserves order across concatenation |
| AppDefinition.SupportedKinds | quartz/src/main/java/com/vitorpamplona/quartz/events/AppDefinitionEvent.kt:145-148 | n is supported exactly when some "k" tag value parses to n |
| AppDefinition.IncludedKindIsSupported | quartz/src/main/java/com/vitorpamplona/quartz/events/AppDefinitionEvent.kt:145-150 | a kind included by text that parses to n makes n a supported kind |
| AppDefinition.IncludeKind | quartz/src/main/java/com/vitorpamplona/quartz/events/AppDefinitionEvent.kt:150 | a kind is included exactly when it is the value of some "k" tag |
| AppDefinition.PublishedAt | quartz/src/main/java/com/vitorpamplona/quartz/events/AppDefinitionEvent.kt:152 | the head of all "published_at" values, absent when there is none |
| AppDefinition.Create | quartz/src/main/java/com/vitorpamplona/quartz/events/AppDefinitionEvent.kt:155-168 | kind 31990, empty content, the "alt" tag reads back the description (with "null" for a missing name), no kinds and no publication date |
| PrivateOutbox.DTag | quartz/src/main/java/com/vitorpamplona/quartz/events/PrivateOutboxRelayListEvent.kt:92 | the address tag is always empty |
| PrivateOutbox.Relays | quartz/src/main/java/com/vitorpamplona/quartz/events/PrivateOutboxRelayListEvent.kt:44-60 | public relay values followed by cached private ones; absent exactly when both are empty |
| PrivateOutbox.CreateTagArray | quartz/src/main/java/com/vitorpamplona/quartz/events/PrivateOutboxRelayListEvent.kt:117-121 | one ["relay", r] per relay in order; reading relays back gives the input |
| PrivateOutbox.WithoutRelaysMembers | quartz/src/main/java/com/vitorpamplona/quartz/events/PrivateOutboxRelayListEvent.kt:131 | the filter keeps exactly the non-"relay" tags, leaving no relay value |
| PrivateOutbox.WithoutRelaysAppend | quartz/src/main/java/com/vitorpamplona/quartz/events/PrivateOutboxRelayListEvent.kt:131 | the filter preserves order across concatenation |
| PrivateOutbox.KeepNonRelay | quartz/src/main/java/com/vitorpamplona/quartz/events/PrivateOutboxRelayListEvent.kt:131 | fails exactly when some cached tag is empty (element 0 missing); otherwise keeps exactly the non-relay tags, in their original order and multiplicity (the result is the order-preserving filter) |
| PrivateOutbox.WithoutRelaysOne | quartz/src/main/java/com/vitorpamplona/quartz/events/PrivateOutboxRelayListEvent.kt:131 | a single tag is kept exactly when its name is not "relay" |
| PrivateOutbox.UpdateRelayList | quartz/src/main/java/com/vitorpamplona/quartz/events/PrivateOutboxRelayListEvent.kt:123-143 | public tags are TAGS, content is the encryption of the new cache; no cache gives an empty private array; fails only on an empty cached tag |
| PrivateOutbox.UpdateRelayListKeepsOtherTags | quartz/src/main/java/com/vitorpamplona/quartz/events/PrivateOutboxRelayListEvent.kt:130-135 | the new cache is the earlier non-relay tags, filtered in their original order, followed by the new relay tags, and the list's relays read back as the new ones |
| PrivateOutbox.UpdateRelayListWithoutCache | quartz/src/main/java/com/vitorpamplona/quartz/events/PrivateOutboxRelayListEvent.kt:130-135 | with no decrypted cache the supplied relays are dropped and the list has no relays |
| PrivateOutbox.Create | quartz/src/main/java/com/vitorpamplona/quartz/events/PrivateOutboxRelayListEvent.kt:154-167 | kind 10013, public TAGS, content the encrypted relay tags, and the relays read back as the input (none for an empty input) |
| PrivateOutbox.CreateFromScratch | quartz/src/main/java/com/vitorpamplona/quartz/events/PrivateOutboxRelayListEvent.kt:145-152 | the same round trip as `create` |
| PrivateOutbox.PrivateTags | quartz/src/main/java/com/vitorpamplona/quartz/events/PrivateOutboxRelayListEvent.kt:66-88 | empty content delivers no tags; a cache is delivered without decrypting; silence exactly when decryption fails with no cache |
| PrivateOutbox.PrivateTagsCached | quartz/src/main/java/com/vitorpamplona/quartz/events/PrivateOutboxRelayListEvent.kt:75-83 | after a successful decryption, asking again delivers the same tags regardless of decryption |
| RelaySet.Relays | quartz/src/main/java/com/vitorpamplona/quartz/events/RelaySetEvent.kt:20 | a relay is listed exactly when some "r" tag with a value carries it |
| RelaySet.Description | quartz/src/main/java/com/vitorpamplona/quartz/events/RelaySetEvent.kt:21 | the value of the first "description" tag; absent exactly when there is none |
| RelaySet.Create | quartz/src/main/java/com/vitorpamplona/quartz/events/RelaySetEvent.kt:24-37 | kind 30022, empty content; the relays read back as the input and there is no description |
| CalendarTimeSlot.FirstLong | quartz/src/main/java/com/vitorpamplona/quartz/events/CalendarTimeSlotEvent.kt:21-25 | the Long parse of the first tag of the name, and only of it; absent without such a tag |
| CalendarTimeSlot.Location | quartz/src/main/java/com/vitorpamplona/quartz/events/CalendarTimeSlotEvent.kt:20 | the value of the first "location" tag |
| CalendarTimeSlot.Start | quartz/src/main/java/com/vitorpamplona/quartz/events/CalendarTimeSlotEvent.kt:21 | the Long parse of the first "start" tag |
| CalendarTimeSlot.End | quartz/src/main/java/com/vitorpamplona/quartz/events/CalendarTimeSlotEvent.kt:22 | the Long parse of the first "end" tag |
| CalendarTimeSlot.StartTmz | quartz/src/main/java/com/vitorpamplona/quartz/events/CalendarTimeSlotEvent.kt:24 | the Long parse of the first "start_tzid" tag |
| CalendarTimeSlot.EndTmz | quartz/src/main/java/com/vitorpamplona/quartz/events/CalendarTimeSlotEvent.kt:25 | the Long parse of the first "end_tzid" tag |
| CalendarTimeSlot.FirstTagOnly | quartz/src/main/java/com/vitorpamplona/quartz/events/CalendarTimeSlotEvent.kt:21 | a non-numeric first "start" tag gives no start even when a later one is numeric |
| CalendarTimeSlot.IanaZoneIsNoNumber | quartz/src/main/java/com/vitorpamplona/quartz/events/CalendarTimeSlotEvent.kt:24-30 | a textual zone identifier (no digit) gives no startTmz |
| CalendarTimeSlot.Create | quartz/src/main/java/com/vitorpamplona/quartz/events/CalendarTimeSlotEvent.kt:33-42 | kind 31923, no tags, empty content, so every accessor is absent |
| CalendarRsvp.Status | quartz/src/main/java/com/vitorpamplona/quartz/events/CalendarRSVPEvent.kt:21 | the value of the first "location" tag |
| CalendarRsvp.Start | quartz/src/main/java/com/vitorpamplona/quartz/events/CalendarRSVPEvent.kt:22 | the raw value of the first "start" tag |
| CalendarRsvp.End | quartz/src/main/java/com/vitorpamplona/quartz/events/CalendarRSVPEvent.kt:23 | the raw value of the first "end" tag |
| CalendarRsvp.StatusIgnoresLabels | quartz/src/main/java/com/vitorpamplona/quartz/events/CalendarRSVPEvent.kt:21 | an RSVP with an "l" accepted label and a location reports the location as its status |
| CalendarRsvp.Create | quartz/src/main/java/com/vitorpamplona/quartz/events/CalendarRSVPEvent.kt:31-42 | kind 31925, no tags, empty content, so every accessor is absent |
| LnZapPayment.PayInvoiceCreate | quartz/src/main/java/com/vitorpamplona/quartz/events/LnZapPaymentRequestEvent.kt:89-95 | method "pay_invoice" with params.invoice the given bolt11 |
| LnZapPayment.Deserialize | quartz/src/main/java/com/vitorpamplona/quartz/events/LnZapPaymentRequestEvent.kt:99-108 | a request exactly when the method text is "pay_invoice", carrying the JSON params; null otherwise, including a missing method |
| LnZapPayment.DeserializeSerialize | quartz/src/main/java/com/vitorpamplona/quartz/events/LnZapPaymentRequestEvent.kt:89-108 | deserialising a serialised request gives it back |
| LnZapPayment.WalletServicePubKey | quartz/src/main/java/com/vitorpamplona/quartz/events/LnZapPaymentRequestEvent.kt:30 | the value of the first "p" tag; absent exactly when there is none |
| LnZapPayment.TalkingWith | quartz/src/main/java/com/vitorpamplona/quartz/events/LnZapPaymentRequestEvent.kt:32-34 | the author for anyone else; for the author, the wallet key, else the author |
| LnZapPayment.TalkingWithBothSides | quartz/src/main/java/com/vitorpamplona/quartz/events/LnZapPaymentRequestEvent.kt:30-34 | between author and wallet, each side's counterparty is the other |
| LnZapPayment.LnInvoice | quartz/src/main/java/com/vitorpamplona/quartz/events/LnZapPaymentRequestEvent.kt:36-55 | a cached invoice is delivered without decrypting; otherwise the invoice of a decrypted "pay_invoice" request with parameters is delivered and cached, and nothing else is ever delivered; the cache becomes what was delivered |
| LnZapPayment.LnInvoiceCached | quartz/src/main/java/com/vitorpamplona/quartz/events/LnZapPaymentRequestEvent.kt:37-40 | after an invoice is delivered, asking again delivers it regardless of decryption |
| LnZapPayment.Create | quartz/src/main/java/com/vitorpamplona/quartz/events/LnZapPaymentRequestEvent.kt:58-78 | kind 23194, tags exactly [["p", wallet]] so the wallet reads back, content the encrypted pay_invoice request |
| LnZapPayment.CreateThenLnInvoice | quartz/src/main/java/com/vitorpamplona/quartz/events/LnZapPaymentRequestEvent.kt:32-78 | the author of a created request, with a decryption inverting the encryption, reads back the invoice |
| KotlinLists.Updated | app/src/main/java/com/vitorpamplona/amethyst/ui/actions/NewRelayListViewModel.kt:172 | same length; every element equal to the old one becomes the new one; every other position unchanged |
| KotlinLists.TogglePresence | app/src/main/java/com/vitorpamplona/amethyst/ui/actions/NewRelayListViewModel.kt:174-176 | flips the item's membership and no other |
| KotlinLists.TogglePresenceTwice | app/src/main/java/com/vitorpamplona/amethyst/ui/actions/NewRelayListViewModel.kt:174-176 | toggling twice gives back the set |
| NewRelayList.AddRelay | app/src/main/java/com/vitorpamplona/amethyst/ui/actions/NewRelayListViewModel.kt:98-104 | no change when the URL is present, else appended at the end; URL-uniqueness preserved |
| NewRelayList.AddRelayIdempotent | app/src/main/java/com/vitorpamplona/amethyst/ui/actions/NewRelayListViewModel.kt:98-104 | adding twice is adding once |
| NewRelayList.DeleteRelay | app/src/main/java/com/vitorpamplona/amethyst/ui/actions/NewRelayListViewModel.kt:106-110 | removes the first equal record only, the rest in order; unchanged when absent |
| NewRelayList.DeleteRelayDistinct | app/src/main/java/com/vitorpamplona/amethyst/ui/actions/NewRelayListViewModel.kt:106-110 | with distinct URLs the deleted record is gone, URLs stay distinct, length drops by one exactly when it was present |
| NewRelayList.DeleteAll | app/src/main/java/com/vitorpamplona/amethyst/ui/actions/NewRelayListViewModel.kt:112-116 | the result is empty |
| NewRelayList.ToggleDownload | app/src/main/java/com/vitorpamplona/amethyst/ui/actions/NewRelayListViewModel.kt:118-122 | records equal to the argument flip `read` only; other records unchanged |
| NewRelayList.ToggleUpload | app/src/main/java/com/vitorpamplona/amethyst/ui/actions/NewRelayListViewModel.kt:124-128 | records equal to the argument flip `write` only; other records unchanged |
| NewRelayList.ToggleDownloadTwice | app/src/main/java/com/vitorpamplona/amethyst/ui/actions/NewRelayListViewModel.kt:118-122 | toggling back with the toggled record restores the list when that record was not already present |
| NewRelayList.ToggledTypeInjective | app/src/main/java/com/vitorpamplona/amethyst/ui/actions/NewRelayListViewModel.kt:130-163 | the five feed toggles flip five different feed types |
| NewRelayList.ToggleFeed | app/src/main/java/com/vitorpamplona/amethyst/ui/actions/NewRelayListViewModel.kt:130-163 | records equal to the argument get its feed types with exactly the toggle's own type flipped; nothing else changes |
| NewRelayList.TogglePaidRelay | app/src/main/java/com/vitorpamplona/amethyst/ui/actions/NewRelayListViewModel.kt:165-169 | records equal to the argument get the paid flag; other records unchanged |
| NewRelayList.RemoveSlash | app/src/main/java/com/vitorpamplona/amethyst/ui/actions/NewRelayListViewModel.kt:62 | removes one trailing "/" when present and leaves any other text unchanged |
| NewRelayList.Put | app/src/main/java/com/vitorpamplona/amethyst/ui/actions/NewRelayListViewModel.kt:63-68 | map plus: keys gain the new key, existing positions keep their keys, other entries unchanged, distinct keys preserved |
| NewRelayList.PutAll | app/src/main/java/com/vitorpamplona/amethyst/ui/actions/NewRelayListViewModel.kt:63-68 | keys are the union; entries whose key is not added are unchanged in place |
| NewRelayList.RelayFile | app/src/main/java/com/vitorpamplona/amethyst/ui/actions/NewRelayListViewModel.kt:58-69 | forced search relays are merged in exactly when a contact list exists and none of its URLs without trailing "/" is forced; otherwise the contact list as is |
| NewRelayList.LocalFeedTypes | app/src/main/java/com/vitorpamplona/amethyst/ui/actions/NewRelayListViewModel.kt:74 | the feed types of the first local relay with the URL, every feed type when there is none |
| NewRelayList.Record | app/src/main/java/com/vitorpamplona/amethyst/ui/actions/NewRelayListViewModel.kt:73-92 | a record with the given URL, flags and feed types, counters from the live relay, 0 without one |
| NewRelayList.FromRelayFile | app/src/main/java/com/vitorpamplona/amethyst/ui/actions/NewRelayListViewModel.kt:72-81 | one record per contact-list entry, in order |
| NewRelayList.FromLocal | app/src/main/java/com/vitorpamplona/amethyst/ui/actions/NewRelayListViewModel.kt:84-92 | one record per local relay, in order |
| NewRelayList.Clear | app/src/main/java/com/vitorpamplona/amethyst/ui/actions/NewRelayListViewModel.kt:56-96 | a permutation of the built records in non-increasing downloaded-bytes order |
| NewRelayList.ClearFeedTypes | app/src/main/java/com/vitorpamplona/amethyst/ui/actions/NewRelayListViewModel.kt:71-81 | with a contact list, a record with no local entry has every feed type and a URL from the contact list |
| NewRelayList.ClearAddsForcedSearch | app/src/main/java/com/vitorpamplona/amethyst/ui/actions/NewRelayListViewModel.kt:62-81 | when forced search is needed, every forced relay appears in the rebuilt list |
| NewRelayList.Create | app/src/main/java/com/vitorpamplona/amethyst/ui/actions/NewRelayListViewModel.kt:31-39 | the list becomes the result of `clear`; what is saved is the edited list when the IO coroutine reads it before `clear`, and the rebuilt list when it reads after |
| NewRelayList.CreateLateReadDropsEdits | app/src/main/java/com/vitorpamplona/amethyst/ui/actions/NewRelayListViewModel.kt:31-39 | when the coroutine reads after `clear`, the saved list does not depend on the edits and holds exactly the account's own relays |
| RelayStats.Log | app/src/main/java/com/vitorpamplona/amethyst/service/relays/RelayStats.kt:83 | the log never exceeds 100 messages and ends with the new one; below capacity it appends, at capacity it drops the oldest |
| RelayStats.LogLength | app/src/main/java/com/vitorpamplona/amethyst/service/relays/RelayStats.kt:83 | each logged message adds one until the log holds 100, then the length stays 100 |
| RelayStats.NewNotice | app/src/main/java/com/vitorpamplona/amethyst/service/relays/RelayStats.kt:85-93 | logs a notice carrying the text or "No error message provided"; no counter changes |
| RelayStats.NewError | app/src/main/java/com/vitorpamplona/amethyst/service/relays/RelayStats.kt:95-105 | the error counter grows by one and an error message is logged; nothing else changes |
| RelayStats.NewSpam | app/src/main/java/com/vitorpamplona/amethyst/service/relays/RelayStats.kt:115-125 | the spam counter grows by one and a spam message with the descriptor is logged; nothing else changes |
| RelayStats.AddBytesReceived | app/src/main/java/com/vitorpamplona/amethyst/service/relays/RelayStats.kt:107-109 | received bytes grow by the amount; nothing else changes |
| RelayStats.AddBytesSent | app/src/main/java/com/vitorpamplona/amethyst/service/relays/RelayStats.kt:111-113 | sent bytes grow by the amount; nothing else changes |
| RelayStats.Get | app/src/main/java/com/vitorpamplona/amethyst/service/relays/RelayStats.kt:29-31 | the stored statistics of a known URL, or a zero `RelayStat` put under the URL; other entries untouched |
| RelayStats.GetTwice | app/src/main/java/com/vitorpamplona/amethyst/service/relays/RelayStats.kt:29-31 | a second `get` returns the same statistics and does not change the store |
| RelayStats.Apply | app/src/main/java/com/vitorpamplona/amethyst/service/relays/RelayStats.kt:33-73 | the URL's statistics become the update of what `get` returned; every other URL keeps its entry |
| RelayStats.ApplyCounters | app/src/main/java/com/vitorpamplona/amethyst/service/relays/RelayStats.kt:33-73 | each update moves only its own counter: +1 error, +1 spam, +n bytes, the ping set, nothing for a notice |
| RelayStats.ApplyMessages | app/src/main/java/com/vitorpamplona/amethyst/service/relays/RelayStats.kt:47-73 | errors, notices and spam log a message of their own type and text; bytes and pings log nothing |
| RelayStats.ApplyCommutes | app/src/main/java/com/vitorpamplona/amethyst/service/relays/RelayStats.kt:26-73 | updates of two different relays can be applied in either order |
| BasicRelaySetup.AddRelay | app/src/main/java/com/vitorpamplona/amethyst/ui/actions/relays/BasicRelaySetupInfoModel.kt:89-94 | a listed URL changes nothing, flag included; otherwise appended and marked modified; URL-uniqueness preserved |
| BasicRelaySetup.DeleteRelay | app/src/main/java/com/vitorpamplona/amethyst/ui/actions/relays/BasicRelaySetupInfoModel.kt:96-99 | removes the first equal record and keeps the rest in order (nothing when absent), and marks the list modified |
| BasicRelaySetup.DeleteAll | app/src/main/java/com/vitorpamplona/amethyst/ui/actions/relays/BasicRelaySetupInfoModel.kt:101-104 | empty list, marked modified |
| BasicRelaySetup.TogglePaidRelay | app/src/main/java/com/vitorpamplona/amethyst/ui/actions/relays/BasicRelaySetupInfoModel.kt:106-111 | records equal to the argument get the paid flag, others unchanged; the modified flag is untouched |
| BasicRelaySetup.Urls | app/src/main/java/com/vitorpamplona/amethyst/ui/actions/relays/BasicRelaySetupInfoModel.kt:56 | the URLs of the records, in order |
| BasicRelaySetup.GetAll | app/src/main/java/com/vitorpamplona/amethyst/ui/actions/relays/BasicRelaySetupInfoModel.kt:79-84 | every looked-up URL is in the store afterwards; earlier entries are kept, new ones are zero statistics |
| BasicRelaySetup.Rebuild | app/src/main/java/com/vitorpamplona/amethyst/ui/actions/relays/BasicRelaySetupInfoModel.kt:79-85 | a permutation of the distinct records, ordered by non-increasing received bytes |
| BasicRelaySetup.Clear | app/src/main/java/com/vitorpamplona/amethyst/ui/actions/relays/BasicRelaySetupInfoModel.kt:75-87 | the store is the one after looking up every saved URL, the list is rebuilt from the saved URLs (none without a saved list), and the modified flag keeps its value |
| BasicRelaySetup.UniqueFacts | app/src/main/java/com/vitorpamplona/amethyst/ui/actions/relays/BasicRelaySetupInfoModel.kt:79-85 | the distinct records are duplicate-free, each is the fresh record of a saved URL, and every saved URL has one |
| BasicRelaySetup.RebuildElements | app/src/main/java/com/vitorpamplona/amethyst/ui/actions/relays/BasicRelaySetupInfoModel.kt:79-85 | the rebuilt list holds no record twice, each is the record of a saved URL, and every saved URL has one |
| BasicRelaySetup.RebuildUrls | app/src/main/java/com/vitorpamplona/amethyst/ui/actions/relays/BasicRelaySetupInfoModel.kt:79-85 | the rebuilt list has distinct URLs, and a URL is listed exactly when it was saved |
| BasicRelaySetup.RebuildSorted | app/src/main/java/com/vitorpamplona/amethyst/ui/actions/relays/BasicRelaySetupInfoModel.kt:79-85 | each record's URL is in the store and the list runs by non-increasing stored received bytes |
| BasicRelaySetup.ClearFacts | app/src/main/java/com/vitorpamplona/amethyst/ui/actions/relays/BasicRelaySetupInfoModel.kt:75-87 | after `clear`, URLs are distinct, exactly the saved ones, by non-increasing received bytes, with the flag kept |
| BasicRelaySetup.Create | app/src/main/java/com/vitorpamplona/amethyst/ui/actions/relays/BasicRelaySetupInfoModel.kt:52-59 | with modifications, the URLs are saved in list order and the list becomes `clear` of the reloaded saved list; without, nothing changes |
| TopBar.NameOf | app/src/main/java/com/vitorpamplona/amethyst/ui/navigation/AppTopBar.kt:576-595 | geohash "/g/"+tag, hashtag "#"+tag, resource its text, people list its dTag or "", community "/n/"+dTag or ""; each readable back from the text |
| TopBar.RouteNamesDistinct | app/src/main/java/com/vitorpamplona/amethyst/ui/navigation/AppTopBar.kt:580-595 | two geohash or hashtag names display the same exactly when they are the same name; a community name never displays like either |
| TopBar.HardcodedOption | app/src/main/java/com/vitorpamplona/amethyst/ui/navigation/AppTopBar.kt:541-542 | the fixed options are hard-coded and show their resource text |
| TopBar.Options | app/src/main/java/com/vitorpamplona/amethyst/ui/navigation/AppTopBar.kt:544-555 | kind-3 follows first, then global when asked for, then the people lists, then the routes only when asked for; nothing else |
| TopBar.FirstWithCode | app/src/main/java/com/vitorpamplona/amethyst/ui/navigation/AppTopBar.kt:564 | the first option with the code; none exactly when no option has it |
| TopBar.Placeholder | app/src/main/java/com/vitorpamplona/amethyst/ui/navigation/AppTopBar.kt:564 | the name of the first option with the current list's code, "Select an Option" when none has it |
| TopBar.PlaceholderOfKind3 | app/src/main/java/com/vitorpamplona/amethyst/ui/navigation/AppTopBar.kt:541-564 | with kind-3 follows as current list the placeholder is its name, whatever else is listed |
| TopBar.Select | app/src/main/java/com/vitorpamplona/amethyst/ui/navigation/AppTopBar.kt:566-568 | the option at a valid index; kind-3 follows for any index outside the list |
| TopBar.HomeSelect | app/src/main/java/com/vitorpamplona/amethyst/ui/navigation/AppTopBar.kt:403-409 | a route option is navigated to by its code; any other option's code becomes the home list |
| TopBar.HomeSelectNavigatesOnRoutes | app/src/main/java/com/vitorpamplona/amethyst/ui/navigation/AppTopBar.kt:398-409 | in the home bar a selection navigates exactly when its index falls in the routes block at the end |
| TopBar.ByNameTotalPreorder | app/src/main/java/com/vitorpamplona/amethyst/ui/navigation/AppTopBar.kt:628 | sorting by displayed name uses a total, transitive order |
| TopBar.PeopleListOption | app/src/main/java/com/vitorpamplona/amethyst/ui/navigation/AppTopBar.kt:624 | a people-list option: the list's address as code, its dTag as name |
| TopBar.OfferedListsMembers | app/src/main/java/com/vitorpamplona/amethyst/ui/navigation/AppTopBar.kt:617-627 | a people list is offered exactly when it is a people list by the user with more than one tag or more than 50 characters of content |
| TopBar.PeopleLists | app/src/main/java/com/vitorpamplona/amethyst/ui/navigation/AppTopBar.kt:617-628 | the offered lists, reordered by displayed name |
| TopBar.PeopleListsMembers | app/src/main/java/com/vitorpamplona/amethyst/ui/navigation/AppTopBar.kt:617-628 | the shown people lists are exactly the offered ones, all of people-list type |
| TopBar.CommunityOption | app/src/main/java/com/vitorpamplona/amethyst/ui/navigation/AppTopBar.kt:636 | code "Community/"+id, a route |
| TopBar.HashtagOption | app/src/main/java/com/vitorpamplona/amethyst/ui/navigation/AppTopBar.kt:641 | code "Hashtag/"+tag, shown as "#"+tag, a route |
| TopBar.GeohashOption | app/src/main/java/com/vitorpamplona/amethyst/ui/navigation/AppTopBar.kt:645 | code "Geohash/"+tag, shown as "/g/"+tag, a route |
| TopBar.CommunityOptionsMembers | app/src/main/java/com/vitorpamplona/amethyst/ui/navigation/AppTopBar.kt:634-638 | exactly the communities the cache produced get an option |
| TopBar.HashtagOptions | app/src/main/java/com/vitorpamplona/amethyst/ui/navigation/AppTopBar.kt:640-642 | one option per followed hashtag, in order |
| TopBar.GeohashOptions | app/src/main/java/com/vitorpamplona/amethyst/ui/navigation/AppTopBar.kt:644-646 | one option per followed geohash, in order |
| TopBar.HashtagOptionsMembers | app/src/main/java/com/vitorpamplona/amethyst/ui/navigation/AppTopBar.kt:640-642 | an option is a hashtag option exactly when its tag is followed |
| TopBar.GeohashOptionsMembers | app/src/main/java/com/vitorpamplona/amethyst/ui/navigation/AppTopBar.kt:644-646 | an option is a geohash option exactly when its geohash is followed |
| TopBar.Routes | app/src/main/java/com/vitorpamplona/amethyst/ui/navigation/AppTopBar.kt:634-648 | communities, hashtags and geohashes merged and ordered by displayed name |
| TopBar.RoutesMembers | app/src/main/java/com/vitorpamplona/amethyst/ui/navigation/AppTopBar.kt:634-648 | the routes are exactly the options of the produced communities, followed hashtags and followed geohashes |
| TopBar.RoutesAreRoutes | app/src/main/java/com/vitorpamplona/amethyst/ui/navigation/AppTopBar.kt:634-648 | every option among the routes is of route type |
| TopBar.CurrentRoute | app/src/main/java/com/vitorpamplona/amethyst/ui/navigation/AppTopBar.kt:142-146 | the destination's text before the first "?", absent without a destination |
| TopBar.TopRouteBar | app/src/main/java/com/vitorpamplona/amethyst/ui/navigation/AppTopBar.kt:157-189 | an item bar only with an id, carrying that id; without a route the main bar |
| TopBar.FirstWithBase | app/src/main/java/com/vitorpamplona/amethyst/ui/navigation/AppTopBar.kt:167-185 | the first route of the list whose text is the given one; none exactly when no route has that text |
| TopBar.FirstWithOwnBase | app/src/main/java/com/vitorpamplona/amethyst/ui/navigation/AppTopBar.kt:167-185 | with distinct route texts a route's own text finds that route exactly when it is in the list |
| TopBar.TopRouteBarOfBase | app/src/main/java/com/vitorpamplona/amethyst/ui/navigation/AppTopBar.kt:157-189 | with distinct route texts a route's own text gives its intended bar, the main bar for an item route without an id |
| TopBar.TopRouteBarOfRoute | app/src/main/java/com/vitorpamplona/amethyst/ui/navigation/AppTopBar.kt:142-189 | with distinct route texts every route, whatever its arguments, gets its intended bar; id-needing routes without an id get the main bar |
| TextNote.ShowReply | amethyst/src/main/java/com/vitorpamplona/amethyst/ui/note/types/Text.kt:68-73 | shown exactly for a text note rendered in full with replies unpacked that replies to something (an empty but present reply list counts) or tags a user; a note that replies to nothing and tags no one shows none |
| TextNote.LastNotCommunity | amethyst/src/main/java/com/vitorpamplona/amethyst/ui/note/types/Text.kt:85-91 | the last replied-to note that is not a community definition; none exactly when there is none or no reply list |
| TextNote.LastMatching | amethyst/src/main/java/com/vitorpamplona/amethyst/ui/note/types/Text.kt:85 | the last list element that is not a community definition; none exactly when all are |
| TextNote.ReplyTarget | amethyst/src/main/java/com/vitorpamplona/amethyst/ui/note/types/Text.kt:76-93 | for a text note, the direct target when cached, outside a channel and not a community; otherwise the last non-community reply; never a community definition |
| TextNote.ShownReply | amethyst/src/main/java/com/vitorpamplona/amethyst/ui/note/types/Text.kt:68-97 | a replied-to note is shown only when `showReply` holds, and then it is the reply target |
| TextNote.CommunityNeverShown | amethyst/src/main/java/com/vitorpamplona/amethyst/ui/note/types/Text.kt:76-97 | a community definition is never shown as the replied-to note |
| TextNote.ShortHidesReply | amethyst/src/main/java/com/vitorpamplona/amethyst/ui/note/types/Text.kt:71 | a short rendering never shows a replied-to note |
| TextNote.NewBody | amethyst/src/main/java/com/vitorpamplona/amethyst/ui/note/types/Text.kt:105-115 | the content of a loaded modification when there is one, else the body |
| TextNote.Subject | amethyst/src/main/java/com/vitorpamplona/amethyst/ui/note/types/Text.kt:104 | the subject of a kind-1 note, empty counting as none |
| TextNote.EventContent | amethyst/src/main/java/com/vitorpamplona/amethyst/ui/note/types/Text.kt:117-122 | the header is added exactly when the subject is non-blank and the body's first line does not start with it; the body is always a suffix |
| TextNote.HeaderReadsBack | amethyst/src/main/java/com/vitorpamplona/amethyst/ui/note/types/Text.kt:117-122 | the added first line is "### subject" and what follows it is the body |
| TextNote.FirstSegmentOfLine | amethyst/src/main/java/com/vitorpamplona/amethyst/ui/note/types/Text.kt:118 | the first line of a line followed by a break is that line |
| TextNote.NoSubjectNoHeader | amethyst/src/main/java/com/vitorpamplona/amethyst/ui/note/types/Text.kt:117-122 | no subject or a blank one shows the body unchanged |
| TextNote.Shown | amethyst/src/main/java/com/vitorpamplona/amethyst/ui/note/types/Text.kt:103-122 | the shown text ends with the edited body |
| ChannelScreen.Nip94Of | app/src/main/java/com/vitorpamplona/amethyst/ui/screen/loggedIn/ChannelScreen.kt:397-400 | every plain server has a NIP-94 variant |
| ChannelScreen.PrivateServer | app/src/main/java/com/vitorpamplona/amethyst/ui/screen/loggedIn/ChannelScreen.kt:390-402 | never a NIP-94 variant or NIP-95; plain servers kept; NIP-95 becomes nostr.build |
| ChannelScreen.PrivateServerOfNip94 | app/src/main/java/com/vitorpamplona/amethyst/ui/screen/loggedIn/ChannelScreen.kt:397-400 | each NIP-94 variant maps to the plain server it is a variant of |
| ChannelScreen.PrivateServerIdempotent | app/src/main/java/com/vitorpamplona/amethyst/ui/screen/loggedIn/ChannelScreen.kt:390-402 | mapping twice is mapping once |
| ChannelScreen.UploadServer | app/src/main/java/com/vitorpamplona/amethyst/ui/screen/loggedIn/ChannelScreen.kt:390-405 | the default server unchanged for a public chat, its private mapping for a private one |
| ChannelScreen.PostActive | app/src/main/java/com/vitorpamplona/amethyst/ui/screen/loggedIn/ChannelScreen.kt:380 | active exactly when some character of the message is not whitespace and no image is uploading, so never for an empty message |
| ChannelScreen.ListOfNotNull | app/src/main/java/com/vitorpamplona/amethyst/ui/screen/loggedIn/ChannelScreen.kt:269-270 | one element for a value, none for null |
| ChannelScreen.Send | app/src/main/java/com/vitorpamplona/amethyst/ui/screen/loggedIn/ChannelScreen.kt:266-295 | the tagger is given the message, the reply's author, the reply and the channel's id; its message goes to a public chat or live activity, nothing to another channel; the draft and reply are cleared either way |
| ChannelScreen.SendDisablesPost | app/src/main/java/com/vitorpamplona/amethyst/ui/screen/loggedIn/ChannelScreen.kt:380 | after sending, the post button is inactive |
| ChannelScreen.HeaderClick | app/src/main/java/com/vitorpamplona/amethyst/ui/screen/loggedIn/ChannelScreen.kt:569-575 | navigates when sending to the channel, otherwise flips the expanded state |
| ChannelScreen.HeaderClickTwice | app/src/main/java/com/vitorpamplona/amethyst/ui/screen/loggedIn/ChannelScreen.kt:569-575 | two clicks that do not navigate restore the expanded state |
| NewChannel.Load | app/src/main/java/com/vitorpamplona/amethyst/ui/actions/NewChannelViewModel.kt:23-31 | a channel fills the fields, null values as ""; no channel changes nothing but the account |
| NewChannel.Clear | app/src/main/java/com/vitorpamplona/amethyst/ui/actions/NewChannelViewModel.kt:53-57 | all three fields empty; account and edited channel kept |
| NewChannel.ClearIdempotent | app/src/main/java/com/vitorpamplona/amethyst/ui/actions/NewChannelViewModel.kt:53-57 | clearing twice is clearing once |
| NewChannel.Create | app/src/main/java/com/vitorpamplona/amethyst/ui/actions/NewChannelViewModel.kt:33-51 | with an account, a new channel or a change of the edited one, fields passed as name, description, picture; always cleared afterwards |
| NewChannel.LoadThenCreate | app/src/main/java/com/vitorpamplona/amethyst/ui/actions/NewChannelViewModel.kt:23-48 | saving a loaded channel untouched sends its own metadata back as a change of it |
| NewChannel.FreshFormCreatesNew | app/src/main/java/com/vitorpamplona/amethyst/ui/actions/NewChannelViewModel.kt:23-40 | a dialog opened without a channel creates a new one from what was typed |
| NewChannel.CreateKeepsTarget | app/src/main/java/com/vitorpamplona/amethyst/ui/actions/NewChannelViewModel.kt:33-57 | after a create, the same view model still changes the edited channel |
| Cashu.SumAppend | app/src/main/java/com/vitorpamplona/amethyst/service/CashuProcessor.kt:37-40 | the proof total adds up over concatenated proof lists |
| Cashu.TruncDiv | app/src/main/java/com/vitorpamplona/amethyst/service/CashuProcessor.kt:41 | division truncating toward zero |
| Cashu.TruncDivOdd | app/src/main/java/com/vitorpamplona/amethyst/service/CashuProcessor.kt:41 | truncating division is symmetric around zero |
| Cashu.ClampToInt | app/src/main/java/com/vitorpamplona/amethyst/service/CashuProcessor.kt:41 | saturates at the Int bounds and is the identity inside them |
| Cashu.Fees | app/src/main/java/com/vitorpamplona/amethyst/service/CashuProcessor.kt:41 | at least 2, an Int, and total/50 for totals from 150 up to the Int limit |
| Cashu.FeesFloor | app/src/main/java/com/vitorpamplona/amethyst/service/CashuProcessor.kt:41 | the fee is 2 exactly for totals under 150 |
| Cashu.RedeemNonNegative | app/src/main/java/com/vitorpamplona/amethyst/service/CashuProcessor.kt:41-42 | the invoice amount is non-negative exactly when the total is at least 2 |
| Cashu.Parse | app/src/main/java/com/vitorpamplona/amethyst/service/CashuProcessor.kt:27-48 | every "cashuA" stripped before decoding; a failure gives "Could not parse this cashu token"; otherwise the total is the sum of proofs, the fee is 2 below a total of 150 and 2% of the total (truncated) from there, and fee plus invoice amount is the total |
| Cashu.ParseThousand | app/src/main/java/com/vitorpamplona/amethyst/service/CashuProcessor.kt:31-44 | a one-proof 1000-sat token has fee 20 and invoice amount 980 |
| Cashu.MeltMilliSats | app/src/main/java/com/vitorpamplona/amethyst/service/CashuProcessor.kt:56 | exactly the invoice amount in millisats, a multiple of 1000, negative exactly when the invoice amount is |
| Cashu.MeltCoversTotal | app/src/main/java/com/vitorpamplona/amethyst/service/CashuProcessor.kt:41-56 | invoice millisats plus the fee in millisats is the total in millisats |
| Cashu.FailureDetail | app/src/main/java/com/vitorpamplona/amethyst/service/CashuProcessor.kt:99 | the text before the first '.', none when that is blank or the field is missing |
| Cashu.MeltInvoiceAsWritten | app/src/main/java/com/vitorpamplona/amethyst/service/CashuProcessor.kt:87-112 | redeemed exactly when "paid" reads "true"; a thrown exception is reported under the successful-redemption title |
| Cashu.ExceptionReportedAsSuccess | app/src/main/java/com/vitorpamplona/amethyst/service/CashuProcessor.kt:110-112 | a failed call is reported as a failure titled as a success |
| Cashu.MeltInvoice | app/src/main/java/com/vitorpamplona/amethyst/service/CashuProcessor.kt:87-112 | redeemed exactly when "paid" reads "true"; every failure carries the failed-redemption title and its detail |
| Cashu.MeltInvoiceDiffersOnlyOnException | app/src/main/java/com/vitorpamplona/amethyst/service/CashuProcessor.kt:87-112 | both versions agree on every answered call and differ only in the title of a thrown one |
| Cashu.OnlyTrueIsPaid | app/src/main/java/com/vitorpamplona/amethyst/service/CashuProcessor.kt:91-99 | any "paid" text other than "true" is a failure with the detail's first sentence |
| NostrTags.Values | quartz/src/main/java/com/vitorpamplona/quartz/events/RelaySetEvent.kt:20 | the values of the tags with the name and a value; empty exactly when no tag qualifies |
| NostrTags.ValuesAppend | quartz/src/main/java/com/vitorpamplona/quartz/events/RelaySetEvent.kt:20 | the tag filter preserves order across concatenated tag arrays |
| NostrTags.ValuesMembers | quartz/src/main/java/com/vitorpamplona/quartz/events/RelaySetEvent.kt:20 | a value is listed exactly when some qualifying tag carries it |
| NostrTags.FirstValue | quartz/src/main/java/com/vitorpamplona/quartz/events/RelaySetEvent.kt:21 | the value of the first qualifying tag; none exactly when no tag qualifies |
| NostrTags.FirstValueIsHeadOfValues | quartz/src/main/java/com/vitorpamplona/quartz/events/RelaySetEvent.kt:20-21 | the first value is the head of all values |
| NostrTags.TagsOf | quartz/src/main/java/com/vitorpamplona/quartz/events/RelaySetEvent.kt:32-35 | one [name, value] tag per value, in order |
| NostrTags.ValuesOfTagsOf | quartz/src/main/java/com/vitorpamplona/quartz/events/RelaySetEvent.kt:20-35 | reading the built tags back by their name gives the values |
| NostrTags.ValuesOfOtherName | quartz/src/main/java/com/vitorpamplona/quartz/events/RelaySetEvent.kt:20-35 | built tags carry nothing under any other name |
| AppDefinition.CleanFieldOfClean | quartz/src/main/java/com/vitorpamplona/quartz/events/AppDefinitionEvent.kt:88-109 | an absent or non-blank trimmed field is left as it is |
| PrivateOutbox.PublicTagsHaveNoRelay | quartz/src/main/java/com/vitorpamplona/quartz/events/PrivateOutboxRelayListEvent.kt:93 | the public tags of the list carry no relay |
| PrivateOutbox.WithoutRelays | quartz/src/main/java/com/vitorpamplona/quartz/events/PrivateOutboxRelayListEvent.kt:131 | never longer than the cached tags |
| RelayStats.ApplyToStat | app/src/main/java/com/vitorpamplona/amethyst/service/relays/RelayStats.kt:33-73 | every update keeps the statistics within their bounds (log of at most 100) |
| TopBar.OfferedLists | app/src/main/java/com/vitorpamplona/amethyst/ui/navigation/AppTopBar.kt:617-627 | never more options than addressable notes |
| TopBar.CommunityOptions | app/src/main/java/com/vitorpamplona/amethyst/ui/navigation/AppTopBar.kt:634-638 | never more options than notes looked up |
| BasicRelaySetup.FreshAll | app/src/main/java/com/vitorpamplona/amethyst/ui/actions/relays/BasicRelaySetupInfoModel.kt:80-84 | one record per URL, in order, each holding that URL, its statistics in the store and no paid flag |

## Left out

- Signing, NIP-04/NIP-44 encryption, Jackson JSON and Base64 are opaque function parameters; their own behaviour is not modelled.
- HTTP and Lightning calls (the mint's `/melt` POST, the Lightning address lookup, relay information documents) are inputs: the mint's answer is a parameter, and a thrown exception is a missing answer with its message.
- Coroutines, `StateFlow`, `LiveData` and callbacks: each view-model operation is one atomic transition on a record; interleavings are not modelled, except the save-versus-clear choice in `NewRelayList.Create`.
- Compose rendering, navigation, toasts and string resources: only the values the UI code computes are modelled (titles are an enumeration).
- `Account`, `LocalCache` and `RelayPool` are inputs: the cached notes, the saved relay lists, the live relay counters and the account's settings arrive as data.
- Case-insensitive containment (`contains(ignoreCase = true)`) folds ASCII letters only, because Unicode case tables are out of scope.
- Number parsing (`toIntOrNull`, `toLongOrNull`) accepts ASCII decimal digits only, while Kotlin also accepts other Unicode decimal digits.
- Strings are sequences of characters; lengths and comparisons are not over UTF-16 code units, so surrogate pairs count as one character.
- RelayStats.ApplyToStat: the counters are unbounded integers; the 64-bit wrap-around of the `Long` counters is not modelled.
- Cashu.Parse: the proof sum is an unbounded integer; the 64-bit wrap-around of the `Long` sum is not modelled.
- NewRelayList.Create: which of the two interleavings of the IO coroutine's read and `clear` happens is a parameter; the model does not decide it, and when the read comes late the edits are not saved.
- Cashu.MeltMilliSats: the product is an unbounded integer; overflow of the millisat amount is not modelled.
- Cashu.Fees: the `Double` product `total * 0.02` is replaced by the integer `total * 2 / 100` truncated toward zero and saturated to `Int`; the two agree for totals whose magnitude is below two million, and the floating-point rounding beyond that is not modelled.
- `RelaySetupInfo`, the route definitions (`Route`), `KIND3_FOLLOWS`/`GLOBAL_FOLLOWS`, `NewMessageTagger` and `routeFor` are defined in files that are not part of this model; they are parameters or plain records here.
- ATag assembly (`createAddressATag`, `createAddressTag`) relies on the `ATag` class, which is not part of this model.
- The JSON parsing of app metadata from an event's content is a parameter.
- The timestamp of a relay debug message is a parameter (the clock is not modelled).
- The relay information document fetch inside `NewRelayListViewModel.load` is left out; the model starts at `clear`.

## Findings

| source | as written | input that shows it | evidently intended | confidence | as-written member | corrected member |
|---|---|---|---|---|---|---|
| app/src/main/java/com/vitorpamplona/amethyst/service/CashuProcessor.kt:110-112 | when the melt call or the parse of its answer throws, `onError` is given the successful-redemption title | a melt request whose call throws (no answer), with any message | the failed-redemption title, as for an answered failure | not executed | Cashu.MeltInvoiceAsWritten, Cashu.ExceptionReportedAsSuccess | Cashu.MeltInvoice |
