/** The message row of a chat channel (`ChannelScreen`): which file server an
    upload goes to, when the post button is active, what sending does to the
    draft, and what a click on the channel header does. Tagging a message
    (`NewMessageTagger`) and the channel's route are inputs. */
module ChannelScreen {
  import opened Optional
  import opened KotlinText

  /** `ServersAvailable`. */
  datatype Server =
    | NostrBuild | NostrImg | NostrFilesDev | NostrCheckMe
    | NostrBuildNip94 | NostrImgNip94 | NostrFilesDevNip94 | NostrCheckMeNip94
    | Nip95

  /** The servers that announce an upload in a NIP-94 file header event. */
  predicate IsNip94(s: Server) {
    s.NostrBuildNip94? || s.NostrImgNip94? || s.NostrFilesDevNip94? || s.NostrCheckMeNip94?
  }

  /** The plain upload servers. */
  predicate IsPlain(s: Server) {
    !IsNip94(s) && !s.Nip95?
  }

  /** The NIP-94 variant of a plain server. */
  function Nip94Of(s: Server): (r: Server)
    requires IsPlain(s)
    ensures IsNip94(r)
  {
    match s
    case NostrBuild => NostrBuildNip94
    case NostrImg => NostrImgNip94
    case NostrFilesDev => NostrFilesDevNip94
    case NostrCheckMe => NostrCheckMeNip94
  }

  /** The server of a private upload: a plain server is kept, a NIP-94
      variant becomes its plain server, and NIP-95 becomes nostr.build. */
  function PrivateServer(s: Server): (r: Server)
    ensures IsPlain(r)
    ensures IsPlain(s) ==> r == s
    ensures s.Nip95? ==> r == NostrBuild
  {
    match s
    case NostrBuild => NostrBuild
    case NostrImg => NostrImg
    case NostrFilesDev => NostrFilesDev
    case NostrCheckMe => NostrCheckMe
    case NostrBuildNip94 => NostrBuild
    case NostrImgNip94 => NostrImg
    case NostrFilesDevNip94 => NostrFilesDev
    case NostrCheckMeNip94 => NostrCheckMe
    case Nip95 => NostrBuild
  }

  /** Every NIP-94 variant maps back to the plain server it is a variant of. */
  lemma PrivateServerOfNip94(s: Server)
    requires IsPlain(s)
    ensures PrivateServer(Nip94Of(s)) == s
  {
  }

  /** Mapping twice is mapping once. */
  lemma PrivateServerIdempotent(s: Server)
    ensures PrivateServer(PrivateServer(s)) == PrivateServer(s)
  {
  }

  /** The server of an upload from the message row: the account's default,
      mapped for a private chat. */
  function UploadServer(isPrivate: bool, defaultServer: Server): (r: Server)
    ensures !isPrivate ==> r == defaultServer
    ensures isPrivate ==> IsPlain(r) && r == PrivateServer(defaultServer)
  {
    if isPrivate then PrivateServer(defaultServer) else defaultServer
  }

  /** The post button's `isActive`. */
  predicate PostActive(message: string, isUploadingImage: bool)
    ensures PostActive(message, isUploadingImage) ==> |message| > 0 && !isUploadingImage
    ensures PostActive(message, isUploadingImage) <==>
      !isUploadingImage && exists i :: 0 <= i < |message| && !IsWhitespace(message[i])
  {
    !IsBlank(message) && !isUploadingImage
  }

  /** A note replied to, with its author when known. */
  datatype ReplyNote = ReplyNote(id: string, author: Option<string>)

  /** The draft: the message text and the note it replies to. */
  datatype Draft = Draft(message: string, replyTo: Option<ReplyNote>)

  /** The channel a message goes to; every channel has an id, and a live
      activity also has the address its messages are sent to. */
  datatype Channel = PublicChat(idHex: string) | LiveActivities(idHex: string, address: string) | OtherChannel(idHex: string)

  /** What the tagger produced from the message, its mentions and its replies. */
  datatype Tagged = Tagged(message: string, mentions: seq<string>, replyTos: seq<ReplyNote>)

  /** The message sent: a channel message to a public chat, a live message to a live activity. */
  datatype Outgoing =
    | ChannelMessage(toChannel: string, channelContent: Tagged)
    | LiveMessage(toActivity: string, liveContent: Tagged)

  /** `listOfNotNull`. */
  function ListOfNotNull<T>(x: Option<T>): (r: seq<T>)
    ensures x.None? <==> r == []
    ensures x.Some? ==> r == [x.value]
  {
    match x
    case Some(v) => [v]
    case None => []
  }

  /** Sending the draft: the tagged message goes to a public chat or a live
      activity (any other channel sends nothing), and the draft is emptied
      either way. */
  function Send(draft: Draft, channel: Channel, tag: (string, seq<string>, seq<ReplyNote>, string) -> Tagged): (r: (Option<Outgoing>, Draft))
    ensures r.1 == Draft("", None)
    ensures r.0.Some? <==> !channel.OtherChannel?
    ensures var tagged := tag(draft.message, ListOfNotNull(if draft.replyTo.Some? then draft.replyTo.value.author else None),
                              ListOfNotNull(draft.replyTo), channel.idHex);
      && (channel.PublicChat? ==> r.0 == Some(ChannelMessage(channel.idHex, tagged)))
      && (channel.LiveActivities? ==> r.0 == Some(LiveMessage(channel.address, tagged)))
  {
    var author := match draft.replyTo case Some(n) => n.author case None => None;
    var tagged := tag(draft.message, ListOfNotNull(author), ListOfNotNull(draft.replyTo), channel.idHex);
    var sent := match channel
      case PublicChat(id) => Some(ChannelMessage(id, tagged))
      case LiveActivities(_, a) => Some(LiveMessage(a, tagged))
      case OtherChannel(_) => None;
    (sent, Draft("", None))
  }

  /** After a send the post button is off until something is typed again. */
  lemma SendDisablesPost(draft: Draft, channel: Channel, tag: (string, seq<string>, seq<ReplyNote>, string) -> Tagged, uploading: bool)
    ensures !PostActive(Send(draft, channel, tag).1.message, uploading)
  {
  }

  /** What a click on the channel header does. */
  datatype HeaderAction = GoTo(route: string) | SetExpanded(expanded: bool)

  /** A header that sends to the channel navigates to it; otherwise the click
      expands or collapses the header. */
  function HeaderClick(sendToChannel: bool, expanded: bool, channelRoute: string): (r: HeaderAction)
    ensures r.GoTo? <==> sendToChannel
    ensures r.GoTo? ==> r.route == channelRoute
    ensures r.SetExpanded? ==> r.expanded != expanded
  {
    if sendToChannel then GoTo(channelRoute) else SetExpanded(!expanded)
  }

  /** Two clicks on a header that does not navigate restore its state. */
  lemma HeaderClickTwice(expanded: bool, channelRoute: string)
    ensures HeaderClick(false, HeaderClick(false, expanded, channelRoute).expanded, channelRoute) == SetExpanded(expanded)
  {
  }
}
