/** The form behind the create-or-edit public chat dialog
    (`NewChannelViewModel`): three text fields, the account and, when
    editing, the channel being edited. Sending is a request value. */
module NewChannel {
  import opened Optional

  /** The channel metadata the form reads. */
  datatype ChannelInfo = ChannelInfo(name: Option<string>, picture: Option<string>, about: Option<string>)

  datatype Channel = Channel(idHex: string, info: ChannelInfo)

  /** The view model's state; the account is its public key. */
  datatype Form = Form(
    account: Option<string>,
    originalChannel: Option<Channel>,
    channelName: string,
    channelPicture: string,
    channelDescription: string)

  /** A new view model. */
  const Initial: Form := Form(None, None, "", "", "")

  /** What `create` asks the account to send, fields in the order
      name, description, picture. */
  datatype Request =
    | CreateNew(newName: string, newDescription: string, newPicture: string)
    | Change(name: string, description: string, picture: string, channel: Channel)

  /** `load(account, channel)`: the account is set; a channel becomes the one
      edited and fills the fields, a missing value as ""; no channel leaves
      everything else as it was. */
  function Load(f: Form, account: string, channel: Option<Channel>): (r: Form)
    ensures r.account == Some(account)
    ensures channel.None? ==> r == f.(account := Some(account))
    ensures channel.Some? ==> (
      && r.originalChannel == channel
      && r.channelName == channel.value.info.name.GetOr("")
      && r.channelPicture == channel.value.info.picture.GetOr("")
      && r.channelDescription == channel.value.info.about.GetOr(""))
  {
    match channel
    case None => f.(account := Some(account))
    case Some(c) =>
      Form(Some(account), Some(c), c.info.name.GetOr(""), c.info.picture.GetOr(""), c.info.about.GetOr(""))
  }

  /** `clear()`: the fields are emptied; the account and the edited channel stay. */
  function Clear(f: Form): (r: Form)
    ensures r.channelName == "" && r.channelPicture == "" && r.channelDescription == ""
    ensures r.account == f.account && r.originalChannel == f.originalChannel
  {
    f.(channelName := "", channelPicture := "", channelDescription := "")
  }

  /** `create()`: with an account, a new channel when none is being edited and
      a change of the edited one otherwise; the fields are cleared either way. */
  function Create(f: Form): (r: (Option<Request>, Form))
    ensures r.1 == Clear(f)
    ensures r.0.Some? <==> f.account.Some?
    ensures r.0.Some? && f.originalChannel.None? ==>
      r.0.value == CreateNew(f.channelName, f.channelDescription, f.channelPicture)
    ensures r.0.Some? && f.originalChannel.Some? ==>
      r.0.value == Change(f.channelName, f.channelDescription, f.channelPicture, f.originalChannel.value)
  {
    var sent :=
      if f.account.None? then None
      else if f.originalChannel.None? then Some(CreateNew(f.channelName, f.channelDescription, f.channelPicture))
      else Some(Change(f.channelName, f.channelDescription, f.channelPicture, f.originalChannel.value));
    (sent, Clear(f))
  }

  /** Saving a loaded channel without typing sends its own metadata back
      (missing values as empty text) as a change of that channel. */
  lemma LoadThenCreate(f: Form, account: string, c: Channel)
    ensures Create(Load(f, account, Some(c))).0 ==
      Some(Change(c.info.name.GetOr(""), c.info.about.GetOr(""), c.info.picture.GetOr(""), c))
  {
  }

  /** A fresh dialog creates a new channel from what was typed. */
  lemma FreshFormCreatesNew(account: string, name: string, description: string, picture: string)
    ensures var f := Load(Initial, account, None).(channelName := name, channelDescription := description, channelPicture := picture);
      Create(f).0 == Some(CreateNew(name, description, picture))
  {
  }

  /** Clearing keeps the edited channel, so a later `create` on the same view
      model changes that channel again rather than creating a new one. */
  lemma CreateKeepsTarget(f: Form, name: string, description: string, picture: string)
    requires f.account.Some? && f.originalChannel.Some?
    ensures var g := Create(f).1.(channelName := name, channelDescription := description, channelPicture := picture);
      Create(g).0 == Some(Change(name, description, picture, f.originalChannel.value))
  {
  }

  /** Clearing twice is clearing once. */
  lemma ClearIdempotent(f: Form)
    ensures Clear(Clear(f)) == Clear(f)
  {
  }
}
