/** How a text note is rendered (`RenderTextEvent`): whether the note it
    replies to is shown above it, which note that is, and the text shown,
    with the edited content and the subject header. Notes arrive as data:
    the cache lookup of the direct reply target is an input. */
module TextNote {
  import opened Optional
  import opened KotlinText

  /** `CommunityDefinitionEvent.KIND`. */
  const CommunityDefinitionKind: int := 34550

  /** A note as the renderer sees it: its channel, and its event's kind when
      the event is loaded. */
  datatype NoteRef = NoteRef(id: string, channelHex: Option<string>, kind: Option<int>)

  /** The note being rendered. */
  datatype RenderedNote = RenderedNote(
    isBaseTextNote: bool,
    hasAnyTaggedUser: bool,
    replyTo: Option<seq<NoteRef>>)

  /** `showReply`: a text note, shown in full, with replies unpacked, that
      replies to something or tags a user. An empty but present `replyTo`
      list counts as replying. */
  predicate ShowReply(note: RenderedNote, makeItShort: bool, unPackReply: bool)
    ensures ShowReply(note, makeItShort, unPackReply) ==> note.isBaseTextNote && !makeItShort && unPackReply
    ensures note.replyTo == Some([]) ==> ShowReply(note, makeItShort, unPackReply) == (note.isBaseTextNote && !makeItShort && unPackReply)
    ensures note.replyTo.None? && !note.hasAnyTaggedUser ==> !ShowReply(note, makeItShort, unPackReply)
    ensures note.isBaseTextNote && !makeItShort && unPackReply && (note.replyTo.Some? || note.hasAnyTaggedUser) ==>
      ShowReply(note, makeItShort, unPackReply)
  {
    note.isBaseTextNote && !makeItShort && unPackReply && (note.replyTo.Some? || note.hasAnyTaggedUser)
  }

  /** Not a community definition; a note without a loaded event passes. */
  predicate NotCommunity(n: NoteRef) {
    n.kind != Some(CommunityDefinitionKind)
  }

  /** `i` is the last note that is not a community definition. */
  predicate LastNotCommunityAt(rs: seq<NoteRef>, i: int) {
    0 <= i < |rs| && NotCommunity(rs[i]) && forall k :: i < k < |rs| ==> !NotCommunity(rs[k])
  }

  /** `replyTo?.lastOrNull { it.event?.kind() != CommunityDefinitionEvent.KIND }`. */
  function LastNotCommunity(replyTo: Option<seq<NoteRef>>): (r: Option<NoteRef>)
    ensures r.None? <==> replyTo.None? || forall i :: 0 <= i < |replyTo.value| ==> !NotCommunity(replyTo.value[i])
    ensures r.Some? ==> exists i :: LastNotCommunityAt(replyTo.value, i) && replyTo.value[i] == r.value
  {
    match replyTo
    case None => None
    case Some(rs) => LastMatching(rs)
  }

  function LastMatching(rs: seq<NoteRef>): (r: Option<NoteRef>)
    ensures r.None? <==> forall i :: 0 <= i < |rs| ==> !NotCommunity(rs[i])
    ensures r.Some? ==> exists i :: LastNotCommunityAt(rs, i) && rs[i] == r.value
  {
    if |rs| == 0 then None
    else if NotCommunity(rs[|rs| - 1]) then
      assert LastNotCommunityAt(rs, |rs| - 1);
      Some(rs[|rs| - 1])
    else
      var r := LastMatching(rs[..|rs| - 1]);
      assert forall i :: 0 <= i < |rs| - 1 ==> rs[..|rs| - 1][i] == rs[i];
      if r.Some? then ExtendLast(rs, rs[..|rs| - 1], r.value); r else r
  }

  /** A last match before a trailing community definition is the last match. */
  lemma ExtendLast(rs: seq<NoteRef>, init: seq<NoteRef>, v: NoteRef)
    requires |rs| > 0 && init == rs[..|rs| - 1] && !NotCommunity(rs[|rs| - 1])
    requires exists i :: LastNotCommunityAt(init, i) && init[i] == v
    ensures exists i :: LastNotCommunityAt(rs, i) && rs[i] == v
  {
    var i :| LastNotCommunityAt(init, i) && init[i] == v;
    assert rs[i] == v;
    assert LastNotCommunityAt(rs, i);
  }

  /** The direct reply target is shown when it is in the cache, outside any
      channel, and not a community definition. */
  predicate Acceptable(n: NoteRef) {
    n.channelHex.None? && NotCommunity(n)
  }

  /** `replyingDirectlyTo`: for a text note, the cached note it replies to
      directly (`direct`) when that is acceptable; otherwise the last
      `replyTo` note that is not a community definition. */
  function ReplyTarget(note: RenderedNote, direct: Option<NoteRef>): (r: Option<NoteRef>)
    ensures note.isBaseTextNote && direct.Some? && Acceptable(direct.value) ==> r == direct
    ensures !(note.isBaseTextNote && direct.Some? && Acceptable(direct.value)) ==> r == LastNotCommunity(note.replyTo)
    ensures r.Some? ==> NotCommunity(r.value)
  {
    if note.isBaseTextNote && direct.Some? && Acceptable(direct.value) then direct
    else LastNotCommunity(note.replyTo)
  }

  /** The note shown above the rendered one, if any. */
  function ShownReply(note: RenderedNote, makeItShort: bool, unPackReply: bool, direct: Option<NoteRef>): (r: Option<NoteRef>)
    ensures r.Some? ==> ShowReply(note, makeItShort, unPackReply)
    ensures r.Some? ==> NotCommunity(r.value)
    ensures ShowReply(note, makeItShort, unPackReply) ==> r == ReplyTarget(note, direct)
  {
    if ShowReply(note, makeItShort, unPackReply) then ReplyTarget(note, direct) else None
  }

  /** A community definition is never shown as the replied-to note, even
      when it is the only note replied to. */
  lemma CommunityNeverShown(note: RenderedNote, makeItShort: bool, unPackReply: bool, direct: Option<NoteRef>, c: NoteRef)
    requires c.kind == Some(CommunityDefinitionKind)
    ensures ShownReply(note, makeItShort, unPackReply, direct) != Some(c)
  {
  }

  /** A short rendering never shows the replied-to note. */
  lemma ShortHidesReply(note: RenderedNote, unPackReply: bool, direct: Option<NoteRef>)
    ensures ShownReply(note, true, unPackReply, direct).None?
  {
  }

  /** The loaded edit state: `Loaded(shown)` carries the content of the
      modification to show, when there is one with an event. */
  datatype EditState = NotLoaded | Loaded(shownContent: Option<string>)

  /** `newBody`: the content of a loaded modification, else the body. */
  function NewBody(edit: EditState, body: string): (r: string)
    ensures edit.Loaded? && edit.shownContent.Some? ==> r == edit.shownContent.value
    ensures !(edit.Loaded? && edit.shownContent.Some?) ==> r == body
  {
    match edit
    case Loaded(Some(content)) => content
    case _ => body
  }

  /** `subject()?.ifEmpty { null }` of a kind-1 note; other notes have none. */
  function Subject(isTextNote: bool, subject: Option<string>): (r: Option<string>)
    ensures r.Some? ==> isTextNote && subject == r && r.value != ""
    ensures isTextNote && subject.Some? && subject.value != "" ==> r == subject
  {
    if isTextNote && subject.Some? && subject.value != "" then subject else None
  }

  /** The header line put in front of the body. */
  function Header(subject: string): string {
    "### " + subject + "\n"
  }

  /** A header is added exactly when the subject is present, not blank, and
      the body's first line does not already start with it. */
  predicate NeedsHeader(subject: Option<string>, body: string) {
    subject.Some? && !IsBlank(subject.value) && !StartsWith(FirstSegment(body, '\n'), subject.value)
  }

  /** `eventContent`: "### subject" on a line of its own before the body, or
      the body as is. */
  function EventContent(subject: Option<string>, body: string): (r: string)
    ensures NeedsHeader(subject, body) ==> r == Header(subject.value) + body
    ensures !NeedsHeader(subject, body) ==> r == body
    ensures |body| <= |r| && r[|r| - |body|..] == body
  {
    if NeedsHeader(subject, body) then Header(subject.value) + body else body
  }

  /** The header can be taken off again: the added first line is the
      "### subject" line and what follows it is the body. */
  lemma {:induction false} HeaderReadsBack(subject: string, body: string)
    requires '\n' !in subject
    requires NeedsHeader(Some(subject), body)
    ensures FirstSegment(EventContent(Some(subject), body), '\n') == "### " + subject
    ensures EventContent(Some(subject), body)[|Header(subject)|..] == body
  {
    var r := EventContent(Some(subject), body);
    var line := "### " + subject;
    assert r == line + ("\n" + body);
    FirstSegmentOfLine(line, "\n" + body);
  }

  /** The first segment of a line followed by a line break is that line. */
  lemma {:induction false} FirstSegmentOfLine(line: string, rest: string)
    requires '\n' !in line && |rest| > 0 && rest[0] == '\n'
    ensures FirstSegment(line + rest, '\n') == line
    decreases |line|
  {
    if |line| > 0 {
      assert (line + rest)[1..] == line[1..] + rest;
      FirstSegmentOfLine(line[1..], rest);
      assert line == [line[0]] + line[1..];
    }
  }

  /** A note without a subject, or with a blank one, shows its body unchanged. */
  lemma NoSubjectNoHeader(subject: Option<string>, body: string)
    requires subject.None? || IsBlank(subject.value)
    ensures EventContent(subject, body) == body
  {
  }

  /** The text shown for a note: its edited body, headed by its subject. */
  function Shown(isTextNote: bool, subject: Option<string>, edit: EditState, body: string): (r: string)
    ensures var b := NewBody(edit, body); |b| <= |r| && r[|r| - |b|..] == b
  {
    EventContent(Subject(isTextNote, subject), NewBody(edit, body))
  }
}
