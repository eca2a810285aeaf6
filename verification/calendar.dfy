/** The NIP-52 calendar time slot (kind 31923). Its time accessors parse only
    the first tag of their name, as a Long. */
module CalendarTimeSlot {
  import opened Optional
  import opened KotlinText
  import opened NostrTags

  const Kind: int := 31923

  /** `firstOrNull { .. }?.get(1)?.toLongOrNull()`. */
  function FirstLong(tags: Tags, name: string): (r: Option<int>)
    ensures forall i :: FirstNamedAt(tags, name, i) ==> r == ToLongOrNull(tags[i][1])
    ensures (forall i :: 0 <= i < |tags| ==> !Named(tags[i], name)) ==> r.None?
    ensures r.Some? ==> LongMin <= r.value <= LongMax
  {
    forall i | FirstNamedAt(tags, name, i) ensures FirstValue(tags, name) == Some(tags[i][1]) {
      FirstValueAt(tags, name, i);
    }
    match FirstValue(tags, name)
    case None => None
    case Some(v) => ToLongOrNull(v)
  }

  /** `location()`: the value of the first "location" tag. */
  function Location(tags: Tags): (r: Option<string>)
    ensures r.None? <==> forall i :: 0 <= i < |tags| ==> !Named(tags[i], "location")
    ensures forall i :: FirstNamedAt(tags, "location", i) ==> r == Some(tags[i][1])
  {
    forall i | FirstNamedAt(tags, "location", i) ensures FirstValue(tags, "location") == Some(tags[i][1]) {
      FirstValueAt(tags, "location", i);
    }
    FirstValue(tags, "location")
  }

  /** `start()`: the first "start" tag as Unix seconds. */
  function Start(tags: Tags): (r: Option<int>)
    ensures forall i :: FirstNamedAt(tags, "start", i) ==> r == ToLongOrNull(tags[i][1])
    ensures (forall i :: 0 <= i < |tags| ==> !Named(tags[i], "start")) ==> r.None?
  {
    FirstLong(tags, "start")
  }

  /** `end()`: the first "end" tag as Unix seconds. */
  function End(tags: Tags): (r: Option<int>)
    ensures forall i :: FirstNamedAt(tags, "end", i) ==> r == ToLongOrNull(tags[i][1])
    ensures (forall i :: 0 <= i < |tags| ==> !Named(tags[i], "end")) ==> r.None?
  {
    FirstLong(tags, "end")
  }

  /** `startTmz()`: the first "start_tzid" tag, parsed as a Long. */
  function StartTmz(tags: Tags): (r: Option<int>)
    ensures forall i :: FirstNamedAt(tags, "start_tzid", i) ==> r == ToLongOrNull(tags[i][1])
    ensures (forall i :: 0 <= i < |tags| ==> !Named(tags[i], "start_tzid")) ==> r.None?
  {
    FirstLong(tags, "start_tzid")
  }

  /** `endTmz()`: the first "end_tzid" tag, parsed as a Long. */
  function EndTmz(tags: Tags): (r: Option<int>)
    ensures forall i :: FirstNamedAt(tags, "end_tzid", i) ==> r == ToLongOrNull(tags[i][1])
    ensures (forall i :: 0 <= i < |tags| ==> !Named(tags[i], "end_tzid")) ==> r.None?
  {
    FirstLong(tags, "end_tzid")
  }

  /** A non-numeric first "start" tag hides a numeric one after it. */
  lemma FirstTagOnly(later: string, n: int)
    requires ToLongOrNull(later) == Some(n)
    ensures Start([["start", "soon"], ["start", later]]).None?
  {
    var tags := [["start", "soon"], ["start", later]];
    assert FirstNamedAt(tags, "start", 0);
    NoDigitNoNumber("soon", LongMin, LongMax);
  }

  /** An IANA zone identifier, which has no digit, never yields a `startTmz`. */
  lemma IanaZoneIsNoNumber(tags: Tags, i: int)
    requires FirstNamedAt(tags, "start_tzid", i)
    requires forall k :: 0 <= k < |tags[i][1]| ==> !IsDigit(tags[i][1][k])
    ensures StartTmz(tags).None?
  {
    NoDigitNoNumber(tags[i][1], LongMin, LongMax);
  }

  /** `create()`: no tags and empty content, so every accessor is absent. */
  function Create(createdAt: int): (r: Template)
    ensures r.kind == Kind && r.content == "" && r.createdAt == createdAt
    ensures Location(r.tags).None? && Start(r.tags).None? && End(r.tags).None?
    ensures StartTmz(r.tags).None? && EndTmz(r.tags).None?
  {
    Template(createdAt, Kind, [], "")
  }
}

/** The NIP-52 calendar RSVP (kind 31925). Its accessors return raw tag values. */
module CalendarRsvp {
  import opened Optional
  import opened NostrTags

  const Kind: int := 31925

  /** `status()`: reads the first "location" tag, not a status label. */
  function Status(tags: Tags): (r: Option<string>)
    ensures r.None? <==> forall i :: 0 <= i < |tags| ==> !Named(tags[i], "location")
    ensures forall i :: FirstNamedAt(tags, "location", i) ==> r == Some(tags[i][1])
  {
    forall i | FirstNamedAt(tags, "location", i) ensures FirstValue(tags, "location") == Some(tags[i][1]) {
      FirstValueAt(tags, "location", i);
    }
    FirstValue(tags, "location")
  }

  /** `start()`: the raw value of the first "start" tag. */
  function Start(tags: Tags): (r: Option<string>)
    ensures r.None? <==> forall i :: 0 <= i < |tags| ==> !Named(tags[i], "start")
    ensures forall i :: FirstNamedAt(tags, "start", i) ==> r == Some(tags[i][1])
  {
    forall i | FirstNamedAt(tags, "start", i) ensures FirstValue(tags, "start") == Some(tags[i][1]) {
      FirstValueAt(tags, "start", i);
    }
    FirstValue(tags, "start")
  }

  /** `end()`: the raw value of the first "end" tag. */
  function End(tags: Tags): (r: Option<string>)
    ensures r.None? <==> forall i :: 0 <= i < |tags| ==> !Named(tags[i], "end")
    ensures forall i :: FirstNamedAt(tags, "end", i) ==> r == Some(tags[i][1])
  {
    forall i | FirstNamedAt(tags, "end", i) ensures FirstValue(tags, "end") == Some(tags[i][1]) {
      FirstValueAt(tags, "end", i);
    }
    FirstValue(tags, "end")
  }

  /** The status of an RSVP is whatever its first "location" tag says, even
      when "l" status labels are present. */
  lemma StatusIgnoresLabels()
    ensures Status([["l", "accepted", "status"], ["location", "Lisbon"]]) == Some("Lisbon")
  {
    assert FirstNamedAt([["l", "accepted", "status"], ["location", "Lisbon"]], "location", 1);
  }

  /** `create()`: no tags and empty content, so every accessor is absent. */
  function Create(createdAt: int): (r: Template)
    ensures r.kind == Kind && r.content == "" && r.createdAt == createdAt
    ensures Status(r.tags).None? && Start(r.tags).None? && End(r.tags).None?
  {
    Template(createdAt, Kind, [], "")
  }
}
