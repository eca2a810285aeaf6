/** The relay set event (kind 30022): one "r" tag per relay and an optional
    "description" tag. */
module RelaySet {
  import opened Optional
  import opened NostrTags

  const Kind: int := 30022

  /** `relays()`: the value of every "r" tag, in order. */
  function Relays(tags: Tags): (r: seq<string>)
    ensures forall v :: v in r <==> exists i :: 0 <= i < |tags| && Named(tags[i], "r") && tags[i][1] == v
  {
    ValuesMembers(tags, "r");
    Values(tags, "r")
  }

  /** `description()`: the value of the first "description" tag. */
  function Description(tags: Tags): (r: Option<string>)
    ensures r.None? <==> forall i :: 0 <= i < |tags| ==> !Named(tags[i], "description")
    ensures forall i :: FirstNamedAt(tags, "description", i) ==> r == Some(tags[i][1])
  {
    forall i | FirstNamedAt(tags, "description", i) ensures FirstValue(tags, "description") == Some(tags[i][1]) {
      FirstValueAt(tags, "description", i);
    }
    FirstValue(tags, "description")
  }

  /** `create(relays)`: one ["r", relay] tag per relay, in order, and empty content. */
  function Create(relays: seq<string>, createdAt: int): (r: Template)
    ensures r.kind == Kind && r.content == "" && r.createdAt == createdAt
    ensures Relays(r.tags) == relays
    ensures Description(r.tags).None?
  {
    var tags := TagsOf("r", relays);
    ValuesOfTagsOf("r", relays);
    ValuesOfOtherName("r", "description", relays);
    Template(createdAt, Kind, tags, "")
  }
}
