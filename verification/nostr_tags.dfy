/** Nostr events (NIP-01) as the quartz library holds them: a tag is an array
    of strings whose element 0 names it, and every typed accessor of an event
    kind is a lookup over the tag array. */
module NostrTags {
  import opened Optional

  type Tag = seq<string>
  type Tags = seq<Tag>

  /** A signed event. Signing is foreign: `id` and `sig` are whatever the signer produced. */
  datatype Event = Event(id: string, pubKey: string, createdAt: int, kind: int, tags: Tags, content: string, sig: string)

  /** What an event's `create` hands to `NostrSigner.sign`: everything but the id and signature. */
  datatype Template = Template(createdAt: int, kind: int, tags: Tags, content: string)

  /** The filter every accessor uses: `it.size > 1 && it[0] == name`. */
  predicate Named(t: Tag, name: string) {
    |t| > 1 && t[0] == name
  }

  /** `tags.filter { it.size > 1 && it[0] == name }.map { it[1] }`. */
  function Values(tags: Tags, name: string): (r: seq<string>)
    ensures |r| <= |tags|
    ensures r == [] <==> forall i :: 0 <= i < |tags| ==> !Named(tags[i], name)
  {
    if |tags| == 0 then []
    else if Named(tags[0], name) then [tags[0][1]] + Values(tags[1..], name)
    else
      assert forall i :: 1 <= i < |tags| ==> tags[i] == tags[1..][i - 1];
      Values(tags[1..], name)
  }

  /** The values of a concatenation are the concatenated values. */
  lemma {:induction false} ValuesAppend(a: Tags, b: Tags, name: string)
    ensures Values(a + b, name) == Values(a, name) + Values(b, name)
  {
    if |a| > 0 {
      assert (a + b)[1..] == a[1..] + b;
      ValuesAppend(a[1..], b, name);
    } else {
      assert a + b == b;
    }
  }

  /** A value is among the `Values` exactly when some tag of that name carries it. */
  lemma {:induction false} ValuesMembers(tags: Tags, name: string)
    ensures forall v :: v in Values(tags, name) <==>
      exists i :: 0 <= i < |tags| && Named(tags[i], name) && tags[i][1] == v
  {
    if |tags| > 0 {
      ValuesMembers(tags[1..], name);
      assert forall i :: 1 <= i < |tags| ==> tags[i] == tags[1..][i - 1];
      forall v | exists i :: 0 <= i < |tags| && Named(tags[i], name) && tags[i][1] == v
        ensures v in Values(tags, name)
      {
        var i :| 0 <= i < |tags| && Named(tags[i], name) && tags[i][1] == v;
        if i > 0 {
          assert Named(tags[1..][i - 1], name) && tags[1..][i - 1][1] == v;
        }
      }
    }
  }

  /** Position `i` holds the first tag named `name`. */
  predicate FirstNamedAt(tags: Tags, name: string, i: int) {
    0 <= i < |tags| && Named(tags[i], name) && forall j :: 0 <= j < i ==> !Named(tags[j], name)
  }

  /** `tags.firstOrNull { it.size > 1 && it[0] == name }?.get(1)`. */
  function FirstValue(tags: Tags, name: string): (r: Option<string>)
    ensures r.None? <==> forall i :: 0 <= i < |tags| ==> !Named(tags[i], name)
    ensures r.Some? ==> exists i :: FirstNamedAt(tags, name, i) && tags[i][1] == r.value
  {
    if |tags| == 0 then None
    else if Named(tags[0], name) then Some(tags[0][1])
    else
      var r := FirstValue(tags[1..], name);
      assert forall i :: 1 <= i < |tags| ==> tags[i] == tags[1..][i - 1];
      if r.Some? then
        var i :| FirstNamedAt(tags[1..], name, i) && tags[1..][i][1] == r.value;
        assert FirstNamedAt(tags, name, i + 1);
        r
      else r
  }

  /** Only one position holds the first tag of a name. */
  lemma FirstNamedAtUnique(tags: Tags, name: string, i: int, j: int)
    requires FirstNamedAt(tags, name, i) && FirstNamedAt(tags, name, j)
    ensures i == j
  {
  }

  /** `FirstValue` reads the first tag of the name. */
  lemma FirstValueAt(tags: Tags, name: string, i: int)
    requires FirstNamedAt(tags, name, i)
    ensures FirstValue(tags, name) == Some(tags[i][1])
  {
    var r := FirstValue(tags, name);
    assert r.Some?;
    var j :| FirstNamedAt(tags, name, j) && tags[j][1] == r.value;
    FirstNamedAtUnique(tags, name, i, j);
  }

  /** The first matching tag's value is the head of all matching values. */
  lemma {:induction false} FirstValueIsHeadOfValues(tags: Tags, name: string)
    ensures FirstValue(tags, name) == if Values(tags, name) == [] then None else Some(Values(tags, name)[0])
  {
    if |tags| > 0 && !Named(tags[0], name) {
      FirstValueIsHeadOfValues(tags[1..], name);
    }
  }

  /** One `[name, v]` tag per value, in order. */
  function TagsOf(name: string, vs: seq<string>): (r: Tags)
    ensures |r| == |vs|
    ensures forall i :: 0 <= i < |vs| ==> r[i] == [name, vs[i]]
  {
    if |vs| == 0 then [] else [[name, vs[0]]] + TagsOf(name, vs[1..])
  }

  /** Reading back the tags built from `vs` gives `vs`. */
  lemma {:induction false} ValuesOfTagsOf(name: string, vs: seq<string>)
    ensures Values(TagsOf(name, vs), name) == vs
  {
    if |vs| > 0 {
      var t := TagsOf(name, vs);
      assert t[1..] == TagsOf(name, vs[1..]);
      ValuesOfTagsOf(name, vs[1..]);
    }
  }

  /** Tags built under one name carry no value under another. */
  lemma {:induction false} ValuesOfOtherName(name: string, other: string, vs: seq<string>)
    requires name != other
    ensures Values(TagsOf(name, vs), other) == []
  {
  }
}
