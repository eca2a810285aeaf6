/** The app handler event of NIP-89 (kind 31990) and the `AppMetadata`
    record its content decodes to. */
module AppDefinition {
  import opened Optional
  import opened KotlinText
  import opened NostrTags

  const Kind: int := 31990

  /** `AppMetadata`: the JSON content of an app definition. */
  datatype AppMetadata = AppMetadata(
    name: Option<string>,
    username: Option<string>,
    displayName: Option<string>,
    picture: Option<string>,
    banner: Option<string>,
    image: Option<string>,
    website: Option<string>,
    about: Option<string>,
    subscription: Option<bool>,
    cashuAccepted: Option<bool>,
    encryptionSupported: Option<bool>,
    personalized: Option<bool>,
    amount: Option<string>,
    nip05: Option<string>,
    domain: Option<string>,
    lud06: Option<string>,
    lud16: Option<string>,
    twitter: Option<string>)

  /** `bestName()`: the display name, else the name, else the username. */
  function BestName(m: AppMetadata): (r: Option<string>)
    ensures r.None? <==> m.displayName.None? && m.name.None? && m.username.None?
    ensures m.displayName.Some? ==> r == m.displayName
    ensures m.displayName.None? && m.name.Some? ==> r == m.name
    ensures m.displayName.None? && m.name.None? ==> r == m.username
  {
    m.displayName.OrElse(m.name).OrElse(m.username)
  }

  /** `anyName()`: the same fallback chain as `bestName()`. */
  function AnyName(m: AppMetadata): (r: Option<string>)
    ensures r == BestName(m)
    ensures r.Some? ==> r == m.displayName || r == m.name || r == m.username
  {
    m.displayName.OrElse(m.name).OrElse(m.username)
  }

  /** `lnAddress()`: the lightning address (lud16) is preferred over the LNURL (lud06). */
  function LnAddress(m: AppMetadata): (r: Option<string>)
    ensures r.None? <==> m.lud16.None? && m.lud06.None?
    ensures m.lud16.Some? ==> r == m.lud16
    ensures m.lud16.None? ==> r == m.lud06
  {
    m.lud16.OrElse(m.lud06)
  }

  /** `listOfNotNull(..)`: the present values, in order. */
  function NotNull(xs: seq<Option<string>>): (r: seq<string>)
    ensures forall s :: s in r <==> Some(s) in xs
  {
    if |xs| == 0 then []
    else
      assert xs == [xs[0]] + xs[1..];
      if xs[0].Some? then [xs[0].value] + NotNull(xs[1..]) else NotNull(xs[1..])
  }

  /** The searchable identifiers, in the order the source lists them. */
  function SearchableNames(m: AppMetadata): seq<Option<string>> {
    [m.name, m.username, m.displayName, m.nip05, m.lud06, m.lud16]
  }

  /** `any { it.contains(p, ignoreCase = true) }`. */
  function AnyContains(names: seq<string>, p: string): (r: bool)
    ensures r <==> exists i :: 0 <= i < |names| && ContainsIgnoreCase(names[i], p)
  {
    if |names| == 0 then false
    else if ContainsIgnoreCase(names[0], p) then true
    else
      assert forall i :: 1 <= i < |names| ==> names[i] == names[1..][i - 1];
      AnyContains(names[1..], p)
  }

  /** `anyNameStartsWith(p)`: despite its name, a case-insensitive substring test. */
  function AnyNameStartsWith(m: AppMetadata, p: string): (r: bool)
    ensures r <==> exists s :: Some(s) in SearchableNames(m) && ContainsIgnoreCase(s, p)
  {
    var names := NotNull(SearchableNames(m));
    assert forall s :: s in names <==> Some(s) in SearchableNames(m);
    AnyContains(names, p)
  }

  /** `anyNameStartsWith(p)` field by field: it holds exactly when one of the
      six identifiers is present and contains `p`, ignoring case. */
  lemma AnyNameStartsWithFields(m: AppMetadata, p: string)
    ensures AnyNameStartsWith(m, p) <==>
      || (m.name.Some? && ContainsIgnoreCase(m.name.value, p))
      || (m.username.Some? && ContainsIgnoreCase(m.username.value, p))
      || (m.displayName.Some? && ContainsIgnoreCase(m.displayName.value, p))
      || (m.nip05.Some? && ContainsIgnoreCase(m.nip05.value, p))
      || (m.lud06.Some? && ContainsIgnoreCase(m.lud06.value, p))
      || (m.lud16.Some? && ContainsIgnoreCase(m.lud16.value, p))
  {
    var ns := SearchableNames(m);
    if AnyNameStartsWith(m, p) {
      var s :| Some(s) in ns && ContainsIgnoreCase(s, p);
    } else {
      if m.name.Some? { assert Some(m.name.value) in ns; }
      if m.username.Some? { assert Some(m.username.value) in ns; }
      if m.displayName.Some? { assert Some(m.displayName.value) in ns; }
      if m.nip05.Some? { assert Some(m.nip05.value) in ns; }
      if m.lud06.Some? { assert Some(m.lud06.value) in ns; }
      if m.lud16.Some? { assert Some(m.lud16.value) in ns; }
    }
  }

  /** A name that only contains the searched text in its middle still matches. */
  lemma AnyNameStartsWithIsSubstringTest(m: AppMetadata)
    requires m.name == Some("Amethyst") && m.username.None? && m.displayName.None?
    requires m.nip05.None? && m.lud06.None? && m.lud16.None?
    ensures AnyNameStartsWith(m, "THY")
    ensures !StartsWith("Amethyst", "THY") && !StartsWith("Amethyst", "thy")
  {
    var s := "Amethyst";
    assert s[3] == 't' && s[4] == 'h' && s[5] == 'y';
    assert MatchesAtIgnoreCase(s, "THY", 3);
    ContainsIgnoreCaseMeaning(s, "THY");
    assert Some(s) in SearchableNames(m);
    assert s[..3] != "THY" && s[..3] != "thy" by { assert s[0] == 'A'; }
  }

  /** One field's treatment in `cleanBlankNames`: trim a non-empty value, then
      drop a blank one. */
  function CleanField(f: Option<string>): (r: Option<string>)
    ensures r == if f.Some? && !IsBlank(f.value) then Some(Trim(f.value)) else None
    ensures IsClean(r)
  {
    var trimmed := if f.Some? && |f.value| > 0 then Some(Trim(f.value)) else f;
    if trimmed.Some? && IsBlank(trimmed.value) then None else trimmed
  }

  /** A cleaned field is absent, or present, non-blank and already trimmed. */
  predicate IsClean(f: Option<string>) {
    f.None? || (!IsBlank(f.value) && Trim(f.value) == f.value)
  }

  /** `cleanBlankNames()`. */
  function CleanBlankNames(m: AppMetadata): (r: AppMetadata)
    ensures IsClean(r.picture) && IsClean(r.nip05) && IsClean(r.displayName)
    ensures IsClean(r.name) && IsClean(r.username) && IsClean(r.lud06) && IsClean(r.lud16)
    ensures IsClean(r.website) && IsClean(r.domain)
    ensures r.about == m.about && r.banner == m.banner && r.image == m.image
    ensures r.twitter == m.twitter && r.amount == m.amount
    ensures r.subscription == m.subscription && r.cashuAccepted == m.cashuAccepted
    ensures r.encryptionSupported == m.encryptionSupported && r.personalized == m.personalized
    ensures r.picture == CleanField(m.picture) && r.nip05 == CleanField(m.nip05)
    ensures r.displayName == CleanField(m.displayName) && r.name == CleanField(m.name)
    ensures r.username == CleanField(m.username) && r.lud06 == CleanField(m.lud06)
    ensures r.lud16 == CleanField(m.lud16) && r.website == CleanField(m.website)
    ensures r.domain == CleanField(m.domain)
  {
    m.(picture := CleanField(m.picture), nip05 := CleanField(m.nip05),
       displayName := CleanField(m.displayName), name := CleanField(m.name),
       username := CleanField(m.username), lud06 := CleanField(m.lud06),
       lud16 := CleanField(m.lud16), website := CleanField(m.website),
       domain := CleanField(m.domain))
  }

  /** Cleaning a clean field changes nothing. */
  lemma CleanFieldOfClean(f: Option<string>)
    requires IsClean(f)
    ensures CleanField(f) == f
  {
  }

  /** `cleanBlankNames` is idempotent. */
  lemma CleanBlankNamesIdempotent(m: AppMetadata)
    ensures CleanBlankNames(CleanBlankNames(m)) == CleanBlankNames(m)
  {
    var c := CleanBlankNames(m);
    CleanFieldOfClean(c.picture);
    CleanFieldOfClean(c.nip05);
    CleanFieldOfClean(c.displayName);
    CleanFieldOfClean(c.name);
    CleanFieldOfClean(c.username);
    CleanFieldOfClean(c.lud06);
    CleanFieldOfClean(c.lud16);
    CleanFieldOfClean(c.website);
    CleanFieldOfClean(c.domain);
  }

  /** `mapNotNull { runCatching { it.toInt() }.getOrNull() }`. */
  function ParseInts(vs: seq<string>): (r: seq<int>)
    ensures |r| <= |vs|
  {
    if |vs| == 0 then []
    else
      assert vs == [vs[0]] + vs[1..];
      IntOf(vs[0]) + ParseInts(vs[1..])
  }

  /** One value's contribution: its integer, or nothing when it does not parse. */
  function IntOf(v: string): (r: seq<int>)
    ensures forall n :: n in r <==> ToIntOrNull(v) == Some(n)
  {
    match ToIntOrNull(v)
    case Some(n) => [n]
    case None => []
  }

  /** An integer is parsed exactly when some value parses to it. */
  lemma {:induction false} ParseIntsMembers(vs: seq<string>)
    ensures forall n :: n in ParseInts(vs) <==> exists v :: v in vs && ToIntOrNull(v) == Some(n)
  {
    if |vs| > 0 {
      assert vs == [vs[0]] + vs[1..];
      ParseIntsMembers(vs[1..]);
    }
  }

  /** Parsing keeps the order of the values. */
  lemma {:induction false} ParseIntsAppend(a: seq<string>, b: seq<string>)
    ensures ParseInts(a + b) == ParseInts(a) + ParseInts(b)
  {
    if |a| > 0 {
      assert (a + b)[0] == a[0];
      assert (a + b)[1..] == a[1..] + b;
      ParseIntsAppend(a[1..], b);
      assert ParseInts(a + b) == IntOf(a[0]) + ParseInts(a[1..] + b);
    } else {
      assert a + b == b;
    }
  }

  /** `supportedKinds()`: the integer value of every "k" tag, skipping values that do not parse. */
  function SupportedKinds(tags: Tags): (r: seq<int>)
    ensures |r| <= |Values(tags, "k")|
    ensures forall n :: n in r <==> exists v :: v in Values(tags, "k") && ToIntOrNull(v) == Some(n)
  {
    ParseIntsMembers(Values(tags, "k"));
    ParseInts(Values(tags, "k"))
  }

  /** `includeKind(kind)`: some "k" tag holds exactly this text. */
  predicate IncludeKind(tags: Tags, kind: string)
    ensures IncludeKind(tags, kind) <==> kind in Values(tags, "k")
  {
    ValuesMembers(tags, "k");
    exists i :: 0 <= i < |tags| && Named(tags[i], "k") && tags[i][1] == kind
  }

  /** A kind the event includes, and that parses, is among its supported kinds. */
  lemma IncludedKindIsSupported(tags: Tags, kind: string, n: int)
    requires IncludeKind(tags, kind) && ToIntOrNull(kind) == Some(n)
    ensures n in SupportedKinds(tags)
  {
    var i :| 0 <= i < |tags| && Named(tags[i], "k") && tags[i][1] == kind;
    ValuesMembers(tags, "k");
  }

  /** `publishedAt()`: the value of the first "published_at" tag. */
  function PublishedAt(tags: Tags): (r: Option<string>)
    ensures r == if Values(tags, "published_at") == [] then None else Some(Values(tags, "published_at")[0])
  {
    FirstValueIsHeadOfValues(tags, "published_at");
    FirstValue(tags, "published_at")
  }

  /** The text of the "alt" tag; Kotlin renders a missing name as "null". */
  function AltText(detailsName: Option<string>): string {
    "App definition event for " + detailsName.GetOr("null")
  }

  /** `AppDefinitionEvent.create`: what is handed to the signer. */
  function Create(detailsName: Option<string>, createdAt: int): (r: Template)
    ensures r.kind == Kind && r.content == "" && r.createdAt == createdAt
    ensures FirstValue(r.tags, "alt") == Some(AltText(detailsName))
    ensures SupportedKinds(r.tags) == [] && PublishedAt(r.tags).None?
  {
    Template(createdAt, Kind, [["alt", AltText(detailsName)]], "")
  }
}
