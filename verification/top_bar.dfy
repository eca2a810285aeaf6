/** The follow-list spinner of the main top bars and the choice of top bar
    per route (`AppTopBar`, `FollowList`, `FollowListViewModel`). String
    resources, the local cache and the account are inputs: a resource name
    carries its resolved text, and the cache and the account's followed
    sets arrive as sequences in iteration order. */
module TopBar {
  import opened Optional
  import opened KotlinText
  import opened KotlinLists

  /** The `Name` subclasses. A resource name holds the resolved string; the
      people-list and community names hold their note's `dTag()`. */
  datatype Name =
    | GeoHashName(geoHashTag: string)
    | HashtagName(hashTag: string)
    | ResourceName(text: string)
    | PeopleListName(listDTag: Option<string>)
    | CommunityName(communityDTag: Option<string>)

  /** `name()`: every form can be read back from the displayed text. */
  function NameOf(n: Name): (r: string)
    ensures n.GeoHashName? ==> |r| >= 3 && r[..3] == "/g/" && r[3..] == n.geoHashTag
    ensures n.HashtagName? ==> |r| >= 1 && r[0] == '#' && r[1..] == n.hashTag
    ensures n.ResourceName? ==> r == n.text
    ensures n.PeopleListName? ==> r == n.listDTag.GetOr("")
    ensures n.CommunityName? ==> |r| >= 3 && r[..3] == "/n/" && r[3..] == n.communityDTag.GetOr("")
  {
    match n
    case GeoHashName(t) => "/g/" + t
    case HashtagName(t) => "#" + t
    case ResourceName(text) => text
    case PeopleListName(d) => d.GetOr("")
    case CommunityName(d) => "/n/" + d.GetOr("")
  }

  /** The routes a user follows by geohash, hashtag or community. */
  predicate IsRouteName(n: Name) {
    n.GeoHashName? || n.HashtagName? || n.CommunityName?
  }

  /** Two geohash or hashtag names look the same exactly when they are the
      same, and a community name never looks like either. */
  lemma RouteNamesDistinct(a: Name, b: Name)
    requires IsRouteName(a) && IsRouteName(b)
    ensures !a.CommunityName? && !b.CommunityName? ==> (NameOf(a) == NameOf(b) <==> a == b)
    ensures a.CommunityName? && !b.CommunityName? ==> NameOf(a) != NameOf(b)
  {
  }

  /** `CodeNameType`. */
  datatype CodeNameType = Hardcoded | PeopleList | Route

  /** `CodeName(code, name, type)`. */
  datatype CodeName = CodeName(code: string, name: Name, nameType: CodeNameType)

  /** The fixed options: kind-3 follows and global, named by string resources. */
  function HardcodedOption(code: string, text: string): (r: CodeName)
    ensures r.nameType == Hardcoded && NameOf(r.name) == text && r.code == code
  {
    CodeName(code, ResourceName(text), Hardcoded)
  }

  /** The options of the spinner: kind-3 follows, global when asked for, the
      people lists, and the routes only when asked for, in that order. */
  function Options(kind3: CodeName, global: CodeName, peopleLists: seq<CodeName>, routes: seq<CodeName>,
                   withGlobal: bool, withRoutes: bool): (r: seq<CodeName>)
    ensures |r| == (if withGlobal then 2 else 1) + |peopleLists| + (if withRoutes then |routes| else 0)
    ensures r[0] == kind3
    ensures withGlobal ==> r[1] == global
    ensures r[(if withGlobal then 2 else 1)..][..|peopleLists|] == peopleLists
    ensures withRoutes ==> r[(if withGlobal then 2 else 1) + |peopleLists|..] == routes
    ensures forall c :: c in r <==>
      c == kind3 || (withGlobal && c == global) || c in peopleLists || (withRoutes && c in routes)
  {
    var defaults := if withGlobal then [kind3, global] else [kind3];
    var r := defaults + peopleLists + (if withRoutes then routes else []);
    assert r[|defaults|..] == peopleLists + (if withRoutes then routes else []);
    r
  }

  /** `i` is the first option with the code. */
  predicate FirstCodeAt(options: seq<CodeName>, code: string, i: int) {
    0 <= i < |options| && options[i].code == code &&
    forall k :: 0 <= k < i ==> options[k].code != code
  }

  /** `firstOrNull { it.code == code }`. */
  function FirstWithCode(options: seq<CodeName>, code: string): (r: Option<CodeName>)
    ensures r.None? <==> forall i :: 0 <= i < |options| ==> options[i].code != code
    ensures forall i :: FirstCodeAt(options, code, i) ==> r == Some(options[i])
  {
    if |options| == 0 then None
    else if options[0].code == code then Some(options[0])
    else
      var r := FirstWithCode(options[1..], code);
      assert forall i :: 1 <= i < |options| ==> options[i] == options[1..][i - 1];
      assert forall i :: FirstCodeAt(options, code, i) ==> i >= 1 && FirstCodeAt(options[1..], code, i - 1);
      r
  }

  const SelectAnOption: string := "Select an Option"

  /** The spinner's placeholder: the name of the first option with the current
      list's code, or "Select an Option" when none has it. */
  function Placeholder(options: seq<CodeName>, listName: string): (r: string)
    ensures forall i :: FirstCodeAt(options, listName, i) ==> r == NameOf(options[i].name)
    ensures (forall i :: 0 <= i < |options| ==> options[i].code != listName) ==> r == SelectAnOption
  {
    match FirstWithCode(options, listName)
    case Some(c) => NameOf(c.name)
    case None => SelectAnOption
  }

  /** With kind-3 follows as the current list, the placeholder is its name. */
  lemma PlaceholderOfKind3(kind3: CodeName, global: CodeName, peopleLists: seq<CodeName>, routes: seq<CodeName>,
                           withGlobal: bool, withRoutes: bool)
    ensures Placeholder(Options(kind3, global, peopleLists, routes, withGlobal, withRoutes), kind3.code) == NameOf(kind3.name)
  {
    assert FirstCodeAt(Options(kind3, global, peopleLists, routes, withGlobal, withRoutes), kind3.code, 0);
  }

  /** `onSelect(index)`: the option at the index, kind-3 follows outside the list. */
  function Select(options: seq<CodeName>, kind3: CodeName, index: int): (r: CodeName)
    ensures 0 <= index < |options| ==> r == options[index]
    ensures !(0 <= index < |options|) ==> r == kind3
  {
    if 0 <= index < |options| then options[index] else kind3
  }

  /** What choosing an option in the home bar does. */
  datatype HomeAction = Navigate(route: string) | ChangeHomeList(listCode: string)

  /** The home bar's `onChange`: a route option is navigated to; any other
      option becomes the home follow list. */
  function HomeSelect(c: CodeName): (r: HomeAction)
    ensures r.Navigate? <==> c.nameType == Route
    ensures r.Navigate? ==> r.route == c.code
    ensures r.ChangeHomeList? ==> r.listCode == c.code
  {
    if c.nameType == Route then Navigate(c.code) else ChangeHomeList(c.code)
  }

  /** In the home bar (global and routes shown), a selection navigates exactly
      when its index falls among the routes at the end of the list. */
  lemma HomeSelectNavigatesOnRoutes(kind3code: string, kind3text: string, globalCode: string, globalText: string,
                                    peopleLists: seq<CodeName>, routes: seq<CodeName>, index: int)
    requires forall c :: c in peopleLists ==> c.nameType == PeopleList
    requires forall c :: c in routes ==> c.nameType == Route
    ensures var kind3 := HardcodedOption(kind3code, kind3text);
      var options := Options(kind3, HardcodedOption(globalCode, globalText), peopleLists, routes, true, true);
      HomeSelect(Select(options, kind3, index)).Navigate? <==> 2 + |peopleLists| <= index < |options|
  {
    var kind3 := HardcodedOption(kind3code, kind3text);
    var options := Options(kind3, HardcodedOption(globalCode, globalText), peopleLists, routes, true, true);
    if 0 <= index < |options| {
      if 2 <= index < 2 + |peopleLists| {
        assert options[index] == options[2..][..|peopleLists|][index - 2];
        assert options[index] in peopleLists;
      } else if 2 + |peopleLists| <= index {
        assert options[index] == options[2 + |peopleLists|..][index - 2 - |peopleLists|];
        assert options[index] in routes;
      }
    }
  }

  /** The order `sortedBy { it.name.name() }` sorts by. */
  function ByName(): (CodeName, CodeName) -> bool {
    (a: CodeName, b: CodeName) => LexLe(NameOf(a.name), NameOf(b.name))
  }

  lemma ByNameTotalPreorder()
    ensures TotalPreorder(ByName())
  {
    forall a: CodeName, b: CodeName ensures ByName()(a, b) || ByName()(b, a) {
      LexLeTotal(NameOf(a.name), NameOf(b.name));
    }
    forall a: CodeName, b: CodeName, c: CodeName | ByName()(a, b) && ByName()(b, c) ensures ByName()(a, c) {
      LexLeTransitive(NameOf(a.name), NameOf(b.name), NameOf(c.name));
    }
  }

  /** A kind-30000 people list as the cache holds it. */
  datatype PeopleListEvent = PeopleListEvent(pubKey: string, tags: seq<seq<string>>, content: string, addressTag: string)

  /** An addressable note of the cache: its event when that is a people list,
      and its `dTag()`. */
  datatype Addressable = Addressable(peopleList: Option<PeopleListEvent>, dTag: Option<string>)

  /** A people list offered in the spinner: the user's own, with more than one
      tag or more than 50 characters of content. */
  predicate Offered(a: Addressable, user: string) {
    a.peopleList.Some? && a.peopleList.value.pubKey == user &&
    (|a.peopleList.value.tags| > 1 || |a.peopleList.value.content| > 50)
  }

  /** The option of an offered people list. */
  function PeopleListOption(a: Addressable): (r: CodeName)
    requires a.peopleList.Some?
    ensures r.nameType == PeopleList && r.code == a.peopleList.value.addressTag
    ensures NameOf(r.name) == a.dTag.GetOr("")
  {
    CodeName(a.peopleList.value.addressTag, PeopleListName(a.dTag), PeopleList)
  }

  /** The `mapNotNull` over the cache's addressable notes. */
  function OfferedLists(notes: seq<Addressable>, user: string): (r: seq<CodeName>)
    ensures |r| <= |notes|
  {
    if |notes| == 0 then []
    else (if Offered(notes[0], user) then [PeopleListOption(notes[0])] else []) + OfferedLists(notes[1..], user)
  }

  /** An option is offered exactly when it comes from one of the user's lists
      that passes the size test. */
  lemma {:induction false} OfferedListsMembers(notes: seq<Addressable>, user: string)
    ensures forall c :: c in OfferedLists(notes, user) <==>
      exists i :: 0 <= i < |notes| && Offered(notes[i], user) && c == PeopleListOption(notes[i])
  {
    if |notes| > 0 {
      OfferedListsMembers(notes[1..], user);
      assert forall i :: 1 <= i < |notes| ==> notes[i] == notes[1..][i - 1];
      forall c | exists i :: 0 <= i < |notes| && Offered(notes[i], user) && c == PeopleListOption(notes[i])
        ensures c in OfferedLists(notes, user)
      {
        var i :| 0 <= i < |notes| && Offered(notes[i], user) && c == PeopleListOption(notes[i]);
        if i > 0 {
          assert notes[1..][i - 1] == notes[i];
        }
      }
    }
  }

  /** `refreshFollows`' people lists: the offered ones sorted by name. */
  function PeopleLists(notes: seq<Addressable>, user: string): (r: seq<CodeName>)
    ensures multiset(r) == multiset(OfferedLists(notes, user))
    ensures Ascending(r, ByName())
  {
    ByNameTotalPreorder();
    SortAscending(OfferedLists(notes, user), ByName())
  }

  /** The people lists shown are exactly the offered ones, each a people-list option. */
  lemma PeopleListsMembers(notes: seq<Addressable>, user: string)
    ensures forall c :: c in PeopleLists(notes, user) <==>
      exists i :: 0 <= i < |notes| && Offered(notes[i], user) && c == PeopleListOption(notes[i])
    ensures forall c :: c in PeopleLists(notes, user) ==> c.nameType == PeopleList
  {
    OfferedListsMembers(notes, user);
    PermutationMembers(PeopleLists(notes, user), OfferedLists(notes, user));
  }

  /** A followed community's note, when the cache can produce it. */
  datatype CommunityNote = CommunityNote(idHex: string, dTag: Option<string>)

  function CommunityOption(n: CommunityNote): (r: CodeName)
    ensures r.nameType == Route && r.code == "Community/" + n.idHex
  {
    CodeName("Community/" + n.idHex, CommunityName(n.dTag), Route)
  }

  function HashtagOption(tag: string): (r: CodeName)
    ensures r.nameType == Route && r.code == "Hashtag/" + tag && NameOf(r.name) == "#" + tag
  {
    CodeName("Hashtag/" + tag, HashtagName(tag), Route)
  }

  function GeohashOption(tag: string): (r: CodeName)
    ensures r.nameType == Route && r.code == "Geohash/" + tag && NameOf(r.name) == "/g/" + tag
  {
    CodeName("Geohash/" + tag, GeoHashName(tag), Route)
  }

  /** The communities `mapNotNull`: notes the cache could not produce are skipped. */
  function CommunityOptions(found: seq<Option<CommunityNote>>): (r: seq<CodeName>)
    ensures |r| <= |found|
  {
    if |found| == 0 then []
    else (match found[0] case Some(n) => [CommunityOption(n)] case None => []) + CommunityOptions(found[1..])
  }

  lemma {:induction false} CommunityOptionsMembers(found: seq<Option<CommunityNote>>)
    ensures forall c :: c in CommunityOptions(found) <==> exists n :: Some(n) in found && c == CommunityOption(n)
  {
    if |found| > 0 {
      CommunityOptionsMembers(found[1..]);
      assert forall x :: x in found <==> x == found[0] || x in found[1..];
    }
  }

  function HashtagOptions(tags: seq<string>): (r: seq<CodeName>)
    ensures |r| == |tags| && forall i :: 0 <= i < |tags| ==> r[i] == HashtagOption(tags[i])
  {
    if |tags| == 0 then [] else [HashtagOption(tags[0])] + HashtagOptions(tags[1..])
  }

  function GeohashOptions(tags: seq<string>): (r: seq<CodeName>)
    ensures |r| == |tags| && forall i :: 0 <= i < |tags| ==> r[i] == GeohashOption(tags[i])
  {
    if |tags| == 0 then [] else [GeohashOption(tags[0])] + GeohashOptions(tags[1..])
  }

  /** `refreshFollows`' routes: communities, hashtags and geohashes merged and
      sorted by displayed name. */
  function Routes(communities: seq<Option<CommunityNote>>, hashtags: seq<string>, geohashes: seq<string>): (r: seq<CodeName>)
    ensures multiset(r) == multiset(CommunityOptions(communities) + HashtagOptions(hashtags) + GeohashOptions(geohashes))
    ensures Ascending(r, ByName())
  {
    ByNameTotalPreorder();
    SortAscending(CommunityOptions(communities) + HashtagOptions(hashtags) + GeohashOptions(geohashes), ByName())
  }

  lemma HashtagOptionsMembers(tags: seq<string>)
    ensures forall c :: c in HashtagOptions(tags) <==> exists t :: t in tags && c == HashtagOption(t)
  {
    forall c ensures c in HashtagOptions(tags) <==> exists t :: t in tags && c == HashtagOption(t) {
      if c in HashtagOptions(tags) {
        var i :| 0 <= i < |tags| && HashtagOptions(tags)[i] == c;
        assert tags[i] in tags;
      }
      if exists t :: t in tags && c == HashtagOption(t) {
        var t :| t in tags && c == HashtagOption(t);
        var i :| 0 <= i < |tags| && tags[i] == t;
        assert HashtagOptions(tags)[i] == c;
      }
    }
  }

  lemma GeohashOptionsMembers(tags: seq<string>)
    ensures forall c :: c in GeohashOptions(tags) <==> exists t :: t in tags && c == GeohashOption(t)
  {
    forall c ensures c in GeohashOptions(tags) <==> exists t :: t in tags && c == GeohashOption(t) {
      if c in GeohashOptions(tags) {
        var i :| 0 <= i < |tags| && GeohashOptions(tags)[i] == c;
        assert tags[i] in tags;
      }
      if exists t :: t in tags && c == GeohashOption(t) {
        var t :| t in tags && c == GeohashOption(t);
        var i :| 0 <= i < |tags| && tags[i] == t;
        assert GeohashOptions(tags)[i] == c;
      }
    }
  }

  /** Every followed hashtag and geohash, and every community the cache
      produced, has its route option, and nothing else is among the routes. */
  lemma RoutesMembers(communities: seq<Option<CommunityNote>>, hashtags: seq<string>, geohashes: seq<string>)
    ensures forall c :: c in Routes(communities, hashtags, geohashes) <==>
      || (exists n :: Some(n) in communities && c == CommunityOption(n))
      || (exists t :: t in hashtags && c == HashtagOption(t))
      || (exists t :: t in geohashes && c == GeohashOption(t))
  {
    var all := CommunityOptions(communities) + HashtagOptions(hashtags) + GeohashOptions(geohashes);
    CommunityOptionsMembers(communities);
    HashtagOptionsMembers(hashtags);
    GeohashOptionsMembers(geohashes);
    var r := Routes(communities, hashtags, geohashes);
    PermutationMembers(r, all);
    forall c ensures c in r <==>
      || (exists n :: Some(n) in communities && c == CommunityOption(n))
      || (exists t :: t in hashtags && c == HashtagOption(t))
      || (exists t :: t in geohashes && c == GeohashOption(t))
    {
      assert c in all <==>
        c in CommunityOptions(communities) || c in HashtagOptions(hashtags) || c in GeohashOptions(geohashes);
    }
  }

  /** Every option among the routes is of route type. */
  lemma RoutesAreRoutes(communities: seq<Option<CommunityNote>>, hashtags: seq<string>, geohashes: seq<string>)
    ensures forall c :: c in Routes(communities, hashtags, geohashes) ==> c.nameType == Route
  {
    var all := CommunityOptions(communities) + HashtagOptions(hashtags) + GeohashOptions(geohashes);
    CommunityOptionsMembers(communities);
    HashtagOptionsMembers(hashtags);
    GeohashOptionsMembers(geohashes);
    var r := Routes(communities, hashtags, geohashes);
    PermutationMembers(r, all);
    forall c | c in r ensures c.nameType == Route {
      assert c in all;
    }
  }

  /** `destination.route.substringBefore("?")`: the route without its arguments. */
  function CurrentRoute(destination: Option<string>): (r: Option<string>)
    ensures r.None? <==> destination.None?
    ensures r.Some? ==> StartsWith(destination.value, r.value) && '?' !in r.value
    ensures r.Some? && |r.value| < |destination.value| ==> destination.value[|r.value|] == '?'
  {
    match destination
    case None => None
    case Some(d) => Some(SubstringBefore(d, '?'))
  }

  /** The app's routes that have a top bar of their own. */
  datatype RouteBase =
    | HomeRoute | VideoRoute | DiscoverRoute | NotificationRoute | SettingsRoute
    | ChannelRoute | RoomByAuthorRoute | RoomRoute | CommunityRoute | HashtagRoute | GeohashRoute

  /** The top bars. */
  datatype Bar =
    | HomeBar | StoriesBar | DiscoveryBar | NotificationBar | SettingsBar
    | ChannelBar(channelId: string) | RoomByAuthorBar(authorId: string) | RoomBar(roomId: string)
    | CommunityBar(communityId: string) | HashTagBar(hashtag: string) | GeoHashBar(geohash: string)
    | MainBar

  /** The bars that need no id. */
  predicate WithoutId(b: Bar) {
    b.HomeBar? || b.StoriesBar? || b.DiscoveryBar? || b.NotificationBar? || b.SettingsBar? || b.MainBar?
  }

  /** The routes of the outer `when`, in the order they are compared. */
  const MainRoutes: seq<RouteBase> := [HomeRoute, VideoRoute, DiscoverRoute, NotificationRoute, SettingsRoute]

  /** The routes of the inner `when`, which show an item, in order. */
  const ItemRoutes: seq<RouteBase> := [ChannelRoute, RoomByAuthorRoute, RoomRoute, CommunityRoute, HashtagRoute, GeohashRoute]

  /** A `when` over route texts: the first of `routes` whose `base` text is `text`. */
  function FirstWithBase(routes: seq<RouteBase>, text: string, base: RouteBase -> string): (r: Option<RouteBase>)
    ensures r.None? <==> forall i :: 0 <= i < |routes| ==> base(routes[i]) != text
    ensures r.Some? ==> r.value in routes && base(r.value) == text
  {
    if |routes| == 0 then None
    else if base(routes[0]) == text then Some(routes[0])
    else
      var r := FirstWithBase(routes[1..], text, base);
      assert forall i :: 1 <= i < |routes| ==> routes[i] == routes[1..][i - 1];
      r
  }

  /** The bar of one of the main routes. */
  function MainBarOf(route: RouteBase): (r: Bar)
    ensures WithoutId(r)
  {
    match route
    case HomeRoute => HomeBar
    case VideoRoute => StoriesBar
    case DiscoverRoute => DiscoveryBar
    case NotificationRoute => NotificationBar
    case SettingsRoute => SettingsBar
    case _ => MainBar
  }

  /** The bar of a route that shows the item `id`. */
  function ItemBarOf(route: RouteBase, id: string): (r: Bar)
  {
    match route
    case ChannelRoute => ChannelBar(id)
    case RoomByAuthorRoute => RoomByAuthorBar(id)
    case RoomRoute => RoomBar(id)
    case CommunityRoute => CommunityBar(id)
    case HashtagRoute => HashTagBar(id)
    case GeohashRoute => GeoHashBar(id)
    case _ => MainBar
  }

  /** `RenderTopRouteBar`: the route is compared with each main route's
      `base` text (`base` maps a route to it) in turn; failing those, a
      present id selects among the routes that show an item, and anything
      else, a missing route included, gets the main bar. */
  function TopRouteBar(currentRoute: Option<string>, id: Option<string>, base: RouteBase -> string): (r: Bar)
    ensures id.None? ==> WithoutId(r)
    ensures !WithoutId(r) ==> id.Some? && r == (match r
      case ChannelBar(_) => ChannelBar(id.value)
      case RoomByAuthorBar(_) => RoomByAuthorBar(id.value)
      case RoomBar(_) => RoomBar(id.value)
      case CommunityBar(_) => CommunityBar(id.value)
      case HashTagBar(_) => HashTagBar(id.value)
      case _ => GeoHashBar(id.value))
    ensures currentRoute.None? ==> r == MainBar
  {
    match currentRoute
    case None => MainBar
    case Some(text) =>
      match FirstWithBase(MainRoutes, text, base)
      case Some(route) => MainBarOf(route)
      case None =>
        if id.None? then MainBar
        else
          match FirstWithBase(ItemRoutes, text, base)
          case Some(route) => ItemBarOf(route, id.value)
          case None => MainBar
  }

  /** The bar each route is meant to have. */
  function IntendedBar(route: RouteBase, id: Option<string>): Bar {
    match route
    case HomeRoute => HomeBar
    case VideoRoute => StoriesBar
    case DiscoverRoute => DiscoveryBar
    case NotificationRoute => NotificationBar
    case SettingsRoute => SettingsBar
    case ChannelRoute => if id.Some? then ChannelBar(id.value) else MainBar
    case RoomByAuthorRoute => if id.Some? then RoomByAuthorBar(id.value) else MainBar
    case RoomRoute => if id.Some? then RoomBar(id.value) else MainBar
    case CommunityRoute => if id.Some? then CommunityBar(id.value) else MainBar
    case HashtagRoute => if id.Some? then HashTagBar(id.value) else MainBar
    case GeohashRoute => if id.Some? then GeoHashBar(id.value) else MainBar
  }

  /** The route read from a destination is the route's text, whatever
      arguments follow the "?". */
  lemma {:induction false} CurrentRouteOfDestination(text: string, arguments: string)
    requires '?' !in text
    ensures CurrentRoute(Some(text + "?" + arguments)) == Some(text)
  {
    var d := text + "?" + arguments;
    var cut := SubstringBefore(d, '?');
    assert d[|text|] == '?';
    assert d[..|text|] == text;
    if |cut| < |text| {
      assert false;
    } else if |cut| > |text| {
      assert false;
    }
    assert cut == d[..|cut|] == text;
  }

  /** With distinct route texts, a `when` over `routes` picks a route by its
      own text exactly when the route is among them. */
  lemma FirstWithOwnBase(routes: seq<RouteBase>, route: RouteBase, base: RouteBase -> string)
    requires forall a, b :: a != b ==> base(a) != base(b)
    ensures route in routes ==> FirstWithBase(routes, base(route), base) == Some(route)
    ensures route !in routes ==> FirstWithBase(routes, base(route), base).None?
  {
    var r := FirstWithBase(routes, base(route), base);
    if route in routes {
      var i :| 0 <= i < |routes| && routes[i] == route;
      assert base(routes[i]) == base(route);
    }
  }

  /** A text the outer `when` matches to a main route gets that route's bar. */
  lemma TopRouteBarOfMainRoute(route: RouteBase, text: string, id: Option<string>, base: RouteBase -> string)
    requires FirstWithBase(MainRoutes, text, base) == Some(route)
    ensures TopRouteBar(Some(text), id, base) == MainBarOf(route)
  {
  }

  /** A text only the inner `when` matches gets that route's bar when there
      is an id, and the main bar otherwise. */
  lemma TopRouteBarOfItemRoute(route: RouteBase, text: string, id: Option<string>, base: RouteBase -> string)
    requires FirstWithBase(MainRoutes, text, base).None?
    requires FirstWithBase(ItemRoutes, text, base) == Some(route)
    ensures id.Some? ==> TopRouteBar(Some(text), id, base) == ItemBarOf(route, id.value)
    ensures id.None? ==> TopRouteBar(Some(text), id, base) == MainBar
  {
  }

  /** The intended bars are the main routes' bars and, given an id, the
      item routes' bars. */
  lemma IntendedBarParts(route: RouteBase, id: Option<string>)
    ensures route in MainRoutes ==> IntendedBar(route, id) == MainBarOf(route)
    ensures route !in MainRoutes ==> route in ItemRoutes
    ensures route in ItemRoutes && id.Some? ==> IntendedBar(route, id) == ItemBarOf(route, id.value)
    ensures route in ItemRoutes && id.None? ==> IntendedBar(route, id) == MainBar
  {
  }

  /** With distinct route texts, a route's own text selects its bar. */
  lemma TopRouteBarOfBase(route: RouteBase, id: Option<string>, base: RouteBase -> string)
    requires forall a, b :: a != b ==> base(a) != base(b)
    ensures TopRouteBar(Some(base(route)), id, base) == IntendedBar(route, id)
  {
    FirstWithOwnBase(MainRoutes, route, base);
    FirstWithOwnBase(ItemRoutes, route, base);
    IntendedBarParts(route, id);
    if route in MainRoutes {
      TopRouteBarOfMainRoute(route, base(route), id, base);
    } else {
      TopRouteBarOfItemRoute(route, base(route), id, base);
    }
  }

  /** With distinct route texts, every route gets its own bar, whatever
      arguments follow the "?" of the destination. */
  lemma TopRouteBarOfRoute(route: RouteBase, arguments: string, id: Option<string>, base: RouteBase -> string)
    requires forall a, b :: a != b ==> base(a) != base(b)
    requires '?' !in base(route)
    ensures TopRouteBar(CurrentRoute(Some(base(route) + "?" + arguments)), id, base) == IntendedBar(route, id)
  {
    CurrentRouteOfDestination(base(route), arguments);
    TopRouteBarOfBase(route, id, base);
  }
}
