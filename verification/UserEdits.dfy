/** internal/state's Runtime with its user index, and the user edits of internal/node on top of it. */
module UserEdits {
  import opened Common
  import opened StatName
  import opened CoreConfig

  datatype CoreType = NoCore | SingBox

  class Runtime {
    var config: Object
    var running: CoreType
    var inboundUsers: map<string, seq<InboundUser>>
    var inboundKinds: map<string, string>

    /** The index is the extraction of the stored configuration while the core runs, and empty otherwise. */
    ghost predicate Valid() reads this {
      if running == SingBox then Indexes(inboundUsers, Entries(Inbounds(config)))
          && inboundKinds == Kinds(Inbounds(config))
      else inboundUsers == map[] && inboundKinds == map[]
    }

    constructor ()
      ensures Valid() && config == map[] && running == NoCore
    {
      config, running, inboundUsers, inboundKinds := map[], NoCore, map[], map[];
    }

    method Reindex()
      modifies this`inboundUsers, this`inboundKinds
      ensures Indexes(inboundUsers, Entries(Inbounds(config))) && inboundKinds == Kinds(Inbounds(config))
    {
      inboundUsers, inboundKinds := ExtractSingBoxInbounds(config);
    }

    method SetSingBoxConfig(c: Object)
      requires Valid()
      modifies this`config, this`inboundUsers, this`inboundKinds
      ensures Valid() && config == c
    {
      config := c;
      if running == SingBox {
        Reindex();
      }
    }

    method SetRunningCore(core: CoreType)
      modifies this`running, this`inboundUsers, this`inboundKinds
      ensures Valid() && running == core
    {
      running := core;
      if core == SingBox {
        Reindex();
      } else {
        inboundUsers, inboundKinds := map[], map[];
      }
    }

    method Reset()
      modifies this`running, this`inboundUsers, this`inboundKinds
      ensures Valid() && running == NoCore
    {
      running, inboundUsers, inboundKinds := NoCore, map[], map[];
    }

    method RemoveUserEverywhere(username: string) returns (r: Result<(), EditError>)
      requires Valid()
      modifies this`config, this`inboundUsers, this`inboundKinds
      ensures Valid() && r == (if running == NoCore then Err(NotRunning) else Ok(()))
      ensures config == if r.Ok? then Removed(old(config), username) else old(config)
    {
      if running == NoCore {
        return Err(NotRunning);
      }
      var c := RemoveSingBoxUser(config, username);
      SetSingBoxConfig(c);
      return Ok(());
    }

    method AddUserToTag(item: Item) returns (r: Result<(), EditError>)
      requires Valid()
      modifies this`config, this`inboundUsers, this`inboundKinds
      ensures Valid()
      ensures running == NoCore ==> r == Err(NotRunning) && config == old(config)
      ensures running == SingBox ==> match Added(old(config), item)
                case Err(error) => r == Err(error) && config == old(config)
                case Ok(c) => r.Ok? && config == c
    {
      if running == NoCore {
        return Err(NotRunning);
      }
      var added := AddSingBoxUser(config, item);
      match added
      case Err(error) => return Err(error);
      case Ok(c) =>
        SetSingBoxConfig(c);
        return Ok(());
    }

    /** One turn of applyAddUserRequest's loop. */
    method EditUser(item: Item, seen: set<string>) returns (r: Result<(), EditError>)
      requires Valid()
      modifies this`config, this`inboundUsers, this`inboundKinds
      ensures Valid()
      ensures r.Ok? ==> running == SingBox && Added(Cleared(old(config), seen, item), item) == Ok(config)
      ensures r.Err? ==> running == NoCore || Added(Cleared(old(config), seen, item), item) == Err(r.error)
      ensures running == NoCore ==> config == old(config)
      ensures SameShape(old(config), config)
    {
      RemovedSameShape(config, item.username);
      ClearedSameShape(config, seen, item);
      if item.username !in seen {
        var removed := RemoveUserEverywhere(item.username);
        match removed
        case Err(error) => return Err(error);
        case Ok(_) =>
      }
      r := AddUserToTag(item);
    }

    /** applyAddUserRequest: each named user is first removed everywhere, then added item by item. A
        failed item leaves what was edited before it in place. */
    method ApplyAddUserRequest(items: seq<Item>) returns (r: Result<(), EditError>)
      requires Valid()
      modifies this`config, this`inboundUsers, this`inboundKinds
      ensures Valid()
      ensures r.Ok? <==> items == [] || (running == SingBox && Edited(old(config), items).Ok?)
      ensures r.Ok? ==> Edited(old(config), items) == Ok(config)
      ensures running == NoCore ==> config == old(config)
      ensures SameShape(old(config), config)
    {
      var seen: set<string> := {};
      ghost var start := config;
      for i := 0 to |items|
        invariant Valid() && (i > 0 ==> running == SingBox)
        invariant Edited(start, items[..i]) == Ok(config)
        invariant seen == Named(items[..i]) && start == old(config)
        invariant running == NoCore ==> config == start
        invariant SameShape(start, config)
      {
        EditedNext(start, items, i);
        ghost var before := config;
        var edited := EditUser(items[i], seen);
        SameShapeTransitive(start, before, config);
        if edited.Err? {
          if running == SingBox {
            FailedItem(start, items, i);
          }
          return edited;
        }
        seen := seen + {items[i].username};
      }
      assert items[..|items|] == items;
      return Ok(());
    }
  }

  // ---------------------------------------------------------------- the edit as a function

  function Named(items: seq<Item>): set<string> { set item | item in items :: item.username }

  /** The configuration an item is added to: its user is gone, unless an earlier item named it. */
  function Cleared(config: Object, seen: set<string>, item: Item): Object {
    if item.username in seen then config else Removed(config, item.username)
  }

  lemma ClearedSameShape(config: Object, seen: set<string>, item: Item)
    ensures SameShape(config, Cleared(config, seen, item))
    ensures Added(Cleared(config, seen, item), item).Ok? ==>
              SameShape(config, Added(Cleared(config, seen, item), item).value)
  {
    var cleared := Cleared(config, seen, item);
    RemovedSameShape(config, item.username);
    if Added(cleared, item).Ok? {
      AddedSameShape(cleared, item);
      SameShapeTransitive(config, cleared, Added(cleared, item).value);
    }
  }

  function Edited(config: Object, items: seq<Item>): Result<Object, EditError> {
    if items == [] then Ok(config)
    else
      var before, item := items[..|items| - 1], items[|items| - 1];
      match Edited(config, before)
      case Err(error) => Err(error)
      case Ok(c) => Added(Cleared(c, Named(before), item), item)
  }

  lemma EditedNext(config: Object, items: seq<Item>, i: nat)
    requires i < |items|
    ensures Named(items[..i + 1]) == Named(items[..i]) + {items[i].username}
    ensures Edited(config, items[..i + 1]) ==
            match Edited(config, items[..i])
            case Err(error) => Err(error)
            case Ok(c) => Added(Cleared(c, Named(items[..i]), items[i]), items[i])
  {
    assert items[..i + 1][..i] == items[..i];
    assert items[..i + 1] == items[..i] + [items[i]];
  }

  lemma EditedLast(config: Object, items: seq<Item>) returns (c: Object)
    requires items != [] && Edited(config, items).Ok?
    ensures Edited(config, items[..|items| - 1]) == Ok(c)
    ensures Named(items) == Named(items[..|items| - 1]) + {items[|items| - 1].username}
    ensures Edited(config, items) == Added(Cleared(c, Named(items[..|items| - 1]), items[|items| - 1]),
              items[|items| - 1])
  {
    EditedNext(config, items, |items| - 1);
    assert items[..|items|] == items;
    c := Edited(config, items[..|items| - 1]).value;
  }

  lemma FailedItem(config: Object, items: seq<Item>, i: nat)
    requires i < |items| && Edited(config, items[..i + 1]).Err?
    ensures Edited(config, items).Err?
  {
    EditedPrefix(config, items, i + 1);
  }

  /** A failed item fails the whole request. */
  lemma {:induction false} EditedPrefix(config: Object, items: seq<Item>, n: nat)
    requires n <= |items| && Edited(config, items[..n]).Err?
    ensures Edited(config, items).Err?
    decreases |items| - n
  {
    if n < |items| {
      assert items[..n + 1][..n] == items[..n];
      EditedPrefix(config, items, n + 1);
    } else {
      assert items[..n] == items;
    }
  }

  // ---------------------------------------------------------------- what edits do to the listed users

  /** The entries of some users, in order. */
  function Only(entries: seq<InboundUser>, who: set<string>): seq<InboundUser> {
    if entries == [] then []
    else Only(entries[..|entries| - 1], who) + if entries[|entries| - 1].userID in who then [entries[|entries| - 1]]
        else []
  }

  lemma {:induction false} OnlyConcat(a: seq<InboundUser>, b: seq<InboundUser>, who: set<string>)
    ensures Only(a + b, who) == Only(a, who) + Only(b, who)
  {
    if b == [] {
      assert a + b == a;
    } else {
      var front := b[..|b| - 1];
      assert (a + b)[..|a + b| - 1] == a + front;
      OnlyConcat(a, front, who);
    }
  }

  lemma OnlyOne(user: Object, tag: string, protocol: string, who: set<string>)
    ensures Only(UserEntry(user, tag, protocol), who) ==
              if UserID(Name(user)) in who then UserEntry(user, tag, protocol) else []
  {
    var entry := UserEntry(user, tag, protocol);
    if entry != [] {
      assert entry[..0] == [];
      assert Only([], who) == [];
    }
  }

  lemma {:induction false} UsersLeftEntries(users: seq<Object>, username: string, tag: string, protocol: string,
                                            who: set<string>)
    ensures Only(UserEntries(UsersLeft(users, username), tag, protocol), who) ==
              Only(UserEntries(users, tag, protocol), who - {username})
  {
    if users != [] {
      var front, user := users[..|users| - 1], users[|users| - 1];
      UsersLeftEntries(front, username, tag, protocol, who);
      OnlyOne(user, tag, protocol, who);
      OnlyOne(user, tag, protocol, who - {username});
      OnlyConcat(UserEntries(front, tag, protocol), UserEntry(user, tag, protocol), who - {username});
      var left := UsersLeft(front, username);
      OnlyConcat(UserEntries(left, tag, protocol), UserEntry(user, tag, protocol), who);
      UserEntriesSnoc(left, user, tag, protocol);
      if UserID(Name(user)) == username {
        assert UsersLeft(users, username) == left;
      } else {
        assert UsersLeft(users, username) == left + [user];
      }
    }
  }

  lemma UserEntriesSnoc(users: seq<Object>, user: Object, tag: string, protocol: string)
    ensures UserEntries(users + [user], tag, protocol) ==
              UserEntries(users, tag, protocol) + UserEntry(user, tag, protocol)
  {
    assert (users + [user])[..|users|] == users;
  }

  lemma WithoutUserEntries(item: Json, username: string, who: set<string>)
    ensures Only(EntriesOf(WithoutUser(item, username)), who) == Only(EntriesOf(item), who - {username})
  {
    if item.Obj? {
      ObjectsBack(UsersLeft(Users(item.fields), username));
      var item' := WithoutUser(item, username);
      assert Tag(item'.fields) == Tag(item.fields) && Protocol(item'.fields) == Protocol(item.fields);
      UsersLeftEntries(Users(item.fields), username, Tag(item.fields), Protocol(item.fields), who);
    }
  }

  lemma {:induction false} WithoutUserAllEntries(items: seq<Json>, username: string, who: set<string>)
    ensures Only(Entries(WithoutUserAll(items, username)), who) == Only(Entries(items), who - {username})
  {
    if items != [] {
      var front, item := items[..|items| - 1], items[|items| - 1];
      WithoutUserAllEntries(front, username, who);
      WithoutUserEntries(item, username, who);
      OnlyConcat(Entries(front), EntriesOf(item), who - {username});
      OnlyConcat(Entries(WithoutUserAll(front, username)), EntriesOf(WithoutUser(item, username)), who);
    }
  }

  /** Removing a user takes out exactly its entries; all others keep their order. */
  lemma RemovedEntries(config: Object, username: string, who: set<string>)
    ensures Only(Entries(Inbounds(Removed(config, username))), who) == Only(Entries(Inbounds(config)), who - {username})
  {
    WithoutUserAllEntries(Inbounds(config), username, who);
  }

  /** How often a user is listed under a tag. */
  function Count(entries: seq<InboundUser>, user: string, tag: string): nat {
    if entries == [] then 0
    else
      var e := entries[|entries| - 1];
      Count(entries[..|entries| - 1], user, tag) + if e.userID == user && e.tag == tag then 1 else 0
  }

  /** How often a request asks for a user under a tag. */
  function Requested(items: seq<Item>, user: string, tag: string): nat {
    if items == [] then 0
    else
      var e := items[|items| - 1];
      Requested(items[..|items| - 1], user, tag) + if e.username == user && e.tag == tag then 1 else 0
  }

  lemma {:induction false} CountConcat(a: seq<InboundUser>, b: seq<InboundUser>, user: string, tag: string)
    ensures Count(a + b, user, tag) == Count(a, user, tag) + Count(b, user, tag)
  {
    if b == [] {
      assert a + b == a;
    } else {
      var front := b[..|b| - 1];
      assert (a + b)[..|a + b| - 1] == a + front;
      CountConcat(a, front, user, tag);
    }
  }

  lemma {:induction false} CountOnly(entries: seq<InboundUser>, user: string, tag: string)
    ensures Count(entries, user, tag) == Count(Only(entries, {user}), user, tag)
  {
    if entries != [] {
      var front, e := entries[..|entries| - 1], entries[|entries| - 1];
      CountOnly(front, user, tag);
      CountConcat(Only(front, {user}), if e.userID == user then [e] else [], user, tag);
      assert Count([], user, tag) == 0;
      assert Count([e], user, tag) == if e.userID == user && e.tag == tag then 1 else 0;
    }
  }

  /** The name an added user is listed under. */
  lemma ListedName(username: Octets, tag: Octets)
    ensures UserID(StatsName(username, tag)) == if Plain(username)
              && tag != "" then username else StatsName(username, tag)
    ensures !Plain(StatsName(username, tag))
  {
    ParseOfUserInbound(username, tag);
    EmbeddedSeparator(username, Encode(tag));
  }

  lemma SupportedIsTyped(inbound: Object, item: Item)
    ensures NewUser(inbound, item).Some? ==>
              Protocol(inbound) != "" && Name(NewUser(inbound, item).value) == StatsName(item.username, item.tag)
  {
  }

  lemma {:induction false} EntriesSplit(items: seq<Json>, i: nat)
    requires i < |items|
    ensures Entries(items) == Entries(items[..i]) + EntriesOf(items[i]) + EntriesFrom(items, i + 1)
  {
    if i < |items| - 1 {
      var front := items[..|items| - 1];
      EntriesSplit(front, i);
      assert front[..i] == items[..i];
      EntriesFromFront(items, i + 1);
    } else {
      assert items[..i] == items[..|items| - 1];
    }
  }

  /** The entries of the inbounds from one on. */
  function EntriesFrom(items: seq<Json>, i: nat): seq<InboundUser>
    requires i <= |items|
  {
    Entries(items[i..])
  }

  lemma EntriesFromFront(items: seq<Json>, i: nat)
    requires i < |items|
    ensures EntriesFrom(items, i) == EntriesFrom(items[..|items| - 1], i) + EntriesOf(items[|items| - 1])
  {
    var tail := items[i..];
    assert tail[..|tail| - 1] == items[..|items| - 1][i..];
  }

  lemma EntriesReplaced(items: seq<Json>, i: nat, item: Json) returns (a: seq<InboundUser>, b: seq<InboundUser>)
    requires i < |items|
    ensures Entries(items) == a + EntriesOf(items[i]) + b
    ensures Entries(items[i := item]) == a + EntriesOf(item) + b
  {
    EntriesSplit(items, i);
    EntriesSplit(items[i := item], i);
    assert items[i := item][..i] == items[..i] && items[i := item][i + 1..] == items[i + 1..];
    a, b := Entries(items[..i]), EntriesFrom(items, i + 1);
  }

  lemma AppendedEntries(inbound: Object, user: Object)
    requires Tag(inbound) != "" && Protocol(inbound) != ""
    ensures EntriesOf(Obj(inbound["users" := ToAny(Users(inbound) + [user])])) ==
            EntriesOf(Obj(inbound)) + UserEntry(user, Tag(inbound), Protocol(inbound))
  {
    var inbound' := inbound["users" := ToAny(Users(inbound) + [user])];
    ObjectsBack(Users(inbound) + [user]);
    assert Tag(inbound') == Tag(inbound) && Protocol(inbound') == Protocol(inbound);
    UserEntriesSnoc(Users(inbound), user, Tag(inbound), Protocol(inbound));
  }

  /** What addSingBoxUser does to the list of inbounds. */
  lemma AddedUser(config: Object, item: Item) returns (i: nat, inbound: Object, user: Object)
    requires Added(config, item).Ok?
    ensures i < |Inbounds(config)| && Inbounds(config)[i] == Obj(inbound)
    ensures Inbounds(Added(config, item).value) ==
              Inbounds(config)[i := Obj(inbound["users" := ToAny(Users(inbound) + [user])])]
    ensures Tag(inbound) == item.tag && Protocol(inbound) != "" && Name(user) == StatsName(item.username, item.tag)
  {
    i := FirstTagged(Inbounds(config), item.tag);
    inbound := Inbounds(config)[i].fields;
    user := NewUser(inbound, item).value;
    SupportedIsTyped(inbound, item);
  }

  lemma Regroup(a: seq<InboundUser>, m: seq<InboundUser>, e: InboundUser, b: seq<InboundUser>)
    ensures a + (m + [e]) + b == (a + m) + [e] + b
    ensures a + m + b == (a + m) + b
  {
  }

  /** Adding an item lists one more user, in one place, under its tag. */
  lemma AddedEntries(config: Object, item: Item) returns (a: seq<InboundUser>, e: InboundUser, b: seq<InboundUser>)
    requires Added(config, item).Ok? && item.tag != ""
    ensures Entries(Inbounds(config)) == a + b
    ensures Entries(Inbounds(Added(config, item).value)) == a + [e] + b
    ensures e.tag == item.tag && e.userID == UserID(StatsName(item.username, item.tag))
  {
    var i, inbound, user := AddedUser(config, item);
    AppendedEntries(inbound, user);
    var before, after := EntriesReplaced(Inbounds(config), i, Obj(inbound["users" := ToAny(Users(inbound) + [user])]));
    e := InboundUser(UserID(Name(user)), Protocol(inbound), Tag(inbound));
    NamedEntry(user, Tag(inbound), Protocol(inbound), item);
    Regroup(before, EntriesOf(Obj(inbound)), e, after);
    a, b := before + EntriesOf(Obj(inbound)), after;
  }

  lemma NamedEntry(user: Object, tag: string, protocol: string, item: Item)
    requires Name(user) == StatsName(item.username, item.tag)
    ensures UserEntry(user, tag, protocol) == [InboundUser(UserID(Name(user)), protocol, tag)]
  {
    assert |StatsName(item.username, item.tag)| >= 6;
  }

  lemma OnlyInserted(a: seq<InboundUser>, e: InboundUser, b: seq<InboundUser>, who: set<string>)
    requires e.userID !in who
    ensures Only(a + [e] + b, who) == Only(a + b, who)
  {
    OnlyConcat(a, b, who);
    OnlyConcat(a + [e], b, who);
    assert (a + [e])[..|a|] == a;
  }

  lemma CountInserted(a: seq<InboundUser>, e: InboundUser, b: seq<InboundUser>, user: string, tag: string)
    ensures Count(a + [e] + b, user, tag) == Count(a + b, user, tag) + if e.userID == user && e.tag == tag then 1 else 0
  {
    CountConcat(a, b, user, tag);
    CountConcat(a + [e], b, user, tag);
    assert (a + [e])[..|a|] == a;
  }

  /** An inbound without a tag is not indexed, whatever is added to it. */
  lemma AddedUntagged(config: Object, item: Item)
    requires Added(config, item).Ok? && item.tag == ""
    ensures Entries(Inbounds(Added(config, item).value)) == Entries(Inbounds(config))
  {
    var i, inbound, user := AddedUser(config, item);
    var inbound' := inbound["users" := ToAny(Users(inbound) + [user])];
    assert Tag(inbound') == Tag(inbound);
    var a, b := EntriesReplaced(Inbounds(config), i, Obj(inbound'));
  }

  lemma AddedKeepsOthers(config: Object, item: Item, who: set<string>)
    requires Added(config, item).Ok? && (item.tag == "" || UserID(StatsName(item.username, item.tag)) !in who)
    ensures Only(Entries(Inbounds(Added(config, item).value)), who) == Only(Entries(Inbounds(config)), who)
  {
    if item.tag == "" {
      AddedUntagged(config, item);
    } else {
      var a, e, b := AddedEntries(config, item);
      OnlyInserted(a, e, b, who);
    }
  }

  lemma AddedCounts(config: Object, item: Item, user: string, tag: string)
    requires Added(config, item).Ok? && tag != ""
    ensures Count(Entries(Inbounds(Added(config, item).value)), user, tag) ==
            Count(Entries(Inbounds(config)), user, tag) + if UserID(StatsName(item.username, item.tag)) == user
                && item.tag == tag then 1 else 0
  {
    if item.tag == "" {
      AddedUntagged(config, item);
    } else {
      var a, e, b := AddedEntries(config, item);
      CountInserted(a, e, b, user, tag);
    }
  }

  ghost predicate AllPlain(who: set<string>) { forall user :: user in who ==> Plain(user) }

  lemma AddedAsListed(username: Octets, tag: Octets, user: string)
    requires Plain(user) && tag != ""
    ensures UserID(StatsName(username, tag)) == user <==> username == user
  {
    ListedName(username, tag);
  }

  /** A request leaves the entries of every other user, and their order, as they were. */
  lemma {:induction false} EditsKeepOthers(config: Object, items: seq<Item>, who: set<string>)
    requires AllPlain(who) && who !! Named(items)
    ensures Edited(config, items).Ok? ==>
              Only(Entries(Inbounds(Edited(config, items).value)), who) == Only(Entries(Inbounds(config)), who)
  {
    if items != [] && Edited(config, items).Ok? {
      var before, item := items[..|items| - 1], items[|items| - 1];
      var c := EditedLast(config, items);
      EditsKeepOthers(config, before, who);
      RemovedEntries(c, item.username, who);
      assert item.username !in who && who - {item.username} == who;
      if item.tag != "" {
        forall user | user in who ensures UserID(StatsName(item.username, item.tag)) != user {
          AddedAsListed(item.username, item.tag, user);
        }
      }
      AddedKeepsOthers(Cleared(c, Named(before), item), item, who);
    }
  }

  lemma {:induction false} NotRequested(items: seq<Item>, user: string, tag: string)
    requires user !in Named(items)
    ensures Requested(items, user, tag) == 0
  {
    if items != [] {
      NotRequested(items[..|items| - 1], user, tag);
    }
  }

  /** After the clearing, a user is listed once per item so far. */
  lemma ClearedCounts(c: Object, before: seq<Item>, item: Item, user: string, tag: string)
    requires user in Named(before) ==> Count(Entries(Inbounds(c)), user, tag) == Requested(before, user, tag)
    requires user in Named(before) || user == item.username
    ensures Count(Entries(Inbounds(Cleared(c, Named(before), item))), user, tag) == Requested(before, user, tag)
  {
    var c' := Cleared(c, Named(before), item);
    CountOnly(Entries(Inbounds(c)), user, tag);
    CountOnly(Entries(Inbounds(c')), user, tag);
    RemovedEntries(c, item.username, {user});
    if user !in Named(before) {
      NotRequested(before, user, tag);
      assert {user} - {item.username} == {};
      OnlyNobody(Entries(Inbounds(c)));
    } else if item.username != user {
      assert {user} - {item.username} == {user};
    }
  }

  lemma {:induction false} OnlyNobody(entries: seq<InboundUser>)
    ensures Only(entries, {}) == []
  {
    if entries != [] {
      OnlyNobody(entries[..|entries| - 1]);
    }
  }

  /** A request leaves every user it names listed under a tag exactly as often as it asks for. */
  lemma {:induction false} EditsListRequested(config: Object, items: seq<Item>, user: string, tag: string)
    requires Plain(user) && user in Named(items) && tag != ""
    ensures Edited(config, items).Ok? ==>
              Count(Entries(Inbounds(Edited(config, items).value)), user, tag) == Requested(items, user, tag)
  {
    if Edited(config, items).Ok? {
      var before, item := items[..|items| - 1], items[|items| - 1];
      var c := EditedLast(config, items);
      if user in Named(before) {
        EditsListRequested(config, before, user, tag);
      }
      ClearedCounts(c, before, item, user, tag);
      AddedCounts(Cleared(c, Named(before), item), item, user, tag);
      if item.tag == tag {
        AddedAsListed(item.username, item.tag, user);
      }
    }
  }

  /** Adding one user under one tag lists it exactly when its name is plain. */
  lemma SingleEdit(config: Object, item: Item)
    requires Edited(config, [item]).Ok? && item.tag != ""
    ensures Count(Entries(Inbounds(Edited(config, [item]).value)), item.username, item.tag) ==
              if Plain(item.username) then 1 else 0
  {
    EditedNext(config, [item], 0);
    assert [item][..1] == [item] && [item][..0] == [];
    ClearedCounts(config, [], item, item.username, item.tag);
    AddedCounts(Cleared(config, {}, item), item, item.username, item.tag);
    ListedName(item.username, item.tag);
  }
}
