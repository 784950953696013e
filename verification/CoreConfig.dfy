/** The core's JSON configuration as internal/node edits it and internal/state indexes it. */
module CoreConfig {
  import opened Common
  import opened StatName

  // ---------------------------------------------------------------- JSON values

  datatype Json = Null | Bool(value: bool) | Num(number: real) | Str(text: Octets) | Arr(items: seq<Json>)
      | Obj(fields: map<string, Json>)

  type Object = map<string, Json>

  function Field(o: Object, key: string): Json { if key in o then o[key] else Null }

  function StringValue(j: Json): Octets { if j.Str? then j.text else "" }

  function Items(j: Json): seq<Json> { if j.Arr? then j.items else [] }

  /** asMapSlice: the objects of an array. */
  function Objects(items: seq<Json>): seq<Object> {
    if items == [] then []
    else Objects(items[..|items| - 1]) + if items[|items| - 1].Obj? then [items[|items| - 1].fields] else []
  }

  function ToAny(objects: seq<Object>): Json { Arr(seq(|objects|, i requires 0 <= i < |objects| => Obj(objects[i]))) }

  lemma {:induction false} ObjectsBack(objects: seq<Object>)
    ensures Objects(Items(ToAny(objects))) == objects
  {
    if objects != [] {
      var front := objects[..|objects| - 1];
      ObjectsBack(front);
      assert Items(ToAny(objects))[..|objects| - 1] == Items(ToAny(front));
    }
  }

  function Inbounds(config: Object): seq<Json> { Items(Field(config, "inbounds")) }

  /** Editing the inbounds in place; there is nothing to edit without an array of them. */
  function WithInbounds(config: Object, items: seq<Json>): Object {
    if Field(config, "inbounds").Arr? then config["inbounds" := Arr(items)] else config
  }

  function Users(inbound: Object): seq<Object> { Objects(Items(Field(inbound, "users"))) }

  function Tag(inbound: Object): Octets { StringValue(Field(inbound, "tag")) }

  function FirstNonEmpty(a: Octets, b: Octets): Octets { if a != "" then a else b }

  function Name(user: Object): Octets { FirstNonEmpty(StringValue(Field(user, "name")),
      StringValue(Field(user, "email"))) }

  function Lower(c: char): char { if 'A' <= c <= 'Z' then c + 32 as char else c }

  predicate EqualFold(a: string, b: string) { |a| == |b| && forall i :: 0 <= i < |a| ==> Lower(a[i]) == Lower(b[i]) }

  function NormalizedType(kind: Octets): Octets { if EqualFold(kind, "hy2")
      || EqualFold(kind, "hysteria2") then "hysteria2" else kind }

  function Protocol(inbound: Object): Octets { NormalizedType(StringValue(Field(inbound, "type"))) }

  lemma {:induction false} EncodeIsOctets(t: Octets)
    ensures forall i :: 0 <= i < |Encode(t)| ==> Encode(t)[i] as int < 256
  {
    if |t| >= 3 {
      EncodeIsOctets(t[3..]);
    }
  }

  function StatsName(userID: Octets, tag: Octets): Octets {
    EncodeIsOctets(tag);
    UserInbound(userID, tag)
  }

  // ---------------------------------------------------------------- the user index

  datatype InboundUser = InboundUser(userID: string, protocol: string, tag: string)

  function UserEntry(user: Object, tag: string, protocol: string): seq<InboundUser> {
    if Name(user) == "" then [] else [InboundUser(UserID(Name(user)), protocol, tag)]
  }

  function UserEntries(users: seq<Object>, tag: string, protocol: string): seq<InboundUser> {
    if users == [] then []
    else UserEntries(users[..|users| - 1], tag, protocol) + UserEntry(users[|users| - 1], tag, protocol)
  }

  predicate Indexed(item: Json) { item.Obj? && Tag(item.fields) != "" && Protocol(item.fields) != "" }

  function EntriesOf(item: Json): seq<InboundUser> {
    if Indexed(item) then UserEntries(Users(item.fields), Tag(item.fields), Protocol(item.fields)) else []
  }

  /** Every user the configuration lists, in order. */
  function Entries(items: seq<Json>): seq<InboundUser> {
    if items == [] then [] else Entries(items[..|items| - 1]) + EntriesOf(items[|items| - 1])
  }

  function Tagged(entries: seq<InboundUser>, tag: string): seq<InboundUser> {
    if entries == [] then []
    else Tagged(entries[..|entries| - 1], tag) + if entries[|entries| - 1].tag == tag then [entries[|entries| - 1]]
        else []
  }

  function Kinds(items: seq<Json>): map<string, string> {
    if items == [] then map[]
    else
      var kinds, last := Kinds(items[..|items| - 1]), items[|items| - 1];
      if Indexed(last) then kinds[Tag(last.fields) := Protocol(last.fields)] else kinds
  }

  function Lookup(index: map<string, seq<InboundUser>>,
                  tag: string): seq<InboundUser> { if tag in index then index[tag] else [] }

  /** The cached index holds exactly the listed users, tag by tag and in order. */
  ghost predicate Indexes(index: map<string, seq<InboundUser>>, entries: seq<InboundUser>) {
    && (forall tag :: Lookup(index, tag) == Tagged(entries, tag))
    && (forall tag :: tag in index ==> index[tag] != [])
  }

  lemma TaggedNext(entries: seq<InboundUser>, e: InboundUser, tag: string)
    ensures Tagged(entries + [e], tag) == Tagged(entries, tag) + if e.tag == tag then [e] else []
  {
    assert (entries + [e])[..|entries|] == entries;
  }

  lemma EntriesNext(items: seq<Json>, i: nat)
    requires i < |items|
    ensures Entries(items[..i + 1]) == Entries(items[..i]) + EntriesOf(items[i])
    ensures Kinds(items[..i + 1]) ==
            if Indexed(items[i]) then Kinds(items[..i])[Tag(items[i].fields) := Protocol(items[i].fields)]
            else Kinds(items[..i])
  {
    assert items[..i + 1][..i] == items[..i];
  }

  lemma UserEntriesNext(users: seq<Object>, i: nat, tag: string, protocol: string)
    requires i < |users|
    ensures UserEntries(users[..i + 1], tag, protocol) ==
            UserEntries(users[..i], tag, protocol) + UserEntry(users[i], tag, protocol)
  {
    assert users[..i + 1][..i] == users[..i];
  }

  /** asMapSlice */
  method AsMapSlice(j: Json) returns (objects: seq<Object>)
    ensures objects == Objects(Items(j))
  {
    objects := [];
    var items := Items(j);
    for i := 0 to |items|
      invariant objects == Objects(items[..i])
    {
      assert items[..i + 1][..i] == items[..i];
      if items[i].Obj? {
        objects := objects + [items[i].fields];
      }
    }
    assert items[..|items|] == items;
  }

  lemma IndexAppend(index: map<string, seq<InboundUser>>, entries: seq<InboundUser>, e: InboundUser)
    requires Indexes(index, entries)
    ensures Indexes(index[e.tag := Lookup(index, e.tag) + [e]], entries + [e])
  {
    forall tag ensures Tagged(entries + [e], tag) == Tagged(entries, tag) + if e.tag == tag then [e] else [] {
      TaggedNext(entries, e, tag);
    }
  }

  method IndexUser(user: Object, tag: string, protocol: string, index: map<string, seq<InboundUser>>,
                   ghost entries: seq<InboundUser>)
    returns (index': map<string, seq<InboundUser>>)
    requires Indexes(index, entries)
    ensures Indexes(index', entries + UserEntry(user, tag, protocol))
  {
    var name := Name(user);
    if name == "" {
      assert entries + [] == entries;
      return index;
    }
    IndexAppend(index, entries, InboundUser(UserID(name), protocol, tag));
    return index[tag := Lookup(index, tag) + [InboundUser(UserID(name), protocol, tag)]];
  }

  /** The inner loop of extractSingBoxInbounds. */
  method IndexUsers(users: seq<Object>, tag: string, protocol: string, index: map<string, seq<InboundUser>>,
                    ghost before: seq<InboundUser>)
    returns (index': map<string, seq<InboundUser>>)
    requires Indexes(index, before)
    ensures Indexes(index', before + UserEntries(users, tag, protocol))
  {
    index' := index;
    ghost var entries := before;
    for i := 0 to |users|
      invariant entries == before + UserEntries(users[..i], tag, protocol)
      invariant Indexes(index', entries)
    {
      index' := IndexUser(users[i], tag, protocol, index', entries);
      UserEntriesNext(users, i, tag, protocol);
      entries := entries + UserEntry(users[i], tag, protocol);
    }
    assert users[..|users|] == users;
  }

  /** One turn of extractSingBoxInbounds. */
  method IndexInbound(item: Json, index: map<string, seq<InboundUser>>, kinds: map<string, string>,
                      ghost entries: seq<InboundUser>)
    returns (index': map<string, seq<InboundUser>>, kinds': map<string, string>)
    requires Indexes(index, entries)
    ensures Indexes(index', entries + EntriesOf(item))
    ensures kinds' == if Indexed(item) then kinds[Tag(item.fields) := Protocol(item.fields)] else kinds
  {
    index', kinds' := index, kinds;
    assert entries + [] == entries;
    if !item.Obj? {
      return;
    }
    var tag, protocol := Tag(item.fields), Protocol(item.fields);
    if tag == "" || protocol == "" {
      return;
    }
    kinds' := kinds[tag := protocol];
    var users := AsMapSlice(Field(item.fields, "users"));
    index' := IndexUsers(users, tag, protocol, index, entries);
  }

  /** extractSingBoxInbounds into empty maps. */
  method ExtractSingBoxInbounds(config: Object)
    returns (index: map<string, seq<InboundUser>>, kinds: map<string, string>)
    ensures Indexes(index, Entries(Inbounds(config))) && kinds == Kinds(Inbounds(config))
  {
    index, kinds := map[], map[];
    var items := Inbounds(config);
    ghost var entries := [];
    for i := 0 to |items|
      invariant entries == Entries(items[..i]) && kinds == Kinds(items[..i])
      invariant Indexes(index, entries)
    {
      index, kinds := IndexInbound(items[i], index, kinds, entries);
      EntriesNext(items, i);
      entries := entries + EntriesOf(items[i]);
    }
    assert items[..|items|] == items;
  }

  // ---------------------------------------------------------------- editing users

  datatype Item = Item(tag: Octets, username: Octets, password: Octets, uuid: Octets)

  /** The users other than one. */
  function UsersLeft(users: seq<Object>, username: string): seq<Object> {
    if users == [] then []
    else UsersLeft(users[..|users| - 1], username) + if UserID(Name(users[|users| - 1])) == username then []
        else [users[|users| - 1]]
  }

  function WithoutUser(item: Json, username: string): Json {
    if item.Obj? then Obj(item.fields["users" := ToAny(UsersLeft(Users(item.fields), username))]) else item
  }

  function WithoutUserAll(items: seq<Json>, username: string): seq<Json> {
    if items == [] then []
    else WithoutUserAll(items[..|items| - 1], username) + [WithoutUser(items[|items| - 1], username)]
  }

  function Removed(config: Object, username: string): Object {
    WithInbounds(config, WithoutUserAll(Inbounds(config), username))
  }

  method FilterUsers(users: seq<Object>, username: string) returns (filtered: seq<Object>)
    ensures filtered == UsersLeft(users, username)
  {
    filtered := [];
    for j := 0 to |users|
      invariant filtered == UsersLeft(users[..j], username)
    {
      assert users[..j + 1][..j] == users[..j];
      if UserID(Name(users[j])) != username {
        filtered := filtered + [users[j]];
      }
    }
    assert users[..|users|] == users;
  }

  method RemoveSingBoxUser(config: Object, username: string) returns (config': Object)
    ensures config' == Removed(config, username)
  {
    var items := Inbounds(config);
    var done := [];
    for i := 0 to |items|
      invariant done == WithoutUserAll(items[..i], username)
    {
      assert items[..i + 1][..i] == items[..i];
      if items[i].Obj? {
        var users := AsMapSlice(Field(items[i].fields, "users"));
        var filtered := FilterUsers(users, username);
        done := done + [Obj(items[i].fields["users" := ToAny(filtered)])];
      } else {
        done := done + [items[i]];
      }
    }
    assert items[..|items|] == items;
    config' := WithInbounds(config, done);
  }

  datatype EditError = UnsupportedUser | InboundNotFound | NotRunning

  /** The credentials a protocol asks for. */
  function Credentials(inbound: Object, item: Item): Option<Object> {
    match Protocol(inbound)
    case "snell" =>
      if Field(inbound, "multi_user_psk") != Bool(true) || |item.password| < 16 || |item.password| > 255 then None
      else Some(map["psk" := Str(item.password)])
    case "anytls" | "hysteria2" | "trojan" | "shadowtls" | "shadowsocks" => Some(map["password" := Str(item.password)])
    case "tuic" => Some(map["uuid" := Str(item.uuid), "password" := Str(item.password)])
    case "vless" | "vmess" => Some(map["uuid" := Str(item.uuid)])
    case _ => None
  }

  function FirstTagged(items: seq<Json>, tag: Octets): (i: nat)
    ensures i <= |items| && forall j :: 0 <= j < i ==> !(items[j].Obj? && Tag(items[j].fields) == tag)
    ensures i < |items| ==> items[i].Obj? && Tag(items[i].fields) == tag
  {
    if items == [] then 0
    else
      var i := FirstTagged(items[..|items| - 1], tag);
      if i < |items| - 1 then i
      else if items[i].Obj? && Tag(items[i].fields) == tag then i else i + 1
  }

  function NewUser(inbound: Object, item: Item): Option<Object> {
    match Credentials(inbound, item)
    case None => None
    case Some(credentials) => Some(credentials["name" := Str(StatsName(item.username, item.tag))])
  }

  function Added(config: Object, item: Item): Result<Object, EditError> {
    var items := Inbounds(config);
    var i := FirstTagged(items, item.tag);
    if i == |items| then Err(InboundNotFound)
    else
      var inbound := items[i].fields;
      match NewUser(inbound, item)
      case None => Err(UnsupportedUser)
      case Some(user) => Ok(WithInbounds(config, items[i := Obj(inbound["users" := ToAny(Users(inbound) + [user])])]))
  }

  /** Which protocols take users: snell only with keys per user and a key of 16 to 255 bytes. */
  ghost predicate TakesUser(inbound: Object, password: Octets) {
    || Protocol(inbound) in {"anytls", "hysteria2", "trojan", "shadowtls", "shadowsocks", "tuic", "vless", "vmess"}
    || (Protocol(inbound) == "snell" && Field(inbound, "multi_user_psk") == Bool(true) && 16 <= |password| <= 255)
  }

  /** What a new user holds, protocol by protocol, and when there is none. */
  lemma NewUserFields(inbound: Object, item: Item)
    ensures NewUser(inbound, item).Some? <==> TakesUser(inbound, item.password)
    ensures NewUser(inbound, item).Some? ==>
              var user := NewUser(inbound, item).value;
              && Field(user, "name") == Str(UserInbound(item.username, item.tag))
              && Field(user, "uuid") ==
                 (if Protocol(inbound) in {"tuic", "vless", "vmess"} then Str(item.uuid) else Null)
              && Field(user, "psk") == (if Protocol(inbound) == "snell" then Str(item.password) else Null)
              && Field(user, "password") ==
                 (if Protocol(inbound) in {"vless", "vmess", "snell"} then Null else Str(item.password))
              && user.Keys <= {"name", "uuid", "psk", "password"}
  {
    CredentialFields(inbound, item);
  }

  lemma CredentialFields(inbound: Object, item: Item)
    ensures Credentials(inbound, item).Some? <==> TakesUser(inbound, item.password)
    ensures Credentials(inbound, item).Some? ==>
              var user := Credentials(inbound, item).value;
              && Field(user, "uuid") ==
                 (if Protocol(inbound) in {"tuic", "vless", "vmess"} then Str(item.uuid) else Null)
              && Field(user, "psk") == (if Protocol(inbound) == "snell" then Str(item.password) else Null)
              && Field(user, "password") ==
                 (if Protocol(inbound) in {"vless", "vmess", "snell"} then Null else Str(item.password))
              && user.Keys <= {"uuid", "psk", "password"}
  {
  }

  /** addSingBoxUser's switch on the inbound's protocol. */
  method BuildUser(inbound: Object, item: Item) returns (r: Option<Object>)
    ensures r == NewUser(inbound, item)
  {
    var name, password, uuid := Str(StatsName(item.username, item.tag)), Str(item.password), Str(item.uuid);
    var protocol := Protocol(inbound);
    match protocol
    case "snell" =>
      if Field(inbound, "multi_user_psk") != Bool(true) || |item.password| < 16 || |item.password| > 255 {
        return None;
      }
      return Some(map["psk" := password, "name" := name]);
    case "anytls" => return Some(map["password" := password, "name" := name]);
    case "hysteria2" => return Some(map["password" := password, "name" := name]);
    case "tuic" => return Some(map["uuid" := uuid, "password" := password, "name" := name]);
    case "trojan" | "shadowtls" | "shadowsocks" => return Some(map["password" := password, "name" := name]);
    case "vless" | "vmess" => return Some(map["uuid" := uuid, "name" := name]);
    case _ => return None;
  }

  method FindInbound(items: seq<Json>, tag: Octets) returns (i: nat)
    ensures i == FirstTagged(items, tag)
  {
    i := 0;
    while i < |items| && !(items[i].Obj? && Tag(items[i].fields) == tag)
      invariant i <= FirstTagged(items, tag)
    {
      i := i + 1;
    }
  }

  method AddSingBoxUser(config: Object, item: Item) returns (r: Result<Object, EditError>)
    ensures r == Added(config, item)
  {
    var items := Inbounds(config);
    var i := FindInbound(items, item.tag);
    if i == |items| {
      return Err(InboundNotFound);
    }
    var inbound := items[i].fields;
    var users := AsMapSlice(Field(inbound, "users"));
    var user := BuildUser(inbound, item);
    match user
    case None => return Err(UnsupportedUser);
    case Some(u) => return Ok(WithInbounds(config, items[i := Obj(inbound["users" := ToAny(users + [u])])]));
  }

  // ---------------------------------------------------------------- what edits do to the users of an inbound

  lemma {:induction false} LeftIff(users: seq<Object>, username: string, user: Object)
    ensures user in UsersLeft(users, username) <==> user in users && UserID(Name(user)) != username
  {
    if users != [] {
      var front, last := users[..|users| - 1], users[|users| - 1];
      LeftIff(front, username, user);
      assert user in users <==> user in front || user == last;
    }
  }

  lemma {:induction false} WithoutUserAt(items: seq<Json>, username: string, i: nat)
    requires i < |items|
    ensures |WithoutUserAll(items, username)| == |items|
    ensures WithoutUserAll(items, username)[i] == WithoutUser(items[i], username)
  {
    if i < |items| - 1 {
      WithoutUserAt(items[..|items| - 1], username, i);
    }
    if |items| > 1 {
      WithoutUserAt(items[..|items| - 1], username, 0);
    }
  }

  /** Removing a user leaves every other user of an inbound as it is. */
  lemma RemovedUsers(config: Object, username: string, i: nat, user: Object)
    requires i < |Inbounds(config)| && Inbounds(config)[i].Obj?
    ensures i < |Inbounds(Removed(config, username))| && Inbounds(Removed(config, username))[i].Obj?
    ensures user in Users(Inbounds(Removed(config, username))[i].fields) <==>
            user in Users(Inbounds(config)[i].fields) && UserID(Name(user)) != username
  {
    WithoutUserAt(Inbounds(config), username, i);
    var left := UsersLeft(Users(Inbounds(config)[i].fields), username);
    ObjectsBack(left);
    LeftIff(Users(Inbounds(config)[i].fields), username, user);
  }

  /** A user is added behind those of the first inbound with the tag. */
  lemma AddedIff(config: Object, item: Item)
    ensures Added(config, item) == Err(InboundNotFound) <==>
            forall i :: 0 <= i < |Inbounds(config)| && Inbounds(config)[i].Obj? ==>
              Tag(Inbounds(config)[i].fields) != item.tag
    ensures Added(config, item).Err? ==> Added(config, item).error in {InboundNotFound, UnsupportedUser}
    ensures forall i :: First(Inbounds(config), i, item.tag) ==>
              (Added(config, item).Ok? <==> TakesUser(Inbounds(config)[i].fields, item.password))
  {
    var items := Inbounds(config);
    forall i | First(items, i, item.tag)
      ensures Added(config, item).Ok? <==> TakesUser(items[i].fields, item.password)
    {
      assert i == FirstTagged(items, item.tag);
      NewUserFields(items[i].fields, item);
    }
  }

  ghost predicate First(items: seq<Json>, i: int, tag: Octets) {
    && 0 <= i < |items| && items[i].Obj? && Tag(items[i].fields) == tag
    && forall j :: 0 <= j < i && items[j].Obj? ==> Tag(items[j].fields) != tag
  }

  lemma AddedUsers(config: Object, item: Item, i: nat)
    requires Added(config, item).Ok? && First(Inbounds(config), i, item.tag)
    ensures var before, after := Inbounds(config), Inbounds(Added(config, item).value);
            && |after| == |before| && (forall j :: 0 <= j < |after| && j != i ==> after[j] == before[j])
            && after[i].Obj? && NewUser(before[i].fields, item).Some?
            && Users(after[i].fields) == Users(before[i].fields) + [NewUser(before[i].fields, item).value]
  {
    assert i == FirstTagged(Inbounds(config), item.tag);
    ObjectsBack(Users(Inbounds(config)[i].fields) + [NewUser(Inbounds(config)[i].fields, item).value]);
  }

  // ---------------------------------------------------------------- what edits of users leave alone

  /** Two inbounds that differ in their users only. */
  ghost predicate SameButUsers(a: Json, b: Json) {
    a == b || (a.Obj? && b.Obj? && forall key :: key != "users" ==> Field(a.fields, key) == Field(b.fields, key))
  }

  ghost predicate AllSameButUsers(a: seq<Json>, b: seq<Json>) {
    |a| == |b| && forall i :: 0 <= i < |a| ==> SameButUsers(a[i], b[i])
  }

  /** Two configurations that differ in the users of their inbounds only, as far as ports and
      top-level keys go. */
  ghost predicate SameShape(a: Object, b: Object) {
    a.Keys == b.Keys && AllSameButUsers(Inbounds(a), Inbounds(b))
  }

  lemma SameShapeTransitive(a: Object, b: Object, c: Object)
    requires SameShape(a, b) && SameShape(b, c)
    ensures SameShape(a, c)
  {
    forall i | 0 <= i < |Inbounds(a)| ensures SameButUsers(Inbounds(a)[i], Inbounds(c)[i]) {
      assert SameButUsers(Inbounds(a)[i], Inbounds(b)[i]) && SameButUsers(Inbounds(b)[i], Inbounds(c)[i]);
    }
  }

  lemma WithInboundsSameShape(config: Object, items: seq<Json>)
    requires AllSameButUsers(Inbounds(config), items)
    ensures SameShape(config, WithInbounds(config, items))
  {
    assert WithInbounds(config, items).Keys == config.Keys;
    if !Field(config, "inbounds").Arr? {
      assert items == [];
    }
  }

  lemma {:induction false} WithoutUserSameShape(items: seq<Json>, username: string)
    ensures AllSameButUsers(items, WithoutUserAll(items, username))
  {
    if items != [] {
      WithoutUserSameShape(items[..|items| - 1], username);
    }
  }

  lemma RemovedSameShape(config: Object, username: string)
    ensures SameShape(config, Removed(config, username))
  {
    WithoutUserSameShape(Inbounds(config), username);
    WithInboundsSameShape(config, WithoutUserAll(Inbounds(config), username));
  }

  lemma AddedSameShape(config: Object, item: Item)
    requires Added(config, item).Ok?
    ensures SameShape(config, Added(config, item).value)
  {
    var items := Inbounds(config);
    var i := FirstTagged(items, item.tag);
    var inbound := items[i].fields;
    var user := NewUser(inbound, item).value;
    WithInboundsSameShape(config, items[i := Obj(inbound["users" := ToAny(Users(inbound) + [user])])]);
  }
}
