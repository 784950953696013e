/** What internal/node adds to a core configuration before it is written: encoded user names, the
    statistics API and the audit service. */
module ApiConfig {
  import opened Common
  import opened StatName
  import opened CoreConfig

  // ---------------------------------------------------------------- encodeSingBoxConfigUsers

  function EncodedUser(user: Object, tag: Octets): Object {
    if UserID(Name(user)) == "" then user
    else user["name" := Str(StatsName(OctetsOfUserID(Name(user)), tag))]
  }

  function OctetsOfUserID(name: Octets): (r: Octets)
    ensures r == UserID(name)
  {
    UserID(name)
  }

  function EncodedUsers(users: seq<Object>, tag: Octets): seq<Object> {
    if users == [] then [] else EncodedUsers(users[..|users| - 1], tag) + [EncodedUser(users[|users| - 1], tag)]
  }

  function EncodedItem(item: Json): Json {
    if item.Obj? && Tag(item.fields) != "" then Obj(item.fields["users" := ToAny(EncodedUsers(Users(item.fields),
        Tag(item.fields)))])
    else item
  }

  function EncodedItems(items: seq<Json>): seq<Json> {
    if items == [] then [] else EncodedItems(items[..|items| - 1]) + [EncodedItem(items[|items| - 1])]
  }

  function Encoded(config: Object): Object { WithInbounds(config, EncodedItems(Inbounds(config))) }

  method EncodeUsers(users: seq<Object>, tag: Octets) returns (users': seq<Object>)
    ensures users' == EncodedUsers(users, tag)
  {
    users' := [];
    for i := 0 to |users|
      invariant users' == EncodedUsers(users[..i], tag)
    {
      assert users[..i + 1][..i] == users[..i];
      var userID := OctetsOfUserID(Name(users[i]));
      if userID == "" {
        users' := users' + [users[i]];
      } else {
        users' := users' + [users[i]["name" := Str(StatsName(userID, tag))]];
      }
    }
    assert users[..|users|] == users;
  }

  method EncodeSingBoxConfigUsers(config: Object) returns (config': Object)
    ensures config' == Encoded(config)
  {
    var items := Inbounds(config);
    var done := [];
    for i := 0 to |items|
      invariant done == EncodedItems(items[..i])
    {
      assert items[..i + 1][..i] == items[..i];
      if items[i].Obj? && Tag(items[i].fields) != "" {
        var users := AsMapSlice(Field(items[i].fields, "users"));
        users := EncodeUsers(users, Tag(items[i].fields));
        done := done + [Obj(items[i].fields["users" := ToAny(users)])];
      } else {
        done := done + [items[i]];
      }
    }
    assert items[..|items|] == items;
    config' := WithInbounds(config, done);
  }

  // ---------------------------------------------------------------- what the encoding keeps

  ghost predicate Carriable(user: Object) { UserID(Name(user)) == "" || Plain(UserID(Name(user))) }

  ghost predicate Carried(users: seq<Object>) {
    forall i :: 0 <= i < |users| ==> Carriable(users[i])
  }

  /** Every user under a tagged inbound has an identifier the codec can carry. */
  ghost predicate AllCarried(items: seq<Json>) {
    forall i :: 0 <= i < |items| && items[i].Obj? && Tag(items[i].fields) != "" ==> Carried(Users(items[i].fields))
  }

  lemma EncodedUserName(user: Object, tag: Octets)
    requires tag != ""
    ensures EncodedUser(EncodedUser(user, tag), tag) == EncodedUser(user, tag) <==> Carriable(user)
    ensures Name(user) == "" <==> UserID(Name(user)) == ""
    ensures Name(EncodedUser(user, tag)) == EncodedName(Name(user), tag)
  {
    var userID := UserID(Name(user));
    EncodedNameIdempotent(Name(user), tag);
    if userID != "" {
      var once := EncodedUser(user, tag);
      assert |StatsName(OctetsOfUserID(Name(user)), tag)| >= 6;
      assert Name(once) == StatsName(OctetsOfUserID(Name(user)), tag);
      if EncodedName(Name(once), tag) == Name(once) {
        assert EncodedUser(once, tag) == once;
      }
    }
  }

  lemma EncodedUsersSnoc(users: seq<Object>, user: Object, tag: Octets)
    ensures EncodedUsers(users + [user], tag) == EncodedUsers(users, tag) + [EncodedUser(user, tag)]
  {
    assert (users + [user])[..|users|] == users;
  }

  lemma CarriedLast(users: seq<Object>)
    requires users != []
    ensures Carried(users) <==> Carried(users[..|users| - 1]) && Carriable(users[|users| - 1])
  {
    var front := users[..|users| - 1];
    assert forall i :: 0 <= i < |front| ==> front[i] == users[i];
    assert users == front + [users[|users| - 1]];
  }

  lemma {:induction false} EncodedUsersTwice(users: seq<Object>, tag: Octets)
    requires tag != ""
    ensures EncodedUsers(EncodedUsers(users, tag), tag) == EncodedUsers(users, tag) <==> Carried(users)
  {
    if users != [] {
      var front, user := users[..|users| - 1], users[|users| - 1];
      var once, x := EncodedUsers(front, tag), EncodedUser(user, tag);
      EncodedUsersTwice(front, tag);
      EncodedUserName(user, tag);
      CarriedLast(users);
      EncodedUsersSnoc(once, x, tag);
      SnocCancel(EncodedUsers(once, tag), EncodedUser(x, tag), once, x);
    }
  }

  lemma SnocCancel<T>(a: seq<T>, x: T, b: seq<T>, y: T)
    ensures a + [x] == b + [y] <==> a == b && x == y
  {
    if a + [x] == b + [y] {
      assert a == (a + [x])[..|a|] && b == (b + [y])[..|b|] && (a + [x])[|a|] == x && (b + [y])[|b|] == y;
    }
  }

  lemma EncodedItemTwice(item: Json)
    ensures EncodedItem(EncodedItem(item)) == EncodedItem(item) <==> item.Obj? && Tag(item.fields) != "" ==>
              Carried(Users(item.fields))
  {
    if item.Obj? && Tag(item.fields) != "" {
      var tag, once := Tag(item.fields), EncodedItem(item).fields;
      var users := EncodedUsers(Users(item.fields), tag);
      ObjectsBack(users);
      ObjectsBack(EncodedUsers(users, tag));
      EncodedUsersTwice(Users(item.fields), tag);
      assert Tag(once) == tag && Users(once) == users;
      if EncodedUsers(users, tag) == users {
        assert EncodedItem(Obj(once)).fields == once;
      } else {
        assert Users(EncodedItem(Obj(once)).fields) != Users(once);
      }
    }
  }

  lemma EncodedItemsSnoc(items: seq<Json>, item: Json)
    ensures EncodedItems(items + [item]) == EncodedItems(items) + [EncodedItem(item)]
  {
    assert (items + [item])[..|items|] == items;
  }

  lemma AllCarriedLast(items: seq<Json>)
    requires items != []
    ensures var item := items[|items| - 1];
            AllCarried(items) <==>
                AllCarried(items[..|items| - 1])
                && (item.Obj? && Tag(item.fields) != "" ==> Carried(Users(item.fields)))
  {
    var front := items[..|items| - 1];
    assert forall i :: 0 <= i < |front| ==> front[i] == items[i];
  }

  /** Encoding twice is encoding once exactly when every user identifier can be carried. */
  lemma {:induction false} EncodedItemsTwice(items: seq<Json>)
    ensures EncodedItems(EncodedItems(items)) == EncodedItems(items) <==> AllCarried(items)
  {
    if items != [] {
      var front, item := items[..|items| - 1], items[|items| - 1];
      var once, x := EncodedItems(front), EncodedItem(item);
      EncodedItemsTwice(front);
      EncodedItemTwice(item);
      AllCarriedLast(items);
      EncodedItemsSnoc(once, x);
      SnocCancel(EncodedItems(once), EncodedItem(x), once, x);
    }
  }

  ghost predicate PlainEntries(entries: seq<InboundUser>) { forall e :: e in entries ==> Plain(e.userID) }

  lemma EncodedEntry(user: Object, tag: Octets, protocol: string)
    requires tag != ""
    ensures UserEntry(EncodedUser(user, tag), tag, protocol) == UserEntry(user, tag, protocol) <==>
              PlainEntries(UserEntry(user, tag, protocol))
    ensures |UserEntry(EncodedUser(user, tag), tag, protocol)| == |UserEntry(user, tag, protocol)|
  {
    EncodedUserName(user, tag);
    var userID := UserID(Name(user));
    if userID != "" {
      ParseOfUserInbound(userID, tag);
      EmbeddedSeparator(userID, Encode(tag));
      var entry := UserEntry(user, tag, protocol);
      assert entry == [InboundUser(userID, protocol, tag)] && entry[0] in entry;
      assert |UserInbound(userID, tag)| > |userID|;
    }
  }

  lemma Cancel<T>(a: seq<T>, x: seq<T>, b: seq<T>, y: seq<T>)
    requires |a| == |b|
    ensures a + x == b + y <==> a == b && x == y
  {
    if a + x == b + y {
      assert a == (a + x)[..|a|] && b == (b + y)[..|b|] && x == (a + x)[|a|..] && y == (b + y)[|b|..];
    }
  }

  lemma {:induction false} EncodedUserEntries(users: seq<Object>, tag: Octets, protocol: string)
    requires tag != ""
    ensures UserEntries(EncodedUsers(users, tag), tag, protocol) == UserEntries(users, tag, protocol) <==>
              PlainEntries(UserEntries(users, tag, protocol))
    ensures |UserEntries(EncodedUsers(users, tag), tag, protocol)| == |UserEntries(users, tag, protocol)|
  {
    if users != [] {
      var front, user := users[..|users| - 1], users[|users| - 1];
      EncodedUserEntries(front, tag, protocol);
      EncodedEntry(user, tag, protocol);
      var once := EncodedUsers(users, tag);
      assert once[..|once| - 1] == EncodedUsers(front, tag);
      Cancel(UserEntries(EncodedUsers(front, tag), tag, protocol), UserEntry(EncodedUser(user, tag), tag, protocol),
             UserEntries(front, tag, protocol), UserEntry(user, tag, protocol));
    }
  }

  lemma EncodedEntriesOf(item: Json)
    ensures EntriesOf(EncodedItem(item)) == EntriesOf(item) <==> PlainEntries(EntriesOf(item))
    ensures |EntriesOf(EncodedItem(item))| == |EntriesOf(item)|
  {
    if Indexed(item) {
      var tag, once := Tag(item.fields), EncodedItem(item).fields;
      ObjectsBack(EncodedUsers(Users(item.fields), tag));
      EncodedUserEntries(Users(item.fields), tag, Protocol(item.fields));
      assert Tag(once) == tag && Protocol(once) == Protocol(item.fields);
    } else if item.Obj? {
      assert !Indexed(EncodedItem(item));
    }
  }

  /** Encoding leaves the user index alone exactly when every listed user identifier is plain. */
  lemma {:induction false} EncodedEntries(items: seq<Json>)
    ensures Entries(EncodedItems(items)) == Entries(items) <==> PlainEntries(Entries(items))
    ensures |Entries(EncodedItems(items))| == |Entries(items)|
  {
    if items != [] {
      var front, item := items[..|items| - 1], items[|items| - 1];
      EncodedEntries(front);
      EncodedEntriesOf(item);
      var once := EncodedItems(items);
      assert once[..|once| - 1] == EncodedItems(front);
      Cancel(Entries(EncodedItems(front)), EntriesOf(EncodedItem(item)), Entries(front), EntriesOf(item));
    }
  }

  // ---------------------------------------------------------------- applySingBoxAPIConfig

  /** The agent's settings; addresses are the formatted `127.0.0.1:port` texts. */
  datatype Settings = Settings(apiPort: int, statsAddress: Octets, controller: Octets, token: Octets, auditPort: int,
      auditSecret: Octets)

  const AUDIT_TAG := "remnawave-access-audit"

  function ObjectAt(parent: Object, key: string): Object {
    if Field(parent, key).Obj? then Field(parent, key).fields else map[]
  }

  function Tags(objects: seq<Object>): seq<Json> {
    if objects == [] then []
    else Tags(objects[..|objects| - 1]) + if Tag(objects[|objects| - 1]) == "" then []
        else [Str(Tag(objects[|objects| - 1]))]
  }

  function Names(users: seq<Object>): seq<Json> {
    if users == [] then []
    else Names(users[..|users| - 1]) + if Name(users[|users| - 1]) == "" then [] else [Str(Name(users[|users| - 1]))]
  }

  function AllNames(inbounds: seq<Object>): seq<Json> {
    if inbounds == [] then [] else AllNames(inbounds[..|inbounds| - 1]) + Names(Users(inbounds[|inbounds| - 1]))
  }

  function Others(services: seq<Object>): seq<Object> {
    if services == [] then []
    else Others(services[..|services| - 1]) + if Tag(services[|services| - 1]) == AUDIT_TAG then []
        else [services[|services| - 1]]
  }

  function StatsApi(config: Object, settings: Settings): Json {
    var inbounds := Objects(Inbounds(config));
    Obj(map["listen" := Str(settings.statsAddress),
            "stats" := Obj(map["enabled" := Bool(true), "inbounds" := Arr(Tags(inbounds)),
                               "outbounds" := Arr(Tags(Objects(Items(Field(config, "outbounds"))))),
                                   "users" := Arr(AllNames(inbounds))])])
  }

  function ClashApi(experimental: Object, settings: Settings): Json {
    var clash := ObjectAt(experimental, "clash_api")["external_controller" := Str(settings.controller)];
    Obj(if settings.token != "" then clash["secret" := Str(settings.token)] else clash - {"secret"})
  }

  function Experimental(config: Object, settings: Settings): Object {
    var experimental := ObjectAt(config, "experimental");
    experimental["v2ray_api" := StatsApi(config, settings)]["clash_api" := ClashApi(experimental, settings)]
  }

  function AuditService(settings: Settings): Object {
    map["type" := Str("api"), "tag" := Str(AUDIT_TAG), "listen" := Str("127.0.0.1"),
        "listen_port" := Num(settings.auditPort as real),
        "secret" := Str(settings.auditSecret), "access_control_allow_origin" := Arr([Str("http://127.0.0.1")])]
  }

  function Services(config: Object, settings: Settings): Json {
    ToAny(Others(Objects(Items(Field(config, "services")))) + [AuditService(settings)])
  }

  function Equipped(config: Object, settings: Settings): Object {
    if config == map[] || settings.apiPort <= 0 then config
    else
      var c := Encoded(config);
      var c' := c["experimental" := Obj(Experimental(c, settings))];
      if settings.auditPort > 0 then c'["services" := Services(c, settings)] else c'
  }

  method CollectTags(objects: seq<Object>) returns (tags: seq<Json>)
    ensures tags == Tags(objects)
  {
    tags := [];
    for i := 0 to |objects|
      invariant tags == Tags(objects[..i])
    {
      assert objects[..i + 1][..i] == objects[..i];
      if Tag(objects[i]) != "" {
        tags := tags + [Str(Tag(objects[i]))];
      }
    }
    assert objects[..|objects|] == objects;
  }

  method CollectNames(users: seq<Object>) returns (names: seq<Json>)
    ensures names == Names(users)
  {
    names := [];
    for i := 0 to |users|
      invariant names == Names(users[..i])
    {
      assert users[..i + 1][..i] == users[..i];
      if Name(users[i]) != "" {
        names := names + [Str(Name(users[i]))];
      }
    }
    assert users[..|users|] == users;
  }

  method CollectStats(inbounds: seq<Object>) returns (tags: seq<Json>, names: seq<Json>)
    ensures tags == Tags(inbounds) && names == AllNames(inbounds)
  {
    tags := CollectTags(inbounds);
    names := [];
    for i := 0 to |inbounds|
      invariant names == AllNames(inbounds[..i])
    {
      assert inbounds[..i + 1][..i] == inbounds[..i];
      var users := AsMapSlice(Field(inbounds[i], "users"));
      var more := CollectNames(users);
      names := names + more;
    }
    assert inbounds[..|inbounds|] == inbounds;
  }

  method FilterServices(services: seq<Object>) returns (filtered: seq<Object>)
    ensures filtered == Others(services)
  {
    filtered := [];
    for i := 0 to |services|
      invariant filtered == Others(services[..i])
    {
      assert services[..i + 1][..i] == services[..i];
      if Tag(services[i]) != AUDIT_TAG {
        filtered := filtered + [services[i]];
      }
    }
    assert services[..|services|] == services;
  }

  method ApplySingBoxAPIConfig(config: Object, settings: Settings) returns (config': Object)
    ensures config' == Equipped(config, settings)
  {
    if config == map[] || settings.apiPort <= 0 {
      return config;
    }
    var c := EncodeSingBoxConfigUsers(config);
    var inbounds := AsMapSlice(Field(c, "inbounds"));
    var outbounds := AsMapSlice(Field(c, "outbounds"));
    var services := AsMapSlice(Field(c, "services"));
    var tags, names := CollectStats(inbounds);
    var outTags := CollectTags(outbounds);
    var experimental := ObjectAt(c, "experimental");
    var clash := ObjectAt(experimental, "clash_api")["external_controller" := Str(settings.controller)];
    if settings.token != "" {
      clash := clash["secret" := Str(settings.token)];
    } else {
      clash := clash - {"secret"};
    }
    experimental := experimental["v2ray_api" := Obj(map["listen" := Str(settings.statsAddress),
      "stats" := Obj(map["enabled" := Bool(true), "inbounds" := Arr(tags), "outbounds" := Arr(outTags),
          "users" := Arr(names)])])];
    experimental := experimental["clash_api" := Obj(clash)];
    config' := c["experimental" := Obj(experimental)];
    if settings.auditPort > 0 {
      var filtered := FilterServices(services);
      config' := config'["services" := ToAny(filtered + [AuditService(settings)])];
    }
  }

  lemma {:induction false} OthersTwice(services: seq<Object>)
    ensures Others(Others(services)) == Others(services)
  {
    if services != [] {
      var front := services[..|services| - 1];
      var last := services[|services| - 1];
      OthersTwice(front);
      OthersSnoc(Others(front), last);
      if Tag(last) == AUDIT_TAG {
        assert Others(services) == Others(front);
      } else {
        assert Others(services) == Others(front) + [last];
      }
    }
  }

  lemma OthersSnoc(services: seq<Object>, service: Object)
    ensures Others(services + [service]) == Others(services) + if Tag(service) == AUDIT_TAG then [] else [service]
  {
    assert (services + [service])[..|services|] == services;
  }

  lemma AuditIsTagged(settings: Settings)
    ensures Tag(AuditService(settings)) == AUDIT_TAG
  {
  }

  lemma OthersOfAudit(services: seq<Object>, audit: Object)
    requires Tag(audit) == AUDIT_TAG
    ensures Others(Objects(Items(ToAny(Others(services) + [audit])))) == Others(services)
  {
    ObjectsBack(Others(services) + [audit]);
    OthersSnoc(Others(services), audit);
    OthersTwice(services);
  }

  lemma ServicesTwice(config: Object, config': Object, settings: Settings)
    requires Field(config', "services") == Services(config, settings)
    ensures Services(config', settings) == Services(config, settings)
  {
    AuditIsTagged(settings);
    OthersOfAudit(Objects(Items(Field(config, "services"))), AuditService(settings));
  }

  lemma ExperimentalTwice(config: Object, config': Object, settings: Settings)
    requires Field(config', "experimental") == Obj(Experimental(config, settings))
    requires Field(config', "inbounds") == Field(config, "inbounds")
    requires Field(config', "outbounds") == Field(config, "outbounds")
    ensures Experimental(config', settings) == Experimental(config, settings)
  {
    var once := Experimental(config, settings);
    var clash := ClashApi(ObjectAt(config, "experimental"), settings).fields;
    assert ObjectAt(once, "clash_api") == clash;
    assert ClashApi(once, settings).fields == clash;
    assert StatsApi(config', settings) == StatsApi(config, settings);
    assert Experimental(config', settings) == once;
  }

  predicate Equips(config: Object, settings: Settings) { config != map[] && settings.apiPort > 0 }

  lemma EquippedFields(config: Object, settings: Settings)
    requires Equips(config, settings)
    ensures var c, once := Encoded(config), Equipped(config, settings);
            && Field(once, "inbounds") == Field(c, "inbounds") && Field(once, "outbounds") == Field(c, "outbounds")
            && Field(once, "experimental") == Obj(Experimental(c, settings))
            && (settings.auditPort > 0 ==> Field(once, "services") == Services(c, settings))
            && "experimental" in once && (settings.auditPort > 0 ==> "services" in once)
  {
  }

  /** Which address goes where; an old secret does not outlive an empty token. */
  lemma ApisListen(config: Object, settings: Settings)
    requires Equips(config, settings)
    ensures var experimental := ObjectAt(Equipped(config, settings), "experimental");
            var clash := ObjectAt(experimental, "clash_api");
            && Field(ObjectAt(experimental, "v2ray_api"), "listen") == Str(settings.statsAddress)
            && Field(clash, "external_controller") == Str(settings.controller)
            && Field(clash, "secret") == (if settings.token == "" then Null else Str(settings.token))
            && forall key :: key !in {"external_controller", "secret"} ==>
                 Field(clash, key) == Field(ObjectAt(ObjectAt(Encoded(config), "experimental"), "clash_api"), key)
  {
    EquippedFields(config, settings);
    var c := Encoded(config);
    ApiFields(c, ObjectAt(c, "experimental"), settings);
  }

  lemma ApiFields(config: Object, experimental: Object, settings: Settings)
    ensures StatsApi(config, settings).Obj? && ClashApi(experimental, settings).Obj?
    ensures Field(StatsApi(config, settings).fields, "listen") == Str(settings.statsAddress)
    ensures var clash, before := ClashApi(experimental, settings).fields, ObjectAt(experimental, "clash_api");
            && Field(clash, "external_controller") == Str(settings.controller)
            && Field(clash, "secret") == (if settings.token == "" then Null else Str(settings.token))
            && forall key :: key !in {"external_controller", "secret"} ==> Field(clash, key) == Field(before, key)
  {
  }

  lemma EncodedAgain(config: Object, settings: Settings)
    requires Equips(config, settings)
    ensures Encoded(Equipped(config, settings)) == Equipped(config, settings) <==> AllCarried(Inbounds(config))
    ensures !AllCarried(Inbounds(config)) ==>
              Inbounds(Encoded(Equipped(config, settings))) != Inbounds(Equipped(config, settings))
  {
    EquippedFields(config, settings);
    EncodedItemsTwice(Inbounds(config));
    var once := Equipped(config, settings);
    assert Inbounds(once) == EncodedItems(Inbounds(config));
    assert !AllCarried(Inbounds(config)) ==> Field(config, "inbounds").Arr?;
    assert Encoded(once) == WithInbounds(once, EncodedItems(Inbounds(once)));
  }

  lemma EquippedUnchanged(once: Object, settings: Settings)
    requires Equips(once, settings) && Encoded(once) == once && "experimental" in once
    requires (settings.auditPort > 0 ==> "services" in once)
    requires Field(once, "experimental") == Obj(Experimental(once, settings))
    requires settings.auditPort > 0 ==> Field(once, "services") == Services(once, settings)
    ensures Equipped(once, settings) == once
  {
  }

  lemma EquippedInbounds(config: Object, settings: Settings)
    requires Equips(config, settings)
    ensures Inbounds(Equipped(config, settings)) == Inbounds(Encoded(config))
  {
    EquippedFields(config, settings);
  }

  /** Equipping an equipped configuration changes nothing exactly when its users can be carried: a
      restart with the stored configuration then writes the bytes that are already there. */
  lemma EquippedTwice(config: Object, settings: Settings)
    requires Equips(config, settings)
    ensures Equipped(Equipped(config, settings), settings) == Equipped(config, settings) <==>
              AllCarried(Inbounds(config))
  {
    var c, once := Encoded(config), Equipped(config, settings);
    EquippedFields(config, settings);
    EncodedAgain(config, settings);
    if AllCarried(Inbounds(config)) {
      ExperimentalTwice(c, once, settings);
      if settings.auditPort > 0 {
        ServicesTwice(c, once, settings);
      }
      EquippedUnchanged(once, settings);
    } else {
      EquippedInbounds(once, settings);
    }
  }

  lemma EquippedKeys(config: Object, settings: Settings)
    ensures Equipped(config, settings).Keys == config.Keys +
            if Equips(config, settings) then {"experimental"} + if settings.auditPort > 0 then {"services"} else {}
                else {}
  {
    assert Encoded(config).Keys == config.Keys;
  }

  /** Equipping never changes which users are indexed, as long as their identifiers are plain. */
  lemma EquippedEntries(config: Object, settings: Settings)
    requires Equips(config, settings)
    ensures Entries(Inbounds(Equipped(config, settings))) == Entries(Inbounds(config)) <==>
              PlainEntries(Entries(Inbounds(config)))
  {
    EncodedEntries(Inbounds(config));
    EquippedInbounds(config, settings);
  }

  lemma {:induction false} EncodedItemsSameShape(items: seq<Json>)
    ensures AllSameButUsers(items, EncodedItems(items))
  {
    if items != [] {
      EncodedItemsSameShape(items[..|items| - 1]);
    }
  }

  /** Equipping touches nothing but the users of any inbound. */
  lemma EquippedSameInbounds(config: Object, settings: Settings)
    ensures AllSameButUsers(Inbounds(config), Inbounds(Equipped(config, settings)))
  {
    if Equips(config, settings) {
      EncodedItemsSameShape(Inbounds(config));
      WithInboundsSameShape(config, EncodedItems(Inbounds(config)));
      EquippedInbounds(config, settings);
    }
  }

  // ---------------------------------------------------------------- what the statistics API is told

  /** Where the core's statistics API finds the users, and the inbounds, it counts for. */
  function StatsField(config: Object, key: string): seq<Json> {
    Items(Field(ObjectAt(ObjectAt(ObjectAt(config, "experimental"), "v2ray_api"), "stats"), key))
  }

  function PrintedUser(user: Object, tag: Octets): seq<Json> {
    if Name(user) == "" then [] else [Str(if tag == "" then Name(user) else StatsName(OctetsOfUserID(Name(user)), tag))]
  }

  /** The encoded names of an inbound's named users, in order. */
  function PrintedUsers(users: seq<Object>, tag: Octets): seq<Json> {
    if users == [] then [] else PrintedUsers(users[..|users| - 1], tag) + PrintedUser(users[|users| - 1], tag)
  }

  function PrintedItem(item: Json): seq<Json> {
    if item.Obj? then PrintedUsers(Users(item.fields), Tag(item.fields)) else []
  }

  /** The encoded names of every listed user, inbound by inbound. */
  function Printed(items: seq<Json>): seq<Json> {
    if items == [] then [] else Printed(items[..|items| - 1]) + PrintedItem(items[|items| - 1])
  }

  lemma {:induction false} NamesOfEncoded(users: seq<Object>, tag: Octets)
    requires tag != ""
    ensures Names(EncodedUsers(users, tag)) == PrintedUsers(users, tag)
  {
    if users != [] {
      var front, user := users[..|users| - 1], users[|users| - 1];
      NamesOfEncoded(front, tag);
      NamesSnoc(EncodedUsers(front, tag), EncodedUser(user, tag));
      EncodedUserName(user, tag);
    }
  }

  lemma NamesSnoc(users: seq<Object>, user: Object)
    ensures Names(users + [user]) == Names(users) + if Name(user) == "" then [] else [Str(Name(user))]
  {
    assert (users + [user])[..|users|] == users;
  }

  lemma {:induction false} NamesUntagged(users: seq<Object>)
    ensures Names(users) == PrintedUsers(users, "")
  {
    if users != [] {
      NamesUntagged(users[..|users| - 1]);
    }
  }

  lemma AllNamesSnoc(items: seq<Json>, item: Json)
    ensures AllNames(Objects(items + [item])) == AllNames(Objects(items)) + if item.Obj? then Names(Users(item.fields))
              else []
  {
    assert (items + [item])[..|items|] == items;
    if item.Obj? {
      assert (Objects(items) + [item.fields])[..|Objects(items)|] == Objects(items);
    } else {
      assert Objects(items) + [] == Objects(items);
    }
  }

  lemma NamesOfItem(item: Json)
    requires item.Obj?
    ensures Names(Users(EncodedItem(item).fields)) == PrintedUsers(Users(item.fields), Tag(item.fields))
  {
    if Tag(item.fields) == "" {
      NamesUntagged(Users(item.fields));
    } else {
      ObjectsBack(EncodedUsers(Users(item.fields), Tag(item.fields)));
      NamesOfEncoded(Users(item.fields), Tag(item.fields));
    }
  }

  lemma {:induction false} AllNamesPrinted(items: seq<Json>)
    ensures AllNames(Objects(EncodedItems(items))) == Printed(items)
  {
    if items != [] {
      var front, last := items[..|items| - 1], items[|items| - 1];
      AllNamesPrinted(front);
      AllNamesSnoc(EncodedItems(front), EncodedItem(last));
      if last.Obj? {
        NamesOfItem(last);
      }
    }
  }

  lemma StatsFields(config: Object, settings: Settings)
    requires Equips(config, settings)
    ensures StatsField(Equipped(config, settings), "users") == AllNames(Objects(Inbounds(Encoded(config))))
    ensures StatsField(Equipped(config, settings), "inbounds") == Tags(Objects(Inbounds(Encoded(config))))
  {
    EquippedFields(config, settings);
    var c := Encoded(config);
    var experimental := Experimental(c, settings);
    assert Field(experimental, "v2ray_api") == StatsApi(c, settings);
    StatsApiFields(c, settings);
  }

  lemma StatsApiFields(c: Object, settings: Settings)
    ensures Field(ObjectAt(StatsApi(c, settings).fields, "stats"), "users") == Arr(AllNames(Objects(Inbounds(c))))
    ensures Field(ObjectAt(StatsApi(c, settings).fields, "stats"), "inbounds") == Arr(Tags(Objects(Inbounds(c))))
  {
  }

  /** The core counts for exactly the encoded names of the users the configuration lists, in order. */
  lemma StatsUsersAreEncodedNames(config: Object, settings: Settings)
    requires Equips(config, settings)
    ensures StatsField(Equipped(config, settings), "users") == Printed(Inbounds(config))
  {
    StatsFields(config, settings);
    AllNamesPrinted(Inbounds(config));
    assert Inbounds(Encoded(config)) == EncodedItems(Inbounds(config));
  }

  /** The user identifiers a reader of the statistics gets back. */
  function ReadBack(names: seq<Json>): seq<string> {
    if names == [] then [] else ReadBack(names[..|names| - 1]) + [UserID(StringValue(names[|names| - 1]))]
  }

  function Identifiers(entries: seq<InboundUser>): seq<string> {
    if entries == [] then [] else Identifiers(entries[..|entries| - 1]) + [entries[|entries| - 1].userID]
  }

  /** Every inbound with named users has a tag and a type, and so is indexed. */
  ghost predicate FullyIndexed(items: seq<Json>) {
    forall i :: 0 <= i < |items| && PrintedItem(items[i]) != [] ==> Indexed(items[i])
  }

  lemma {:induction false} ReadBackConcat(a: seq<Json>, b: seq<Json>)
    ensures ReadBack(a + b) == ReadBack(a) + ReadBack(b)
  {
    if b == [] {
      assert a + b == a;
    } else {
      assert (a + b)[..|a + b| - 1] == a + b[..|b| - 1];
      ReadBackConcat(a, b[..|b| - 1]);
    }
  }

  lemma {:induction false} IdentifiersConcat(a: seq<InboundUser>, b: seq<InboundUser>)
    ensures Identifiers(a + b) == Identifiers(a) + Identifiers(b)
  {
    if b == [] {
      assert a + b == a;
    } else {
      assert (a + b)[..|a + b| - 1] == a + b[..|b| - 1];
      IdentifiersConcat(a, b[..|b| - 1]);
    }
  }

  lemma PlainParts(a: seq<InboundUser>, b: seq<InboundUser>)
    requires PlainEntries(a + b)
    ensures PlainEntries(a) && PlainEntries(b)
  {
    assert forall e :: e in a || e in b ==> e in a + b;
  }

  lemma ReadBackUser(user: Object, tag: Octets, protocol: string)
    requires tag != "" && PlainEntries(UserEntry(user, tag, protocol))
    ensures ReadBack(PrintedUser(user, tag)) == Identifiers(UserEntry(user, tag, protocol))
  {
    if Name(user) != "" {
      var userID := UserID(Name(user));
      assert UserEntry(user, tag, protocol)[0] in UserEntry(user, tag, protocol);
      ParseOfUserInbound(userID, tag);
      ReadBackOne(StatsName(OctetsOfUserID(Name(user)), tag));
      assert Identifiers([]) == [];
    }
  }

  lemma ReadBackOne(text: Octets)
    ensures ReadBack([Str(text)]) == [UserID(text)]
  {
    assert ReadBack([]) == [];
  }

  lemma {:induction false} ReadBackUsers(users: seq<Object>, tag: Octets, protocol: string)
    requires tag != "" && PlainEntries(UserEntries(users, tag, protocol))
    ensures ReadBack(PrintedUsers(users, tag)) == Identifiers(UserEntries(users, tag, protocol))
  {
    if users != [] {
      var front, user := users[..|users| - 1], users[|users| - 1];
      PlainParts(UserEntries(front, tag, protocol), UserEntry(user, tag, protocol));
      ReadBackUsers(front, tag, protocol);
      ReadBackUser(user, tag, protocol);
      IdentifiersConcat(UserEntries(front, tag, protocol), UserEntry(user, tag, protocol));
      ReadBackConcat(PrintedUsers(front, tag), PrintedUser(user, tag));
    }
  }

  lemma ReadBackItem(item: Json)
    requires PlainEntries(EntriesOf(item)) && (PrintedItem(item) != [] ==> Indexed(item))
    ensures ReadBack(PrintedItem(item)) == Identifiers(EntriesOf(item))
  {
    if Indexed(item) {
      ReadBackUsers(Users(item.fields), Tag(item.fields), Protocol(item.fields));
    }
  }

  lemma ReadBackParts(names: seq<Json>, more: seq<Json>, entries: seq<InboundUser>, others: seq<InboundUser>)
    requires ReadBack(names) == Identifiers(entries) && ReadBack(more) == Identifiers(others)
    ensures ReadBack(names + more) == Identifiers(entries + others)
  {
    IdentifiersConcat(entries, others);
    ReadBackConcat(names, more);
  }

  lemma FullyIndexedParts(items: seq<Json>)
    requires items != [] && FullyIndexed(items)
    ensures FullyIndexed(items[..|items| - 1])
    ensures (PrintedItem(items[|items| - 1]) != [] ==> Indexed(items[|items| - 1]))
  {
    var front := items[..|items| - 1];
    assert forall i :: 0 <= i < |front| ==> front[i] == items[i];
  }

  lemma {:induction false} ReadBackIsIndex(items: seq<Json>)
    requires FullyIndexed(items) && PlainEntries(Entries(items))
    ensures ReadBack(Printed(items)) == Identifiers(Entries(items))
  {
    if items != [] {
      var front, last := items[..|items| - 1], items[|items| - 1];
      FullyIndexedParts(items);
      PlainParts(Entries(front), EntriesOf(last));
      ReadBackIsIndex(front);
      ReadBackItem(last);
      ReadBackParts(Printed(front), PrintedItem(last), Entries(front), EntriesOf(last));
    }
  }

  /** With plain identifiers the statistics are read back as exactly the indexed users, in order. */
  lemma StatsReadBackAsIndex(config: Object, settings: Settings)
    requires Equips(config, settings) && FullyIndexed(Inbounds(config)) && PlainEntries(Entries(Inbounds(config)))
    ensures ReadBack(StatsField(Equipped(config, settings), "users")) == Identifiers(Entries(Inbounds(config)))
  {
    StatsUsersAreEncodedNames(config, settings);
    ReadBackIsIndex(Inbounds(config));
  }

  lemma OthersAndOne(services: seq<Object>, audit: Object, field: Json)
    requires Tag(audit) == AUDIT_TAG && field == ToAny(Others(services) + [audit])
    ensures Objects(Items(field)) == Others(services) + [audit]
    ensures Others(Others(services) + [audit]) == Others(services)
  {
    ObjectsBack(Others(services) + [audit]);
    OthersSnoc(Others(services), audit);
    OthersTwice(services);
  }

  /** Exactly one service carries the audit tag, and all other services stay as they were. */
  lemma OneAuditService(config: Object, settings: Settings)
    requires Equips(config, settings) && settings.auditPort > 0
    ensures var services := Objects(Items(Field(Equipped(config, settings), "services")));
            && Others(services) == Others(Objects(Items(Field(config, "services"))))
            && |services| == |Others(services)| + 1 && services[|services| - 1] == AuditService(settings)
  {
    EquippedFields(config, settings);
    EncodedKeepsServices(config);
    AuditIsTagged(settings);
    OthersAndOne(Objects(Items(Field(config, "services"))), AuditService(settings),
        Field(Equipped(config, settings), "services"));
  }

  lemma EncodedKeepsServices(config: Object)
    ensures Field(Encoded(config), "services") == Field(config, "services")
  {
  }
}
