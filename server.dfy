/**
 * The Hono backend: a key-value store of JSON records under keys
 * `user:<id>`, `product:<id>`, `batch:<id>` and `session:<token>`, the
 * session check every route starts with, login and logout, the CRUD routes
 * of products, batches and users, and the seeding of an empty store.
 * Clock readings, `Date.now()` ids and `crypto.randomUUID()` tokens are
 * parameters.
 */
module Server {
  import opened Wrappers
  import opened Seqs

  // ---------------------------------------------------------------------------
  // Records and keys.

  /** The JSON values the records hold: text (ids, names, dates) and numbers (quantities). */
  datatype Val = Str(s: string) | Num(n: int)

  /** A JSON object; `{...a, ...b}` is the map union `a + b`, where `b` wins. */
  type Record = map<string, Val>

  /** One row of `kv.getByPrefix`. */
  datatype Entry = Entry(key: string, value: Record)

  const UserPrefix := "user:"
  const ProductPrefix := "product:"
  const BatchPrefix := "batch:"
  const SessionPrefix := "session:"

  predicate HasPrefix(k: string, prefix: string)
  {
    |prefix| <= |k| && k[..|prefix|] == prefix
  }

  /** The key `prefix + id` starts with `prefix`, and `id` is what follows it. */
  lemma PrefixKey(prefix: string, id: string)
    ensures HasPrefix(prefix + id, prefix) && (prefix + id)[|prefix|..] == id
  {
    assert (prefix + id)[..|prefix|] == prefix;
  }

  /** A key under `prefix` is `prefix` followed by what comes after it. */
  lemma SplitKey(k: string, prefix: string)
    requires HasPrefix(k, prefix)
    ensures k == prefix + k[|prefix|..]
  {
  }

  /** A record stored under an entity key carries that key's id. */
  predicate KeyedBy(k: string, r: Record, prefix: string)
  {
    HasPrefix(k, prefix) ==> "id" in r && r["id"] == Str(k[|prefix|..])
  }

  /** What the routes keep true of every entry: ids match keys, sessions name a user id. */
  predicate RecordFits(k: string, r: Record)
  {
    && KeyedBy(k, r, UserPrefix)
    && KeyedBy(k, r, ProductPrefix)
    && KeyedBy(k, r, BatchPrefix)
    && (HasPrefix(k, SessionPrefix) ==> "userId" in r && r["userId"].Str?)
  }

  predicate AllFit(store: map<string, Record>)
  {
    forall k :: k in store ==> RecordFits(k, store[k])
  }

  /** A record whose `id` is `id` fits under `prefix + id` for each entity prefix. */
  lemma EntityKeyFits(prefix: string, id: string, r: Record)
    requires prefix == UserPrefix || prefix == ProductPrefix || prefix == BatchPrefix
    requires "id" in r && r["id"] == Str(id)
    ensures RecordFits(prefix + id, r)
  {
    PrefixKey(prefix, id);
    var k := prefix + id;
    assert k[0] == prefix[0];
  }

  lemma SessionKeyFits(token: string, r: Record)
    requires "userId" in r && r["userId"].Str?
    ensures RecordFits(SessionPrefix + token, r)
  {
    PrefixKey(SessionPrefix, token);
    var k := SessionPrefix + token;
    assert k[0] == 's';
  }

  /** Removing entries keeps every remaining one as it was. */
  lemma RemoveFits(store: map<string, Record>, keys: set<string>)
    requires AllFit(store)
    ensures AllFit(store - keys)
  {
  }

  /** `{...old, ...updates, id}`: the updates win over the stored fields and the path id wins over both. */
  function Merged(stored: Record, updates: Record, id: string): (r: Record)
    ensures "id" in r && r["id"] == Str(id)
    ensures forall f :: f in updates && f != "id" ==> f in r && r[f] == updates[f]
    ensures forall f :: f in stored && f !in updates && f != "id" ==> f in r && r[f] == stored[f]
    ensures r.Keys == stored.Keys + updates.Keys + {"id"}
  {
    stored + updates + map["id" := Str(id)]
  }

  /** `const { password, ...rest } = record`. */
  function StripPassword(r: Record): (s: Record)
    ensures "password" !in s
    ensures forall f :: f in r && f != "password" ==> f in s && s[f] == r[f]
    ensures s.Keys == r.Keys - {"password"}
  {
    r - {"password"}
  }

  // ---------------------------------------------------------------------------
  // Sessions and access.

  /** `!sessionToken` is false for a header that is present and not empty. */
  predicate PresentToken(token: Option<string>)
  {
    token.Some? && token.value != ""
  }

  /**
   * `verifyUser`: no user without a token or without a session under it;
   * otherwise the record stored under `user:<session.userId>`, if any.
   */
  function VerifyUser(store: map<string, Record>, token: Option<string>): (u: Option<Record>)
    ensures u.Some? ==> PresentToken(token) && SessionPrefix + token.value in store
    ensures u.Some? ==> exists k :: k in store && HasPrefix(k, UserPrefix) && store[k] == u.value
  {
    if !PresentToken(token) then None
    else
      var sk := SessionPrefix + token.value;
      if sk !in store then None
      else
        var session := store[sk];
        if "userId" in session && session["userId"].Str? then
          var uk := UserPrefix + session["userId"].s;
          PrefixKey(UserPrefix, session["userId"].s);
          if uk in store then Some(store[uk]) else None
        else None
  }

  /**
   * For any stored session, the check answers with a user exactly when a
   * user record with the session's `userId` is stored, and then it is that
   * user: a deleted user's sessions stop passing.
   */
  lemma VerifyUserIsTheSessionsUser(store: map<string, Record>, t: string)
    requires AllFit(store) && t != "" && SessionPrefix + t in store
    ensures var uid := store[SessionPrefix + t]["userId"];
      && (VerifyUser(store, Some(t)).Some? <==>
            exists k :: k in store && HasPrefix(k, UserPrefix) && store[k]["id"] == uid)
      && (VerifyUser(store, Some(t)).Some? ==> VerifyUser(store, Some(t)).value["id"] == uid)
  {
    var sk := SessionPrefix + t;
    PrefixKey(SessionPrefix, t);
    assert RecordFits(sk, store[sk]);
    var uid := store[sk]["userId"];
    var uk := UserPrefix + uid.s;
    PrefixKey(UserPrefix, uid.s);
    if uk in store {
      assert RecordFits(uk, store[uk]);
    }
    forall k | k in store && HasPrefix(k, UserPrefix) && store[k]["id"] == uid ensures k == uk {
      assert RecordFits(k, store[k]);
      SplitKey(k, UserPrefix);
    }
  }

  predicate IsAdmin(u: Record)
  {
    "role" in u && u["role"] == Str("admin")
  }

  /** Which callers a route admits: any signed-in user (401 otherwise) or administrators (403 otherwise). */
  datatype Access = AnyUser | AdminOnly

  predicate Allowed(u: Option<Record>, access: Access)
  {
    u.Some? && (access == AdminOnly ==> IsAdmin(u.value))
  }

  // ---------------------------------------------------------------------------
  // Replies.

  datatype Reply =
    | LoggedIn(user: Record, token: string)
    | Listed(records: seq<Record>)
    | Stored(record: Record)
    | Done
    | Failed(status: int, error: string)

  function Denied(access: Access): Reply
  {
    if access == AnyUser then Failed(401, "No autorizado") else Failed(403, "No autorizado")
  }

  // ---------------------------------------------------------------------------
  // Login.

  predicate HasEmail(u: Record, email: string)
  {
    "email" in u && u["email"] == Str(email)
  }

  function HasEmailFn(email: string): Record -> bool
  {
    (u: Record) => HasEmail(u, email)
  }

  /** `users.find(u => u.email === email)`. */
  function FirstWithEmail(users: seq<Record>, email: string): (r: Option<Record>)
    ensures r.None? <==> forall j :: 0 <= j < |users| ==> !HasEmail(users[j], email)
    ensures r.Some? ==> r.value in users && HasEmail(r.value, email)
    ensures r.Some? ==>
      exists i ::
        && 0 <= i < |users| && users[i] == r.value
        && (forall j :: 0 <= j < i ==> !HasEmail(users[j], email))
  {
    match FindIndex(users, HasEmailFn(email))
    case None => None
    case Some(i) =>
      assert forall j :: 0 <= j < i ==> !HasEmailFn(email)(users[j]);
      Some(users[i])
  }

  predicate PasswordMatches(u: Record, password: string)
  {
    "password" in u && u["password"] == Str(password)
  }

  predicate IsInactive(u: Record)
  {
    "status" in u && u["status"] == Str("inactive")
  }

  datatype Decision = Reject(status: int, error: string) | Admit(user: Record)

  /**
   * The checks of the login route in their order: an unknown email and then
   * a wrong password are 401, then an inactive account is 403.
   */
  function LoginDecision(found: Option<Record>, password: string): (d: Decision)
    ensures d == Reject(401, "Credenciales incorrectas") <==>
      found.None? || !PasswordMatches(found.value, password)
    ensures d == Reject(403, "Usuario inactivo") <==>
      found.Some? && PasswordMatches(found.value, password) && IsInactive(found.value)
    ensures d.Admit? <==>
      found.Some? && PasswordMatches(found.value, password) && !IsInactive(found.value)
    ensures d.Admit? ==> d.user == found.value
  {
    if found.None? then Reject(401, "Credenciales incorrectas")
    else if !PasswordMatches(found.value, password) then Reject(401, "Credenciales incorrectas")
    else if IsInactive(found.value) then Reject(403, "Usuario inactivo")
    else Admit(found.value)
  }

  function SessionRecord(token: string, userId: Val, now: string): Record
  {
    map["token" := Str(token), "userId" := userId, "createdAt" := Str(now)]
  }

  /** The guest as the login reply shows it. */
  const GuestPublic: Record := map[
    "id" := Str("guest"), "name" := Str("Usuario Invitado"),
    "email" := Str("invitado@scacompany.com"), "role" := Str("user")]

  /** The guest as stored: the public fields with password, status and creation time. */
  function GuestRecord(now: string): Record
  {
    GuestPublic + map["password" := Str("guest"), "status" := Str("active"), "createdAt" := Str(now)]
  }

  predicate IsGuestLogin(email: string, password: string)
  {
    email == "guest" && password == "guest"
  }

  /** The store after a successful login of `u` with `token`. */
  function WithSession(store: map<string, Record>, u: Record, token: string, now: string): map<string, Record>
    requires "id" in u
  {
    store[SessionPrefix + token := SessionRecord(token, u["id"], now)]
  }

  /**
   * `matched` is what `users.find` can return: none when no stored user has
   * the email, otherwise one stored user that has it.
   */
  predicate MatchedBy(store: map<string, Record>, email: string, matched: Option<Record>)
  {
    && (matched.None? <==> forall k :: k in store && HasPrefix(k, UserPrefix) ==> !HasEmail(store[k], email))
    && (matched.Some? ==>
          && HasEmail(matched.value, email)
          && exists k :: k in store && HasPrefix(k, UserPrefix) && store[k] == matched.value && "id" in store[k])
  }

  /** The reply and the new store of the credentials branch, given the matched user. */
  predicate LoginEffect(before: map<string, Record>, after: map<string, Record>, matched: Option<Record>,
                        password: string, token: string, now: string, reply: Reply)
  {
    match LoginDecision(matched, password)
    case Reject(status, error) => reply == Failed(status, error) && after == before
    case Admit(u) =>
      && "id" in u
      && reply == LoggedIn(StripPassword(u), token)
      && after == WithSession(before, u, token, now)
  }

  /** The user keys and the session keys never meet. */
  lemma UserKeyIsNotSessionKey(k: string, token: string)
    requires HasPrefix(k, UserPrefix)
    ensures k != SessionPrefix + token
  {
    assert k[0] == 'u';
    assert (SessionPrefix + token)[0] == 's';
  }

  /** A user who has just signed in passes the session check with the token the login returned. */
  lemma LoginThenVerify(store: map<string, Record>, k: string, token: string, now: string)
    requires AllFit(store)
    requires k in store && HasPrefix(k, UserPrefix)
    requires token != ""
    ensures "id" in store[k]
    ensures VerifyUser(WithSession(store, store[k], token, now), Some(token)) == Some(store[k])
  {
    var u := store[k];
    assert RecordFits(k, u);
    SplitKey(k, UserPrefix);
    UserKeyIsNotSessionKey(k, token);
    var s := WithSession(store, u, token, now);
    assert s[SessionPrefix + token]["userId"] == Str(k[|UserPrefix|..]);
    assert UserPrefix + k[|UserPrefix|..] == k;
  }

  /** The guest passes the session check with the token its login returned. */
  lemma GuestLoginThenVerify(store: map<string, Record>, token: string, now: string)
    requires token != ""
    ensures var s := store[UserPrefix + "guest" := GuestRecord(now)];
      VerifyUser(WithSession(s, GuestRecord(now), token, now), Some(token)) == Some(GuestRecord(now))
  {
    PrefixKey(UserPrefix, "guest");
    UserKeyIsNotSessionKey(UserPrefix + "guest", token);
  }

  /** After logout the token no longer passes the session check. */
  lemma LogoutEndsSession(store: map<string, Record>, token: string)
    ensures VerifyUser(store - {SessionPrefix + token}, Some(token)) == None
  {
  }

  // ---------------------------------------------------------------------------
  // Entities and their routes.

  datatype Entity = Products | Batches | Users

  function Prefix(e: Entity): string
  {
    match e
    case Products => ProductPrefix
    case Batches => BatchPrefix
    case Users => UserPrefix
  }

  /** Listing products or batches needs a session; listing users needs an administrator. */
  function ListAccess(e: Entity): Access
  {
    if e == Users then AdminOnly else AnyUser
  }

  /** Changing products or users needs an administrator; changing batches, a session. */
  function WriteAccess(e: Entity): Access
  {
    if e == Batches then AnyUser else AdminOnly
  }

  function NotFound(e: Entity): string
  {
    match e
    case Products => "Producto no encontrado"
    case Batches => "Lote no encontrado"
    case Users => "Usuario no encontrado"
  }

  /** What a reply shows of a record: users lose their password. */
  function Shown(e: Entity, r: Record): (s: Record)
    ensures e == Users ==> "password" !in s
    ensures e != Users ==> s == r
  {
    if e == Users then StripPassword(r) else r
  }

  /** The record `POST` stores: the body with the new id, and for users the status `active` and the creation time. */
  function Created(e: Entity, body: Record, id: string, now: string): (r: Record)
    ensures "id" in r && r["id"] == Str(id)
    ensures e == Users ==> "status" in r && r["status"] == Str("active")
    ensures e == Users ==> "createdAt" in r && r["createdAt"] == Str(now)
    ensures forall f :: f in body && f != "id" && (e == Users ==> f != "status" && f != "createdAt") ==>
      f in r && r[f] == body[f]
    ensures r.Keys == body.Keys + {"id"} + (if e == Users then {"status", "createdAt"} else {})
  {
    if e == Users then body + map["id" := Str(id), "status" := Str("active"), "createdAt" := Str(now)]
    else body + map["id" := Str(id)]
  }

  predicate OfProductRecord(r: Record, id: string)
  {
    "productId" in r && r["productId"] == Str(id)
  }

  /** The batch keys the product delete removes. */
  function BatchKeysOf(store: map<string, Record>, id: string): set<string>
  {
    set k | k in store && HasPrefix(k, BatchPrefix) && OfProductRecord(store[k], id)
  }

  // ---------------------------------------------------------------------------
  // Seeding.

  /** The seeded administrators. */
  function Admin(id: string, name: string, email: string, password: string, now: string): (r: Record)
    ensures "id" in r && r["id"] == Str(id)
  {
    map["id" := Str(id), "name" := Str(name), "email" := Str(email), "password" := Str(password),
        "role" := Str("admin"), "status" := Str("active"), "createdAt" := Str(now)]
  }

  function ProductSeed(id: string, name: string, category: string, unit: string): (r: Record)
    ensures HasTextId(r)
  {
    map["id" := Str(id), "name" := Str(name), "category" := Str(category), "unit" := Str(unit)]
  }

  function BatchSeed(id: string, productId: string, productName: string, batchNumber: string,
                     quantity: int, entryDate: string, expirationDate: string): (r: Record)
    ensures HasTextId(r)
  {
    map["id" := Str(id), "productId" := Str(productId), "productName" := Str(productName),
        "batchNumber" := Str(batchNumber), "quantity" := Num(quantity),
        "entryDate" := Str(entryDate), "expirationDate" := Str(expirationDate)]
  }

  const SeedProducts: seq<Record> := [
    ProductSeed("1", "Harina de Trigo", "Materia Prima", "kg"),
    ProductSeed("2", "Azúcar Refinada", "Materia Prima", "kg"),
    ProductSeed("3", "Aceite Vegetal", "Materia Prima", "L"),
    ProductSeed("4", "Galletas Chocolate", "Producto Terminado", "cajas"),
    ProductSeed("5", "Pan de Molde", "Producto Terminado", "unidades")
  ]

  const SeedBatches: seq<Record> := [
    BatchSeed("1", "1", "Harina de Trigo", "L001", 500, "2024-09-30", "2025-03-31"),
    BatchSeed("2", "1", "Harina de Trigo", "L002", 300, "2024-10-09", "2025-04-09"),
    BatchSeed("3", "2", "Azúcar Refinada", "L003", 1000, "2024-09-14", "2026-09-14"),
    BatchSeed("4", "4", "Galletas Chocolate", "L004", 200, "2024-10-11", "2025-01-11"),
    BatchSeed("5", "5", "Pan de Molde", "L005", 150, "2024-10-13", "2024-11-13")
  ]

  /** Every seed record carries a text id. */
  predicate HasTextId(r: Record)
  {
    "id" in r && r["id"].Str?
  }

  /** `for (const r of records) await kv.set(prefix + r.id, r)`. */
  function SetAll(store: map<string, Record>, prefix: string, records: seq<Record>): (s: map<string, Record>)
    requires forall j :: 0 <= j < |records| ==> HasTextId(records[j])
    ensures store.Keys <= s.Keys
    decreases |records|
  {
    if records == [] then store
    else
      var last := records[|records| - 1];
      assert HasTextId(last);
      SetAll(store, prefix, records[..|records| - 1])[prefix + last["id"].s := last]
  }

  predicate HasUsers(store: map<string, Record>)
  {
    exists k :: k in store && HasPrefix(k, UserPrefix)
  }

  /** The store after `initializeData`: seeded when it holds no user, untouched otherwise. */
  function Initialized(store: map<string, Record>, now: string): (s: map<string, Record>)
    ensures HasUsers(store) ==> s == store
    ensures store.Keys <= s.Keys
  {
    if HasUsers(store) then store
    else SetAll(SetAll(WithAdmins(store, now), ProductPrefix, SeedProducts), BatchPrefix, SeedBatches)
  }

  /** The two seeded administrators added to the store. */
  function WithAdmins(store: map<string, Record>, now: string): map<string, Record>
  {
    store[UserPrefix + "1" := Admin("1", "Administrador 1", "admin@scacompany.com", "1107099153", now)]
         [UserPrefix + "2" := Admin("2", "Administrador 2", "admin2@scacompany.com", "1058548629", now)]
  }

  /** After `initializeData` the store holds users, whatever it held before. */
  lemma InitializedHasUsers(store: map<string, Record>, now: string)
    ensures HasUsers(Initialized(store, now))
  {
    if !HasUsers(store) {
      PrefixKey(UserPrefix, "2");
      var k := UserPrefix + "2";
      assert k in WithAdmins(store, now);
      assert k in Initialized(store, now) && HasPrefix(k, UserPrefix);
    }
  }

  /** A second `initializeData`, at any time, changes nothing. */
  lemma InitializeTwice(store: map<string, Record>, now: string, later: string)
    ensures Initialized(Initialized(store, now), later) == Initialized(store, now)
  {
    InitializedHasUsers(store, now);
  }

  // ---------------------------------------------------------------------------
  // Enumerating a prefix.

  /**
   * Part way through `getByPrefix`: every entry listed so far is a stored
   * entry under the prefix, not pending and listed once; every key under the
   * prefix is pending or listed.
   */
  ghost predicate Enumerating(store: map<string, Record>, prefix: string, pending: set<string>, items: seq<Entry>)
  {
    && (forall j :: 0 <= j < |items| ==>
          items[j].key in store && HasPrefix(items[j].key, prefix) && items[j].value == store[items[j].key]
          && items[j].key !in pending)
    && (forall k :: k in store && HasPrefix(k, prefix) ==>
          k in pending || exists j :: 0 <= j < |items| && items[j].key == k)
    && (forall i, j :: 0 <= i < j < |items| ==> items[i].key != items[j].key)
    && (forall k :: k in pending ==> k in store && HasPrefix(k, prefix))
  }

  /** Listing one pending key moves it from the pending set to the entries. */
  lemma EnumerateOne(store: map<string, Record>, prefix: string, pending: set<string>, items: seq<Entry>, k: string)
    requires Enumerating(store, prefix, pending, items) && k in pending
    ensures Enumerating(store, prefix, pending - {k}, items + [Entry(k, store[k])])
  {
    var next := items + [Entry(k, store[k])];
    forall k' | k' in store && HasPrefix(k', prefix) && k' !in pending - {k}
      ensures exists j :: 0 <= j < |next| && next[j].key == k'
    {
      if k' == k {
        assert next[|items|].key == k;
      } else {
        var j :| 0 <= j < |items| && items[j].key == k';
        assert next[j] == items[j];
      }
    }
  }

  function KeysOf(items: seq<Entry>): (ks: seq<string>)
    ensures |ks| == |items| && forall j :: 0 <= j < |items| ==> ks[j] == items[j].key
  {
    seq(|items|, j requires 0 <= j < |items| => items[j].key)
  }

  /** `items.map(item => item.value)`, users without their password. */
  function RecordsOf(e: Entity, items: seq<Entry>): (rs: seq<Record>)
    ensures |rs| == |items| && forall j :: 0 <= j < |items| ==> rs[j] == Shown(e, items[j].value)
  {
    seq(|items|, j requires 0 <= j < |items| => Shown(e, items[j].value))
  }

  /**
   * A full enumeration of the entity's prefix lists every stored record of
   * the kind once: each listed record is the shown form of a distinct stored
   * entry, and every stored entry is listed.
   */
  lemma ListingOfEntries(store: map<string, Record>, e: Entity, items: seq<Entry>)
    requires Enumerating(store, Prefix(e), {}, items)
    ensures var keys, records := KeysOf(items), RecordsOf(e, items);
      && (forall r :: r in records ==>
            exists k :: k in store && HasPrefix(k, Prefix(e)) && r == Shown(e, store[k]))
      && (forall k :: k in store && HasPrefix(k, Prefix(e)) ==> Shown(e, store[k]) in records)
      && |keys| == |records|
      && (forall j :: 0 <= j < |keys| ==>
            keys[j] in store && HasPrefix(keys[j], Prefix(e)) && records[j] == Shown(e, store[keys[j]]))
      && (forall i, j :: 0 <= i < j < |keys| ==> keys[i] != keys[j])
      && (forall k :: k in store && HasPrefix(k, Prefix(e)) ==> k in keys)
  {
    ListedAreStored(store, e, items);
    StoredAreListed(store, e, items);
  }

  lemma ListedAreStored(store: map<string, Record>, e: Entity, items: seq<Entry>)
    requires Enumerating(store, Prefix(e), {}, items)
    ensures forall r :: r in RecordsOf(e, items) ==>
      exists k :: k in store && HasPrefix(k, Prefix(e)) && r == Shown(e, store[k])
  {
    var records := RecordsOf(e, items);
    forall r | r in records ensures exists k :: k in store && HasPrefix(k, Prefix(e)) && r == Shown(e, store[k]) {
      var j :| 0 <= j < |records| && records[j] == r;
      assert items[j].key in store;
    }
  }

  lemma StoredAreListed(store: map<string, Record>, e: Entity, items: seq<Entry>)
    requires Enumerating(store, Prefix(e), {}, items)
    ensures forall k :: k in store && HasPrefix(k, Prefix(e)) ==>
      k in KeysOf(items) && Shown(e, store[k]) in RecordsOf(e, items)
  {
    var keys, records := KeysOf(items), RecordsOf(e, items);
    forall k | k in store && HasPrefix(k, Prefix(e)) ensures k in keys && Shown(e, store[k]) in records {
      var j :| 0 <= j < |items| && items[j].key == k;
      assert keys[j] == k && records[j] == Shown(e, store[k]);
    }
  }

  // ---------------------------------------------------------------------------
  // The server state.

  class KvBackend {
    var store: map<string, Record>

    ghost predicate Valid()
      reads this
    {
      AllFit(store)
    }

    constructor (initial: map<string, Record>)
      requires AllFit(initial)
      ensures Valid() && store == initial
    {
      store := initial;
    }

    /** `kv.getByPrefix(prefix)`: every entry under the prefix once, in no particular order. */
    method GetByPrefix(prefix: string) returns (items: seq<Entry>)
      ensures forall j :: 0 <= j < |items| ==>
        items[j].key in store && HasPrefix(items[j].key, prefix) && items[j].value == store[items[j].key]
      ensures forall k :: k in store && HasPrefix(k, prefix) ==>
        exists j :: 0 <= j < |items| && items[j].key == k
      ensures forall i, j :: 0 <= i < j < |items| ==> items[i].key != items[j].key
    {
      var pending := set k | k in store && HasPrefix(k, prefix);
      items := [];
      while pending != {}
        invariant Enumerating(store, prefix, pending, items)
        decreases |pending|
      {
        var k :| k in pending;
        EnumerateOne(store, prefix, pending, items, k);
        items := items + [Entry(k, store[k])];
        pending := pending - {k};
      }
    }

    /**
     * `POST /auth/login`. Guest credentials always succeed: the guest user and
     * a session for it are stored. Otherwise the first user with the email,
     * in the store's enumeration order (`matched`), goes through
     * `LoginDecision`; only an admitted user gets a session, and the reply
     * omits the password.
     */
    method Login(email: string, password: string, token: string, now: string)
      returns (reply: Reply, ghost matched: Option<Record>)
      requires Valid()
      modifies this
      ensures Valid()
      ensures IsGuestLogin(email, password) ==>
        && reply == LoggedIn(GuestPublic, token)
        && store == WithSession(old(store)[UserPrefix + "guest" := GuestRecord(now)], GuestRecord(now), token, now)
      ensures !IsGuestLogin(email, password) ==> MatchedBy(old(store), email, matched)
      ensures !IsGuestLogin(email, password) ==> LoginEffect(old(store), store, matched, password, token, now, reply)
    {
      if IsGuestLogin(email, password) {
        reply := GuestLogin(token, now);
        matched := None;
      } else {
        reply, matched := PasswordLogin(email, password, token, now);
      }
    }

    /** The guest branch of the login route. */
    method GuestLogin(token: string, now: string) returns (reply: Reply)
      requires Valid()
      modifies this
      ensures Valid()
      ensures reply == LoggedIn(GuestPublic, token)
      ensures store == WithSession(old(store)[UserPrefix + "guest" := GuestRecord(now)], GuestRecord(now), token, now)
    {
      PrefixKey(UserPrefix, "guest");
      EntityKeyFits(UserPrefix, "guest", GuestRecord(now));
      store := store[UserPrefix + "guest" := GuestRecord(now)];
      SessionKeyFits(token, SessionRecord(token, Str("guest"), now));
      store := WithSession(store, GuestRecord(now), token, now);
      reply := LoggedIn(GuestPublic, token);
    }

    /** The credentials branch of the login route. */
    method PasswordLogin(email: string, password: string, token: string, now: string)
      returns (reply: Reply, ghost matched: Option<Record>)
      requires Valid()
      modifies this
      ensures Valid()
      ensures MatchedBy(old(store), email, matched)
      ensures LoginEffect(old(store), store, matched, password, token, now, reply)
    {
      var items := GetByPrefix(UserPrefix);
      var users := seq(|items|, j requires 0 <= j < |items| => items[j].value);
      var found := FirstWithEmail(users, email);
      matched := found;
      ghost var k: string;
      if found.None? {
        forall k | k in store && HasPrefix(k, UserPrefix) ensures !HasEmail(store[k], email) {
          var j :| 0 <= j < |items| && items[j].key == k;
          assert users[j] == store[k];
        }
      } else {
        var j :| 0 <= j < |users| && users[j] == found.value;
        k := items[j].key;
        assert k in store && HasPrefix(k, UserPrefix) && store[k] == found.value;
        assert RecordFits(k, found.value);
      }
      match LoginDecision(found, password)
      case Reject(status, error) =>
        reply := Failed(status, error);
      case Admit(u) =>
        SessionKeyFits(token, SessionRecord(token, u["id"], now));
        store := WithSession(store, u, token, now);
        reply := LoggedIn(StripPassword(u), token);
    }

    /** `POST /auth/logout`: 401 without a token, otherwise its session is removed. */
    method Logout(token: Option<string>) returns (reply: Reply)
      requires Valid()
      modifies this
      ensures Valid()
      ensures !PresentToken(token) ==> reply == Failed(401, "") && store == old(store)
      ensures PresentToken(token) ==> reply == Done && store == old(store) - {SessionPrefix + token.value}
    {
      if !PresentToken(token) {
        return Failed(401, "");
      }
      RemoveFits(store, {SessionPrefix + token.value});
      store := store - {SessionPrefix + token.value};
      reply := Done;
    }

    /**
     * `GET /products`, `GET /batches`, `GET /users`: one record per stored
     * entry of the kind (`keys` names the entry behind each), in the store's
     * enumeration order; users without passwords.
     */
    method List(e: Entity, token: Option<string>) returns (reply: Reply, ghost keys: seq<string>)
      ensures !Allowed(VerifyUser(store, token), ListAccess(e)) ==> reply == Denied(ListAccess(e))
      ensures Allowed(VerifyUser(store, token), ListAccess(e)) ==>
        && reply.Listed?
        && (forall r :: r in reply.records ==>
              exists k :: k in store && HasPrefix(k, Prefix(e)) && r == Shown(e, store[k]))
        && (forall k :: k in store && HasPrefix(k, Prefix(e)) ==> Shown(e, store[k]) in reply.records)
      ensures Allowed(VerifyUser(store, token), ListAccess(e)) ==>
        && |keys| == |reply.records|
        && (forall j :: 0 <= j < |keys| ==>
              keys[j] in store && HasPrefix(keys[j], Prefix(e)) && reply.records[j] == Shown(e, store[keys[j]]))
        && (forall i, j :: 0 <= i < j < |keys| ==> keys[i] != keys[j])
        && (forall k :: k in store && HasPrefix(k, Prefix(e)) ==> k in keys)
      ensures e == Users && reply.Listed? ==> forall r :: r in reply.records ==> "password" !in r
    {
      if !Allowed(VerifyUser(store, token), ListAccess(e)) {
        return Denied(ListAccess(e)), [];
      }
      var items := GetByPrefix(Prefix(e));
      ListingOfEntries(store, e, items);
      keys := KeysOf(items);
      reply := Listed(RecordsOf(e, items));
    }

    /** `POST /products`, `POST /batches`, `POST /users`: the record is stored under the new id. */
    method Create(e: Entity, token: Option<string>, body: Record, newId: string, now: string) returns (reply: Reply)
      requires Valid()
      modifies this
      ensures Valid()
      ensures !Allowed(VerifyUser(old(store), token), WriteAccess(e)) ==>
        reply == Denied(WriteAccess(e)) && store == old(store)
      ensures Allowed(VerifyUser(old(store), token), WriteAccess(e)) ==>
        && store == old(store)[Prefix(e) + newId := Created(e, body, newId, now)]
        && reply == Stored(Shown(e, Created(e, body, newId, now)))
    {
      if !Allowed(VerifyUser(store, token), WriteAccess(e)) {
        return Denied(WriteAccess(e));
      }
      var r := Created(e, body, newId, now);
      EntityKeyFits(Prefix(e), newId, r);
      store := store[Prefix(e) + newId := r];
      reply := Stored(Shown(e, r));
    }

    /**
     * `PUT /products/:id`, `PUT /batches/:id`, `PUT /users/:id`: 404 and no
     * change for a missing key; otherwise the merge with the id of the path.
     */
    method Update(e: Entity, token: Option<string>, id: string, updates: Record) returns (reply: Reply)
      requires Valid()
      modifies this
      ensures Valid()
      ensures !Allowed(VerifyUser(old(store), token), WriteAccess(e)) ==>
        reply == Denied(WriteAccess(e)) && store == old(store)
      ensures Allowed(VerifyUser(old(store), token), WriteAccess(e)) && Prefix(e) + id !in old(store) ==>
        reply == Failed(404, NotFound(e)) && store == old(store)
      ensures Allowed(VerifyUser(old(store), token), WriteAccess(e)) && Prefix(e) + id in old(store) ==>
        && store == old(store)[Prefix(e) + id := Merged(old(store)[Prefix(e) + id], updates, id)]
        && reply == Stored(Shown(e, Merged(old(store)[Prefix(e) + id], updates, id)))
    {
      if !Allowed(VerifyUser(store, token), WriteAccess(e)) {
        return Denied(WriteAccess(e));
      }
      var key := Prefix(e) + id;
      if key !in store {
        return Failed(404, NotFound(e));
      }
      var r := Merged(store[key], updates, id);
      EntityKeyFits(Prefix(e), id, r);
      store := store[key := r];
      reply := Stored(Shown(e, r));
    }

    /**
     * `DELETE /batches/:id`, `DELETE /users/:id`: the key goes, whether or not
     * it was there. `DELETE /products/:id` first removes every batch of the
     * product, walking the batch entries.
     */
    method Delete(e: Entity, token: Option<string>, id: string) returns (reply: Reply)
      requires Valid()
      modifies this
      ensures Valid()
      ensures !Allowed(VerifyUser(old(store), token), WriteAccess(e)) ==>
        reply == Denied(WriteAccess(e)) && store == old(store)
      ensures Allowed(VerifyUser(old(store), token), WriteAccess(e)) ==> reply == Done
      ensures Allowed(VerifyUser(old(store), token), WriteAccess(e)) && e != Products ==>
        store == old(store) - {Prefix(e) + id}
      ensures Allowed(VerifyUser(old(store), token), WriteAccess(e)) && e == Products ==>
        store == old(store) - BatchKeysOf(old(store), id) - {ProductPrefix + id}
    {
      if !Allowed(VerifyUser(store, token), WriteAccess(e)) {
        return Denied(WriteAccess(e));
      }
      if e == Products {
        DeleteBatchesOf(id);
      }
      RemoveFits(store, {Prefix(e) + id});
      store := store - {Prefix(e) + id};
      reply := Done;
    }

    /** The cascade of the product delete: each batch entry of the product is deleted in turn. */
    method DeleteBatchesOf(id: string)
      requires Valid()
      modifies this
      ensures Valid()
      ensures store == old(store) - BatchKeysOf(old(store), id)
    {
      var items := GetByPrefix(BatchPrefix);
      ghost var before := store;
      var i := 0;
      while i < |items|
        invariant 0 <= i <= |items|
        invariant Valid()
        invariant store == before - (set j | 0 <= j < i && OfProductRecord(items[j].value, id) :: items[j].key)
      {
        if OfProductRecord(items[i].value, id) {
          RemoveFits(store, {items[i].key});
          store := store - {items[i].key};
        }
        i := i + 1;
      }
      assert (set j | 0 <= j < |items| && OfProductRecord(items[j].value, id) :: items[j].key)
          == BatchKeysOf(before, id) by {
        forall k | k in BatchKeysOf(before, id)
          ensures k in (set j | 0 <= j < |items| && OfProductRecord(items[j].value, id) :: items[j].key) {
          var j :| 0 <= j < |items| && items[j].key == k;
        }
      }
    }

    /** `initializeData`: seeds administrators, products and batches into a store with no user. */
    method InitializeData(now: string)
      requires Valid()
      modifies this
      ensures Valid()
      ensures store == Initialized(old(store), now)
    {
      var existing := GetByPrefix(UserPrefix);
      if |existing| != 0 {
        assert HasUsers(store) by {
          assert existing[0].key in store && HasPrefix(existing[0].key, UserPrefix);
        }
        return;
      }
      var admin1 := Admin("1", "Administrador 1", "admin@scacompany.com", "1107099153", now);
      var admin2 := Admin("2", "Administrador 2", "admin2@scacompany.com", "1058548629", now);
      EntityKeyFits(UserPrefix, "1", admin1);
      store := store[UserPrefix + "1" := admin1];
      EntityKeyFits(UserPrefix, "2", admin2);
      store := store[UserPrefix + "2" := admin2];
      SetEach(ProductPrefix, SeedProducts);
      SetEach(BatchPrefix, SeedBatches);
    }

    /** One of the seeding loops: each record is stored under its id, in order. */
    method SetEach(prefix: string, records: seq<Record>)
      requires prefix == ProductPrefix || prefix == BatchPrefix
      requires forall j :: 0 <= j < |records| ==> HasTextId(records[j])
      requires Valid()
      modifies this
      ensures Valid()
      ensures store == SetAll(old(store), prefix, records)
    {
      var i := 0;
      while i < |records|
        invariant 0 <= i <= |records|
        invariant store == SetAll(old(store), prefix, records[..i])
        invariant Valid()
      {
        var r := records[i];
        assert HasTextId(r);
        EntityKeyFits(prefix, r["id"].s, r);
        store := store[prefix + r["id"].s := r];
        assert records[..i + 1][..i] == records[..i];
        i := i + 1;
      }
      assert records[..|records|] == records;
    }
  }
}
