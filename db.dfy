/** The storage layer of the billing server: the `model_prices` table
    (model name -> input and output price) and the `users` table
    (id -> account record with a prepaid balance), with the lookups and
    updates the HTTP handlers perform on them.

    Amounts are integers in units of 1/10000 of the currency. A literal is
    written with `_` where the decimal point goes: `0_1875` is 0.1875,
    `10_0000` is 10.0. Prices are per million tokens. */
module Db {

  import opened Outcomes

  datatype PricePair = PricePair(input: int, output: int)

  datatype PriceEntry = PriceEntry(model: string, prices: PricePair)

  /** Price used for a model the table does not list. */
  const FallbackPrices := PricePair(60_0000, 60_0000)

  /** Balance of a freshly created account. */
  const InitialBalance := 10_0000

  /** The catalog written at start-up. */
  const DefaultPrices: seq<PriceEntry> := [
    // OpenAI
    PriceEntry("gpt-4o-mini", PricePair(0_1875, 0_7500)),
    PriceEntry("gpt-4o", PricePair(0, 0)),
    PriceEntry("chatgpt-4o-latest", PricePair(10_0000, 30_0000)),
    PriceEntry("o1-mini", PricePair(3_0000, 15_0000)),
    PriceEntry("o1-preview", PricePair(15_0000, 75_0000)),
    // OpenAI, marked-up resale
    PriceEntry("gpt-4o-mini-gf", PricePair(0_1875, 0_7500)),
    PriceEntry("gpt-4o-gf", PricePair(1_0800, 4_3200)),
    PriceEntry("chatgpt-4o-latest-gf", PricePair(36_0000, 144_0000)),
    // Claude
    PriceEntry("claude-3-5-sonnet-20240620", PricePair(9_0000, 45_0000)),
    PriceEntry("claude-3-5-sonnet-20241022", PricePair(9_0000, 45_0000)),
    PriceEntry("claude-3-5-haiku-20241022", PricePair(3_0000, 15_0000)),
    // Claude, marked-up resale
    PriceEntry("claude-3-5-sonnet-20240620-gf", PricePair(21_6000, 108_0000)),
    PriceEntry("claude-3-5-sonnet-20241022-gf", PricePair(21_6000, 108_0000)),
    PriceEntry("claude-3-5-haiku-20241022-gf", PricePair(7_2000, 36_0000)),
    // Gemini
    PriceEntry("gemini-1.5-flash-002", PricePair(0, 0)),
    PriceEntry("gemini-1.5-pro-002", PricePair(0, 0)),
    PriceEntry("gemini-1.5-flash-002-gf", PricePair(0_5400, 2_1600)),
    PriceEntry("gemini-1.5-pro-002-gf", PricePair(9_0000, 36_0000)),
    // Others
    PriceEntry("grok-beta", PricePair(0, 0)),
    PriceEntry("meta-llama/llama-3.1-405b-instruct:free", PricePair(0, 0)),
    PriceEntry("meta-llama/llama-3.2-90b-vision-instruct:free", PricePair(0, 0)),
    PriceEntry("yi-lightning", PricePair(0, 0)),
    PriceEntry("qwen-max-latest", PricePair(0, 0)),
    PriceEntry("glm-4-plus", PricePair(0, 0)),
    PriceEntry("stable-diffusion-35-large", PricePair(0, 0)),
    PriceEntry("deepseek-chat", PricePair(1_0000, 2_0000))
  ]

  // ---------------------------------------------------------------------
  // Price table

  /** `INSERT OR REPLACE` of each entry in turn: a later entry for the same
      model replaces an earlier one. */
  function Upsert(table: map<string, PricePair>, entries: seq<PriceEntry>): map<string, PricePair> {
    if entries == [] then table
    else
      var last := entries[|entries| - 1];
      Upsert(table, entries[..|entries| - 1])[last.model := last.prices]
  }

  /** `SELECT ... WHERE model_name = ?`, falling back to (60, 60) when no
      row matches. */
  function PriceOf(table: map<string, PricePair>, model: string): PricePair {
    if model in table then table[model] else FallbackPrices
  }

  predicate DistinctModels(entries: seq<PriceEntry>) {
    forall i, j :: 0 <= i < j < |entries| ==> entries[i].model != entries[j].model
  }

  /** Upserting a list overrides the table with the table the list alone
      would build; rows it does not name are kept. */
  lemma {:induction false} UpsertOverrides(table: map<string, PricePair>, entries: seq<PriceEntry>)
    ensures Upsert(table, entries) == table + Upsert(map[], entries)
    decreases |entries|
  {
    if entries != [] {
      UpsertOverrides(table, entries[..|entries| - 1]);
    }
  }

  /** Seeding is idempotent: a second run of the same upserts leaves the
      table as the first run left it. */
  lemma UpsertTwice(table: map<string, PricePair>, entries: seq<PriceEntry>)
    ensures Upsert(Upsert(table, entries), entries) == Upsert(table, entries)
  {
    UpsertOverrides(table, entries);
    UpsertOverrides(Upsert(table, entries), entries);
  }

  /** With distinct model names, every listed model looks up to exactly
      its listed prices, and every other model keeps its old row. */
  lemma {:induction false} UpsertLookup(table: map<string, PricePair>, entries: seq<PriceEntry>, model: string)
    requires DistinctModels(entries)
    ensures forall k :: 0 <= k < |entries| && entries[k].model == model ==>
              PriceOf(Upsert(table, entries), model) == entries[k].prices
    ensures (forall k :: 0 <= k < |entries| ==> entries[k].model != model) ==>
              PriceOf(Upsert(table, entries), model) == PriceOf(table, model)
    decreases |entries|
  {
    if entries != [] {
      var init := entries[..|entries| - 1];
      assert DistinctModels(init);
      UpsertLookup(table, init, model);
      forall k | 0 <= k < |init| ensures init[k] == entries[k] { }
    }
  }

  /** A fingerprint that already tells the catalog's model names apart:
      the length, the first two characters and the 23rd. */
  function Fingerprint(s: string): (int, char, char, char) {
    (|s|, if |s| > 0 then s[0] else ' ', if |s| > 1 then s[1] else ' ', if |s| > 22 then s[22] else ' ')
  }

  lemma FingerprintsDistinctLow()
    ensures forall i, j :: 0 <= i < 10 && i < j < |DefaultPrices| ==>
              Fingerprint(DefaultPrices[i].model) != Fingerprint(DefaultPrices[j].model)
  {
  }

  lemma FingerprintsDistinctHigh()
    ensures forall i, j :: 10 <= i < j < |DefaultPrices| ==>
              Fingerprint(DefaultPrices[i].model) != Fingerprint(DefaultPrices[j].model)
  {
  }

  /** The catalog lists 26 models, no model twice. */
  lemma DefaultModelsDistinct()
    ensures |DefaultPrices| == 26
    ensures DistinctModels(DefaultPrices)
  {
    FingerprintsDistinctLow();
    FingerprintsDistinctHigh();
  }

  /** After seeding, each of the 26 catalog models looks up to its listed
      prices, and a model that neither the catalog nor the earlier table
      names gets the (60, 60) fallback. */
  lemma LookupAfterSeeding(table: map<string, PricePair>, model: string)
    ensures forall k :: 0 <= k < |DefaultPrices| && DefaultPrices[k].model == model ==>
              PriceOf(Upsert(table, DefaultPrices), model) == DefaultPrices[k].prices
    ensures model !in table && (forall k :: 0 <= k < |DefaultPrices| ==> DefaultPrices[k].model != model) ==>
              PriceOf(Upsert(table, DefaultPrices), model) == FallbackPrices
  {
    DefaultModelsDistinct();
    UpsertLookup(table, DefaultPrices, model);
  }

  // ---------------------------------------------------------------------
  // User table

  /** A row of `users`; columns the insert left NULL are `None`. */
  datatype User = User(id: string, name: Option<string>, email: Option<string>, role: Option<string>, balance: int)

  /** The `user` object a client sends; absent fields are `None`. */
  datatype UserData = UserData(id: Option<string>, name: Option<string>, email: Option<string>, role: Option<string>)

  /** What `getOrCreateUser` resolves to: `{ balance: 0 }` for a caller
      without an id, otherwise an account record. */
  datatype UserReply = Anonymous | Account(user: User) {
    function Balance(): int {
      if Anonymous? then 0 else user.balance
    }
  }

  /** Which sqlite statement of an operation fails, if any. */
  datatype Fault = Healthy | ReadError | WriteError

  /** The users table after an operation, and what the operation resolved
      or rejected with. */
  datatype Step<T> = Step(users: map<string, User>, reply: Result<T>)

  /** JavaScript truthiness of an optional string: present and not "". */
  predicate Truthy(s: Option<string>) {
    s.Some? && s.value != ""
  }

  /** `s || d` */
  function OrDefault(s: Option<string>, d: string): string {
    if Truthy(s) then s.value else d
  }

  /** Every row is filed under its own id and has a balance of at least 0. */
  predicate UsersValid(users: map<string, User>) {
    forall id :: id in users ==> users[id].id == id && users[id].balance >= 0
  }

  /** The record `getOrCreateUser` inserts for a first-seen id. */
  function NewUser(id: string, data: UserData): User {
    User(id, Some(OrDefault(data.name, "")), Some(OrDefault(data.email, "")),
         Some(OrDefault(data.role, "user")), InitialBalance)
  }

  /** `getOrCreateUser(userData)`: no id means `{ balance: 0 }` and no
      query; a stored id returns its row; a new id is inserted with the
      defaults and 10.0. */
  function TouchUser(users: map<string, User>, userData: Option<UserData>, fault: Fault): (s: Step<UserReply>)
    ensures forall id :: id in users ==> id in s.users && s.users[id] == users[id]
    ensures s.reply.Err? ==> s.users == users
    ensures s.reply.Ok? && s.reply.value.Account? ==>
              userData.Some? && Truthy(userData.value.id) &&
              var id := userData.value.id.value; id in s.users && s.users[id] == s.reply.value.user
    ensures s.users != users ==>
              fault == Healthy && userData.Some? && Truthy(userData.value.id) &&
              var id := userData.value.id.value;
              id !in users && s.users == users[id := NewUser(id, userData.value)]
    ensures UsersValid(users) ==> UsersValid(s.users)
    ensures userData.Some? && Truthy(userData.value.id) && fault == ReadError ==>
              s == Step(users, Err(StorageError))
    ensures userData.Some? && Truthy(userData.value.id) && userData.value.id.value !in users && fault == WriteError ==>
              s == Step(users, Err(StorageError))
  {
    if userData.None? || !Truthy(userData.value.id) then Step(users, Ok(Anonymous))
    else
      var id := userData.value.id.value;
      if fault.ReadError? then Step(users, Err(StorageError))
      else if id in users then Step(users, Ok(Account(users[id])))
      else if fault.WriteError? then Step(users, Err(StorageError))
      else
        var u := NewUser(id, userData.value);
        Step(users[id := u], Ok(Account(u)))
  }

  /** `Math.max(0, balance - cost)` */
  function Debited(balance: int, cost: int): (b: int)
    ensures b >= 0 && b >= balance - cost
    ensures b == 0 || b == balance - cost
  {
    if balance - cost > 0 then balance - cost else 0
  }

  /** `updateUserBalance(userId, cost)`: a falsy id resolves to 0 without
      a query; a stored user is debited with a floor at 0; an unknown id
      gets a fresh row at 10.0 while the call resolves to 10.0 - cost,
      neither clamped nor stored. */
  function Debit(users: map<string, User>, userId: Option<string>, cost: int, fault: Fault): (s: Step<int>)
    ensures !Truthy(userId) ==> s == Step(users, Ok(0))
    ensures s.reply.Err? ==> s.users == users
    ensures forall id :: id in users && Some(id) != userId ==> id in s.users && s.users[id] == users[id]
    ensures s.users.Keys <= users.Keys + (if userId.Some? then {userId.value} else {})
    ensures UsersValid(users) ==> UsersValid(s.users)
    ensures Truthy(userId) && !fault.Healthy? ==> s == Step(users, Err(StorageError))
  {
    if !Truthy(userId) then Step(users, Ok(0))
    else
      var id := userId.value;
      if fault.ReadError? then Step(users, Err(StorageError))
      else if fault.WriteError? then Step(users, Err(StorageError))
      else if id !in users then
        Step(users[id := User(id, None, None, None, InitialBalance)], Ok(InitialBalance - cost))
      else
        var b := Debited(users[id].balance, cost);
        Step(users[id := users[id].(balance := b)], Ok(b))
  }

  // ---------------------------------------------------------------------
  // Properties of the user operations

  /** Without user data or without an id: `{ balance: 0 }`, no change. */
  lemma TouchAnonymous(users: map<string, User>, userData: Option<UserData>, fault: Fault)
    requires userData.None? || !Truthy(userData.value.id)
    ensures TouchUser(users, userData, fault) == Step(users, Ok(Anonymous))
    ensures TouchUser(users, userData, fault).reply.value.Balance() == 0
  {
  }

  /** A stored id returns its row as stored and writes nothing. */
  lemma TouchExisting(users: map<string, User>, data: UserData, fault: Fault)
    requires Truthy(data.id) && data.id.value in users && fault != ReadError
    ensures TouchUser(users, Some(data), fault) == Step(users, Ok(Account(users[data.id.value])))
  {
  }

  /** A new id is stored with "" for a missing name or email, "user" for
      a missing role and a balance of 10.0, and exactly that record is
      returned; no other row changes. */
  lemma TouchNew(users: map<string, User>, data: UserData)
    requires Truthy(data.id) && data.id.value !in users
    ensures var s := TouchUser(users, Some(data), Healthy);
            var u := s.reply.value.user;
            && s.reply.Ok? && s.reply.value.Account?
            && u.id == data.id.value && u.balance == 10_0000
            && u.name == Some(if Truthy(data.name) then data.name.value else "")
            && u.email == Some(if Truthy(data.email) then data.email.value else "")
            && u.role == Some(if Truthy(data.role) then data.role.value else "user")
            && s.users == users[u.id := u]
  {
  }

  /** Touching the same user twice: the second call returns the record the
      first one returned and changes nothing. */
  lemma TouchIdempotent(users: map<string, User>, userData: Option<UserData>, fault1: Fault, fault2: Fault)
    requires TouchUser(users, userData, fault1).reply.Ok?
    requires fault2 != ReadError
    ensures var first := TouchUser(users, userData, fault1);
            TouchUser(first.users, userData, fault2) == first
  {
  }

  /** A stored user is debited to max(0, balance - cost), which is both
      stored and returned; nothing else changes. */
  lemma DebitExisting(users: map<string, User>, id: string, cost: int)
    requires id != "" && id in users
    ensures var s := Debit(users, Some(id), cost, Healthy);
            var b := if users[id].balance - cost > 0 then users[id].balance - cost else 0;
            s.reply == Ok(b) && s.users == users[id := users[id].(balance := b)]
  {
  }

  /** An unknown id gets a row with only the id and a balance of 10.0;
      the call reports 10.0 - cost, unclamped, which is not stored. */
  lemma DebitUnknown(users: map<string, User>, id: string, cost: int)
    requires id != "" && id !in users
    ensures var s := Debit(users, Some(id), cost, Healthy);
            s.reply == Ok(10_0000 - cost) &&
            s.users == users[id := User(id, None, None, None, 10_0000)]
  {
  }

  /** The unknown-id branch can report a negative balance and report a
      balance different from the one it stores. */
  lemma DebitUnknownUnclamped()
    ensures var s := Debit(map[], Some("u1"), 20_0000, Healthy);
            s.reply == Ok(-10_0000) && s.users["u1"].balance == 10_0000
  {
  }

  /** Without an id nothing is written and the call resolves to 0; with
      an id and a failing statement nothing is written and the call
      rejects. */
  lemma DebitWithoutWrite(users: map<string, User>, userId: Option<string>, cost: int, fault: Fault)
    requires !Truthy(userId) || !fault.Healthy?
    ensures var s := Debit(users, userId, cost, fault);
            && s.users == users
            && (!Truthy(userId) ==> s.reply == Ok(0))
            && (Truthy(userId) ==> s.reply == Err(StorageError))
  {
  }

  /** `n` debits of the same cost applied one after another. */
  function DebitTimes(users: map<string, User>, id: string, cost: int, n: nat): map<string, User>
    decreases n
  {
    if n == 0 then users else Debit(DebitTimes(users, id, cost, n - 1), Some(id), cost, Healthy).users
  }

  /** Applied in sequence, n debits of a non-negative cost c take a stored
      balance B to max(0, B - n * c). */
  lemma {:induction false} DebitTimesFloor(users: map<string, User>, id: string, cost: int, n: nat)
    requires id != "" && id in users && users[id].balance >= 0 && cost >= 0
    ensures id in DebitTimes(users, id, cost, n)
    ensures var b := users[id].balance - n * cost;
            DebitTimes(users, id, cost, n)[id].balance == if b > 0 then b else 0
    decreases n
  {
    if n > 0 {
      DebitTimesFloor(users, id, cost, n - 1);
      var before := DebitTimes(users, id, cost, n - 1);
      DebitExisting(before, id, cost);
      assert n * cost == (n - 1) * cost + cost;
      var x := users[id].balance - (n - 1) * cost;
      assert before[id].balance == if x > 0 then x else 0;
      assert DebitTimes(users, id, cost, n)[id].balance == Debited(before[id].balance, cost);
    }
  }

  // ---------------------------------------------------------------------
  // The database object

  /** The two tables, updated in place by the operations below. */
  class Database {
    var prices: map<string, PricePair>
    var users: map<string, User>

    ghost predicate Valid()
      reads this
    {
      UsersValid(users)
    }

    /** Opens the tables as a previous run left them and seeds the catalog. */
    constructor Open(storedPrices: map<string, PricePair>, storedUsers: map<string, User>)
      requires UsersValid(storedUsers)
      ensures Valid()
      ensures prices == Upsert(storedPrices, DefaultPrices) && users == storedUsers
    {
      prices := storedPrices;
      users := storedUsers;
      new;
      SeedPrices(DefaultPrices);
    }

    /** The start-up loop: one `INSERT OR REPLACE` per catalog entry, in
        catalog order. */
    method SeedPrices(catalog: seq<PriceEntry>)
      modifies this
      ensures prices == Upsert(old(prices), catalog)
      ensures users == old(users)
    {
      var i := 0;
      while i < |catalog|
        invariant 0 <= i <= |catalog|
        invariant prices == Upsert(old(prices), catalog[..i])
        invariant users == old(users)
      {
        var entry := catalog[i];
        prices := prices[entry.model := entry.prices];
        assert catalog[..i + 1][..i] == catalog[..i];
        i := i + 1;
      }
      assert catalog[..i] == catalog;
    }

    /** `getModelPrices(modelName)`; a failed query rejects. */
    function GetModelPrices(model: string, lookupFails: bool): (r: Result<PricePair>)
      reads this
      ensures r.Err? <==> lookupFails
      ensures r.Ok? && model in prices ==> r.value == prices[model]
      ensures r.Ok? && model !in prices ==> r.value == PricePair(60_0000, 60_0000)
    {
      if lookupFails then Err(StorageError) else Ok(PriceOf(prices, model))
    }

    /** `getOrCreateUser(userData)` */
    method GetOrCreateUser(userData: Option<UserData>, fault: Fault) returns (r: Result<UserReply>)
      requires Valid()
      modifies this
      ensures Valid() && prices == old(prices)
      ensures Step(users, r) == TouchUser(old(users), userData, fault)
    {
      if userData.None? || !Truthy(userData.value.id) {
        return Ok(Anonymous);
      }
      var id := userData.value.id.value;
      if fault == ReadError {
        return Err(StorageError);
      }
      if id in users {
        return Ok(Account(users[id]));
      }
      if fault == WriteError {
        return Err(StorageError);
      }
      var u := NewUser(id, userData.value);
      users := users[id := u];
      r := Ok(Account(u));
    }

    /** `updateUserBalance(userId, cost)` */
    method UpdateUserBalance(userId: Option<string>, cost: int, fault: Fault) returns (r: Result<int>)
      requires Valid()
      modifies this
      ensures Valid() && prices == old(prices)
      ensures Step(users, r) == Debit(old(users), userId, cost, fault)
    {
      if !Truthy(userId) {
        return Ok(0);
      }
      var id := userId.value;
      if fault == ReadError {
        return Err(StorageError);
      }
      if id !in users {
        if fault == WriteError {
          return Err(StorageError);
        }
        users := users[id := User(id, None, None, None, InitialBalance)];
        return Ok(InitialBalance - cost);
      }
      var newBalance := Debited(users[id].balance, cost);
      if fault == WriteError {
        return Err(StorageError);
      }
      users := users[id := users[id].(balance := newBalance)];
      r := Ok(newBalance);
    }
  }
}
