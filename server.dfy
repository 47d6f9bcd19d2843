/** The three request handlers of the billing server: `/post_user_info`
    (register a user on first contact), `/post_result` (price a finished
    model call, debit the caller and report a stats line) and
    `/calculate_tokens` (count the tokens of a prompt with the encoder the
    model family uses). */
module Server {

  import opened Outcomes
  import opened NumberFormat
  import opened Db

  // ---------------------------------------------------------------------
  // Billing

  /** `((in * input_price + out * output_price) / 1000000).toFixed(4)`,
      with prices in 1/10000 units per million tokens. */
  function TotalCost(inputTokens: int, outputTokens: int, p: PricePair): (c: Fixed)
    ensures var n := inputTokens * p.input + outputTokens * p.output;
            var m := if n < 0 then -n else n;
            && (c.negative <==> n < 0)
            && -1000000 <= 2 * (m - 1000000 * c.units) < 1000000
  {
    ToFixed4(inputTokens * p.input + outputTokens * p.output, 1000000)
  }

  /** Non-negative token counts at non-negative prices never cost less
      than nothing. */
  lemma CostNonNegative(inputTokens: int, outputTokens: int, p: PricePair)
    requires inputTokens >= 0 && outputTokens >= 0 && p.input >= 0 && p.output >= 0
    ensures !TotalCost(inputTokens, outputTokens, p).negative
    ensures ParseFloat(TotalCost(inputTokens, outputTokens, p)) >= 0
  {
    assert inputTokens * p.input >= 0 && outputTokens * p.output >= 0;
  }

  /** A model priced (0, 0) is free whatever the token counts. */
  lemma FreeModelCostsNothing(inputTokens: int, outputTokens: int)
    ensures TotalCost(inputTokens, outputTokens, PricePair(0, 0)) == Fixed(false, 0)
    ensures FixedText(TotalCost(inputTokens, outputTokens, PricePair(0, 0))) == "0.0000"
  {
    ZeroText();
  }

  lemma ZeroText()
    ensures FixedText(Fixed(false, 0)) == "0.0000"
  {
  }

  /** 1000 input and 500 output tokens at (2, 4) per million cost 0.0040. */
  lemma CostExample()
    ensures TotalCost(1000, 500, PricePair(2_0000, 4_0000)) == Fixed(false, 40)
    ensures FixedText(TotalCost(1000, 500, PricePair(2_0000, 4_0000))) == "0.0040"
  {
  }

  const StatsLead := "\n\n输入 "
  const AfterInput := " tokens，输出 "
  const AfterOutput := " tokens，总费用 ¥"
  const AfterCost := "，账户余额 ¥"

  /** The stats line: input tokens, output tokens, `totalCost` and
      `newBalance.toFixed(4)`. */
  function StatsText(inputTokens: int, outputTokens: int, cost: Fixed, balance: int): (r: string)
    ensures StatsLead <= r
    ensures EndsWith(r, FixedText(ToFixed4(balance, 1)))
  {
    var b := FixedText(ToFixed4(balance, 1));
    var t5 := AfterCost + b;
    var t4 := FixedText(cost) + t5;
    var t3 := AfterOutput + t4;
    var t2 := IntText(outputTokens) + t3;
    var t1 := AfterInput + t2;
    var t0 := IntText(inputTokens) + t1;
    assert EndsWith(b, b) by { assert b[|b| - |b|..] == b; }
    EndsWithThrough(AfterCost, b, b);
    EndsWithThrough(FixedText(cost), t5, b);
    EndsWithThrough(AfterOutput, t4, b);
    EndsWithThrough(IntText(outputTokens), t3, b);
    EndsWithThrough(AfterInput, t2, b);
    EndsWithThrough(IntText(inputTokens), t1, b);
    EndsWithThrough(StatsLead, t0, b);
    StatsLead + t0
  }

  predicate EndsWith(s: string, b: string) {
    |b| <= |s| && s[|s| - |b|..] == b
  }

  lemma EndsWithThrough(x: string, t: string, b: string)
    requires EndsWith(t, b)
    ensures EndsWith(x + t, b)
  {
    assert (x + t)[|x + t| - |b|..] == t[|t| - |b|..];
  }

  /** The four figures a stats line carries, as written. */
  datatype Stats = Stats(inputTokens: int, outputTokens: int, cost: Fixed, balance: Fixed)

  function StripPrefix(s: string, p: string): Option<string> {
    if |p| <= |s| && s[..|p|] == p then Some(s[|p|..]) else None
  }

  /** Reads the four figures back out of a stats line. */
  function ParseStats(text: string): Option<Stats> {
    var t := StripPrefix(text, StatsLead);
    if t.None? then None else ParseFromInput(t.value)
  }

  function ParseFromInput(s: string): Option<Stats> {
    var i := ParseInt(s);
    if i.None? then None
    else
      var t := StripPrefix(i.value.1, AfterInput);
      if t.None? then None else ParseFromOutput(i.value.0, t.value)
  }

  function ParseFromOutput(inputTokens: int, s: string): Option<Stats> {
    var o := ParseInt(s);
    if o.None? then None
    else
      var t := StripPrefix(o.value.1, AfterOutput);
      if t.None? then None else ParseFromCost(inputTokens, o.value.0, t.value)
  }

  function ParseFromCost(inputTokens: int, outputTokens: int, s: string): Option<Stats> {
    var c := ParseFixed(s);
    if c.None? then None
    else
      var t := StripPrefix(c.value.1, AfterCost);
      if t.None? then None else ParseFromBalance(inputTokens, outputTokens, c.value.0, t.value)
  }

  function ParseFromBalance(inputTokens: int, outputTokens: int, cost: Fixed, s: string): Option<Stats> {
    var b := ParseFixed(s);
    if b.None? || b.value.1 != [] then None else Some(Stats(inputTokens, outputTokens, cost, b.value.0))
  }

  lemma StripPrefixOf(p: string, t: string)
    ensures StripPrefix(p + t, p) == Some(t)
  {
    assert (p + t)[..|p|] == p && (p + t)[|p|..] == t;
  }

  /** The stats line is unambiguous: it reads back as exactly the input
      count, the output count, the cost and the balance, in that order. */
  lemma StatsRoundTrip(inputTokens: int, outputTokens: int, cost: Fixed, balance: int)
    ensures ParseStats(StatsText(inputTokens, outputTokens, cost, balance))
            == Some(Stats(inputTokens, outputTokens, cost, ToFixed4(balance, 1)))
  {
    var b := ToFixed4(balance, 1);
    var afterCost := FixedText(b);
    var afterOutput := FixedText(cost) + (AfterCost + afterCost);
    var afterInput := IntText(outputTokens) + (AfterOutput + afterOutput);
    var body := IntText(inputTokens) + (AfterInput + afterInput);
    StripPrefixOf(StatsLead, body);
    InputRoundTrip(inputTokens, afterInput);
    OutputRoundTrip(inputTokens, outputTokens, afterOutput);
    CostRoundTrip(inputTokens, outputTokens, cost, afterCost);
    BalanceRoundTrip(inputTokens, outputTokens, cost, b);
  }

  lemma BalanceRoundTrip(inputTokens: int, outputTokens: int, cost: Fixed, b: Fixed)
    ensures ParseFromBalance(inputTokens, outputTokens, cost, FixedText(b)) == Some(Stats(inputTokens, outputTokens, cost, b))
  {
    FixedTextRoundTrip(b, []);
    assert FixedText(b) + [] == FixedText(b);
  }

  lemma CostRoundTrip(inputTokens: int, outputTokens: int, cost: Fixed, rest: string)
    ensures ParseFromCost(inputTokens, outputTokens, FixedText(cost) + (AfterCost + rest))
            == ParseFromBalance(inputTokens, outputTokens, cost, rest)
  {
    FixedTextRoundTrip(cost, AfterCost + rest);
    StripPrefixOf(AfterCost, rest);
  }

  lemma OutputRoundTrip(inputTokens: int, outputTokens: int, rest: string)
    ensures ParseFromOutput(inputTokens, IntText(outputTokens) + (AfterOutput + rest))
            == ParseFromCost(inputTokens, outputTokens, rest)
  {
    IntTextRoundTrip(outputTokens, AfterOutput + rest);
    StripPrefixOf(AfterOutput, rest);
  }

  lemma InputRoundTrip(inputTokens: int, rest: string)
    ensures ParseFromInput(IntText(inputTokens) + (AfterInput + rest))
            == ParseFromOutput(inputTokens, rest)
  {
    IntTextRoundTrip(inputTokens, AfterInput + rest);
    StripPrefixOf(AfterInput, rest);
  }

  /** `user?.id` */
  function UserId(user: Option<UserData>): Option<string> {
    if user.Some? then user.value.id else None
  }

  /** The balance `/post_result` shows: what `updateUserBalance` resolved
      to, or 0 when it rejected. */
  function ShownBalance(reply: Result<int>): int {
    if reply.Ok? then reply.value else 0
  }

  /** `POST /post_result`: price the call, debit the caller by the rounded
      cost, answer with the stats line. Only a failed price lookup fails
      the request; a failed debit shows a balance of 0. */
  method PostResult(db: Database, user: Option<UserData>, model: string, inputTokens: int, outputTokens: int,
                    lookupFails: bool, ledgerFault: Fault) returns (r: Result<string>)
    requires db.Valid()
    modifies db
    ensures db.Valid() && db.prices == old(db.prices)
    ensures lookupFails ==> r == Err(StorageError) && db.users == old(db.users)
    ensures !lookupFails ==>
              var cost := TotalCost(inputTokens, outputTokens, PriceOf(old(db.prices), model));
              var step := Debit(old(db.users), UserId(user), ParseFloat(cost), ledgerFault);
              && db.users == step.users
              && r.Ok?
              && ParseStats(r.value) == Some(Stats(inputTokens, outputTokens, cost, ToFixed4(ShownBalance(step.reply), 1)))
    ensures !lookupFails && (!Truthy(UserId(user)) || !ledgerFault.Healthy?) ==>
              var cost := TotalCost(inputTokens, outputTokens, PriceOf(old(db.prices), model));
              && db.users == old(db.users)
              && r.Ok?
              && ParseStats(r.value) == Some(Stats(inputTokens, outputTokens, cost, Fixed(false, 0)))
  {
    var prices := db.GetModelPrices(model, lookupFails);
    if prices.Err? {
      return Err(prices.error);
    }
    var totalCost := TotalCost(inputTokens, outputTokens, prices.value);
    var userId := UserId(user);
    var newBalance := 0;
    var debit := db.UpdateUserBalance(userId, ParseFloat(totalCost), ledgerFault);
    if debit.Ok? {
      newBalance := debit.value;
    } else {
      newBalance := 0;
    }
    if !Truthy(userId) || !ledgerFault.Healthy? {
      DebitWithoutWrite(old(db.users), userId, ParseFloat(totalCost), ledgerFault);
      assert newBalance == 0 && ToFixed4(newBalance, 1) == Fixed(false, 0);
    }
    var text := StatsText(inputTokens, outputTokens, totalCost, newBalance);
    StatsRoundTrip(inputTokens, outputTokens, totalCost, newBalance);
    r := Ok(text);
  }

  // ---------------------------------------------------------------------
  // Registration

  /** `POST /post_user_info`: touch the user when an id is present;
      answer success unless that touch rejected. */
  method PostUserInfo(db: Database, user: Option<UserData>, fault: Fault) returns (r: Result<()>)
    requires db.Valid()
    modifies db
    ensures db.Valid() && db.prices == old(db.prices)
    ensures db.users == TouchUser(old(db.users), user, fault).users
    ensures r.Err? <==> TouchUser(old(db.users), user, fault).reply.Err?
    ensures !(user.Some? && Truthy(user.value.id)) ==> r.Ok? && db.users == old(db.users)
  {
    if user.Some? && Truthy(user.value.id) {
      var touched := db.GetOrCreateUser(user, fault);
      if touched.Err? {
        return Err(touched.error);
      }
    }
    r := Ok(());
  }

  // ---------------------------------------------------------------------
  // Token counting

  /** A JSON value of a request body. */
  datatype Json =
    | JNull
    | JBool(b: bool)
    | JNumber(n: real)
    | JString(s: string)
    | JArray(elems: seq<Json>)
    | JObject(fields: map<string, Json>)

  type Token = int

  /** The library functions the handler calls, whose workings are not part
      of this model: the two tokenizers, `JSON.stringify`, and JavaScript's
      `ToString` of a value that is neither a string nor null. `ToString`
      can throw a TypeError (an object whose `toString` is not callable):
      `toText` is `None` then. */
  datatype Runtime = Runtime(
    encodeO200k: string -> seq<Token>,
    encodeCl100k: string -> seq<Token>,
    stringify: Json -> string,
    toText: Json -> Option<string>)

  datatype Encoder = O200k | Cl100k

  /** s holds p starting at position j. */
  predicate OccursAt(s: string, p: string, j: nat) {
    j + |p| <= |s| && s[j..j + |p|] == p
  }

  /** One step of `/o1|4o/.test(s)`: does an alternative match at j? */
  predicate AlternativeAt(s: string, j: nat)
    requires j + 1 < |s|
  {
    (s[j] == 'o' && s[j + 1] == '1') || (s[j] == '4' && s[j + 1] == 'o')
  }

  /** `/o1|4o/.test(s)` scanning from position i onward. */
  function MatchesFrom(s: string, i: nat): (b: bool)
    ensures b <==> exists j: nat :: i <= j && (OccursAt(s, "o1", j) || OccursAt(s, "4o", j))
    decreases |s| - i
  {
    if i + 1 >= |s| then false
    else
      assert OccursAt(s, "o1", i) || OccursAt(s, "4o", i) <==> AlternativeAt(s, i);
      AlternativeAt(s, i) || MatchesFrom(s, i + 1)
  }

  /** The tokenizer choice: o200k exactly when the model name contains
      "o1" or "4o", case-sensitively, anywhere. */
  function SelectEncoder(model: string): (e: Encoder)
    ensures e == O200k <==> exists j: nat :: OccursAt(model, "o1", j) || OccursAt(model, "4o", j)
  {
    if MatchesFrom(model, 0) then O200k else Cl100k
  }

  /** Both alternatives contain a lower-case "o": a name without one is
      counted with cl100k. */
  lemma NoLowerOMeansCl100k(model: string)
    requires forall i :: 0 <= i < |model| ==> model[i] != 'o'
    ensures SelectEncoder(model) == Cl100k
  {
    forall j: nat
      ensures !OccursAt(model, "o1", j) && !OccursAt(model, "4o", j)
    {
      if j + 2 <= |model| {
        assert model[j..j + 2][0] == model[j] && model[j..j + 2][1] == model[j + 1];
      }
    }
  }

  lemma SelectEncoderExamples()
    ensures SelectEncoder("gpt-4o-mini") == O200k
    ensures SelectEncoder("o1-preview") == O200k
    ensures SelectEncoder("claude-3-5-haiku-20241022") == Cl100k
    ensures SelectEncoder("GPT-4O") == Cl100k
  {
    assert OccursAt("gpt-4o-mini", "4o", 4);
    assert OccursAt("o1-preview", "o1", 0);
    NoLowerOMeansCl100k("claude-3-5-haiku-20241022");
    NoLowerOMeansCl100k("GPT-4O");
  }

  function Encode(e: Encoder, rt: Runtime, text: string): seq<Token> {
    if e == O200k then rt.encodeO200k(text) else rt.encodeCl100k(text)
  }

  /** `msg.content` for a message that is not null; `None` is `undefined`. */
  function ContentOf(msg: Json): Option<Json> {
    if msg.JObject? && "content" in msg.fields then Some(msg.fields["content"]) else None
  }

  /** How `Array.prototype.join` renders one element: undefined and null
      as "", a string as itself, anything else through `ToString`, which
      may throw. */
  function JoinPiece(v: Option<Json>, rt: Runtime): (r: Option<string>)
    ensures r.None? ==> v.Some? && !v.value.JNull? && !v.value.JString?
  {
    if v.None? || v.value.JNull? then Some("")
    else if v.value.JString? then Some(v.value.s)
    else rt.toText(v.value)
  }

  /** A message whose `content` the join can render: it is not null, and
      `ToString` of its content does not throw. */
  predicate Renderable(msg: Json, rt: Runtime) {
    !msg.JNull? && JoinPiece(ContentOf(msg), rt).Some?
  }

  /** `messages.map((msg) => msg.content).join("")` over the elements of
      an array. Reading `content` of a null element and a throwing
      `ToString` are both TypeErrors; neither step has side effects, so
      which of the two is raised first does not show. */
  function JoinContents(ms: seq<Json>, rt: Runtime): (r: Result<string>)
    ensures r.Err? <==> exists i :: 0 <= i < |ms| && !Renderable(ms[i], rt)
    ensures r.Err? ==> r.error == TypeError
  {
    if ms == [] then Ok("")
    else
      var init := JoinContents(ms[..|ms| - 1], rt);
      var last := ms[|ms| - 1];
      assert forall i :: 0 <= i < |ms| - 1 ==> ms[..|ms| - 1][i] == ms[i];
      if init.Err? || !Renderable(last, rt) then Err(TypeError)
      else Ok(init.value + JoinPiece(ContentOf(last), rt).value)
  }

  /** The text of a chat request; `messages.map` on anything but an array
      is a TypeError. */
  function ChatText(messages: Json, rt: Runtime): Result<string> {
    if messages.JArray? then JoinContents(messages.elems, rt) else Err(TypeError)
  }

  /** The text of any other request: a string as it is, anything else
      through `JSON.stringify`. */
  function RawText(messages: Json, rt: Runtime): string {
    if messages.JString? then messages.s else rt.stringify(messages)
  }

  /** `POST /calculate_tokens`: the number of tokens of the request text,
      under the encoder of the model's family. */
  function CalculateTokens(messages: Json, kind: Json, model: string, rt: Runtime): (r: Result<nat>)
    ensures kind != JString("chat") ==> r == Ok(|Encode(SelectEncoder(model), rt, RawText(messages, rt))|)
    ensures r.Err? <==> kind == JString("chat") && ChatText(messages, rt).Err?
  {
    var e := SelectEncoder(model);
    if kind == JString("chat") then
      var text := ChatText(messages, rt);
      if text.Err? then Err(text.error) else Ok(|Encode(e, rt, text.value)|)
    else
      Ok(|Encode(e, rt, RawText(messages, rt))|)
  }

  /** Outside chat mode a string payload is encoded as it is and any other
      payload as its `JSON.stringify` text; neither can fail. */
  lemma RawCount(messages: Json, kind: Json, model: string, rt: Runtime)
    requires kind != JString("chat")
    ensures messages.JString? ==>
              CalculateTokens(messages, kind, model, rt) == Ok(|Encode(SelectEncoder(model), rt, messages.s)|)
    ensures !messages.JString? ==>
              CalculateTokens(messages, kind, model, rt) == Ok(|Encode(SelectEncoder(model), rt, rt.stringify(messages))|)
  {
  }

  // ---------------------------------------------------------------------
  // The chat text is the contents in order, nothing between them

  function Concat(ss: seq<string>): string {
    if ss == [] then "" else ss[0] + Concat(ss[1..])
  }

  lemma {:induction false} ConcatAppend(a: seq<string>, b: seq<string>)
    ensures Concat(a + b) == Concat(a) + Concat(b)
    decreases |a|
  {
    if a != [] {
      assert (a + b)[1..] == a[1..] + b;
      ConcatAppend(a[1..], b);
    } else {
      assert a + b == b;
    }
  }

  /** The join piece of every message of ms. */
  function Pieces(ms: seq<Json>, rt: Runtime): (ps: seq<string>)
    requires forall i :: 0 <= i < |ms| ==> Renderable(ms[i], rt)
    ensures |ps| == |ms|
  {
    seq(|ms|, i requires 0 <= i < |ms| && Renderable(ms[i], rt) => JoinPiece(ContentOf(ms[i]), rt).value)
  }

  /** When every message renders, the chat text is the concatenation of
      the messages' contents in order. */
  lemma {:induction false} JoinIsConcat(ms: seq<Json>, rt: Runtime)
    requires forall i :: 0 <= i < |ms| ==> Renderable(ms[i], rt)
    ensures JoinContents(ms, rt) == Ok(Concat(Pieces(ms, rt)))
    decreases |ms|
  {
    if ms != [] {
      var init := ms[..|ms| - 1];
      JoinIsConcat(init, rt);
      var last := JoinPiece(ContentOf(ms[|ms| - 1]), rt).value;
      assert JoinContents(init, rt) == Ok(Concat(Pieces(init, rt)));
      assert JoinContents(ms, rt) == Ok(Concat(Pieces(init, rt)) + last);
      assert Pieces(ms, rt) == Pieces(init, rt) + [last];
      ConcatAppend(Pieces(init, rt), [last]);
      assert Concat([last]) == last + Concat([]);
      assert Concat(Pieces(ms, rt)) == Concat(Pieces(init, rt)) + last;
    }
  }

  /** Where the k-th content starts in the chat text. */
  function Offset(ps: seq<string>, k: nat): nat
    requires k <= |ps|
  {
    |Concat(ps[..k])|
  }

  /** The k-th content stands, unchanged, right after the contents before
      it: no separator, no reordering. */
  lemma ConcatPlaces(ps: seq<string>, k: nat)
    requires k < |ps|
    ensures var o := Offset(ps, k);
            o + |ps[k]| <= |Concat(ps)| && Concat(ps)[o..o + |ps[k]|] == ps[k]
  {
    assert ps == ps[..k] + ([ps[k]] + ps[k + 1..]);
    ConcatAppend(ps[..k], [ps[k]] + ps[k + 1..]);
    ConcatAppend([ps[k]], ps[k + 1..]);
    assert Concat([ps[k]]) == ps[k] + Concat([]);
  }

  /** A chat request's count is the encoding length of all contents
      joined in order with no separator, under the model's encoder. */
  lemma ChatCount(ms: seq<Json>, model: string, rt: Runtime)
    requires forall i :: 0 <= i < |ms| ==> Renderable(ms[i], rt)
    ensures CalculateTokens(JArray(ms), JString("chat"), model, rt)
            == Ok(|Encode(SelectEncoder(model), rt, Concat(Pieces(ms, rt)))|)
  {
    JoinIsConcat(ms, rt);
  }

  /** A chat request fails with a TypeError when one message is null or
      when `ToString` of one message's content throws, wherever that
      message stands. */
  lemma ChatFailure(ms: seq<Json>, k: nat, model: string, rt: Runtime)
    requires k < |ms|
    requires ms[k].JNull? || (ContentOf(ms[k]).Some? && rt.toText(ContentOf(ms[k]).value).None?
                              && !ContentOf(ms[k]).value.JNull? && !ContentOf(ms[k]).value.JString?)
    ensures CalculateTokens(JArray(ms), JString("chat"), model, rt) == Err(TypeError)
  {
    assert !Renderable(ms[k], rt);
  }
}
