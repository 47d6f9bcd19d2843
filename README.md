# Prepaid billing backend: ledger, pricing and token counting

This project models the core of a small prepaid-billing backend for a chat front end. The model has two parts.

`Db` covers the storage layer in `api/routes/db.js`:
- a price catalog (`model_prices`: model name to input and output price per million tokens), seeded at start-up by upserts;
- a users table (`users`: id to an account record with a prepaid balance).

`Server` covers the three request handlers in `api/routes/server.js`:
- `/post_user_info` registers a caller on first contact;
- `/post_result` prices a finished model call, debits the caller and answers with a stats line;
- `/calculate_tokens` counts a prompt's tokens with the encoder of the model's family.

Money is exact. Every amount is an integer number of 1/10000 units. A literal is written with `_` where the decimal point goes, so `0_1875` is 0.1875 and `10_0000` is 10.0. `NumberFormat` models the two formatting steps the handlers use:
- `Number.prototype.toFixed(4)` from ECMA-262 section 21.1.3.3: take the sign off, then pick the integer nearest to x·10⁴, the larger one on a tie;
- `parseFloat` of the text that produces.

The two tables are the fields of the class `Db.Database`, and its methods update them in place. Each method is proved equal to a pure function: `Db.TouchUser` for `getOrCreateUser` and `Db.Debit` for `updateUserBalance`. The properties are proved about those functions.

A failing sqlite statement is a parameter:
- `Fault = Healthy | ReadError | WriteError` for the user statements;
- `lookupFails` for the price query.

The tokenizers, `JSON.stringify` and JavaScript's `ToString` are opaque functions in a `Runtime` value.

Three behaviours of the code are easy to misread, and the model keeps them as written:
- **Debiting an unknown id.** The code inserts a fresh row at 10.0. It resolves to 10.0 − cost without clamping and without storing it (`Db.DebitUnknown`, `Db.DebitUnknownUnclamped`). One would expect the debit to land on the new row; it does not.
- **A chat message without `content`.** It contributes `""` to the joined text. A chat request fails, with a TypeError, only when `messages` is not an array, when a message is `null`, or when `ToString` of a message's content throws (an object whose `toString` is not callable).
- **Retries.** None are made on storage errors.

## Model

| member | source | states |
|---|---|---|
| Db.Upsert | api/routes/db.js:52-56 | a later `INSERT OR REPLACE` for the same model name replaces an earlier one |
| Db.UpsertOverrides | api/routes/db.js:52-56 | upserting a list overrides the old table with the table the list alone would build; rows the list does not name are kept |
| Db.UpsertTwice | api/routes/db.js:52-56 | seeding twice gives the same table as seeding once |
| Db.UpsertLookup | api/routes/db.js:52-56 | when model names are distinct, each listed model looks up to exactly its listed prices, and an unlisted model keeps its previous lookup |
| Db.DefaultModelsDistinct | api/routes/db.js:17-50 | the catalog has 26 entries and no model name twice |
| Db.LookupAfterSeeding | api/routes/db.js:17-56 | after seeding, each of the 26 catalog models looks up to its listed prices; a model named neither by the catalog nor by the earlier table gets (60, 60) |
| Db.Database.SeedPrices | api/routes/db.js:52-56 | the loop leaves the price table equal to the old table upserted with the catalog in order; the users table is untouched |
| Db.Database.Open | api/routes/db.js:7-57 | opening the store seeds the catalog over the stored prices and keeps the stored users |
| Db.PriceOf | api/routes/db.js:75-81 | the exact-match lookup: the stored pair for a listed model, (60, 60) otherwise; its properties after seeding are `Db.UpsertLookup` and `Db.LookupAfterSeeding` |
| Db.Database.GetModelPrices | api/routes/db.js:73-85 | it fails exactly when the query fails; a stored model gives its stored pair; an absent model gives (60, 60) |
| Db.NewUser | api/routes/db.js:107-127 | the record inserted for a first-seen id: name and email default to "", role to "user", balance 10.0; `Db.TouchNew` states it field by field |
| Db.TouchUser | api/routes/db.js:88-134 | a failing SELECT rejects; a failing INSERT for a new id rejects; no stored row ever changes; an error leaves the table as it was; an account reply is the row now stored under the requested id; the table changes only when the store is healthy and the id is new, and then only by adding the new record; "rows are filed under their own id, balance ≥ 0" is preserved |
| Db.TouchAnonymous | api/routes/db.js:90-94 | without user data or without an id, the reply is `{ balance: 0 }` and the table is unchanged |
| Db.TouchExisting | api/routes/db.js:96-104 | a stored id returns its row as stored and writes nothing |
| Db.TouchNew | api/routes/db.js:105-128 | a new id is stored with name and email defaulting to "", role to "user", balance 10.0; exactly that record is returned; no other row changes |
| Db.TouchIdempotent | api/routes/db.js:88-134 | after a successful call, a second call with the same data returns the same reply and changes nothing |
| Db.Database.GetOrCreateUser | api/routes/db.js:88-134 | the new users table and the reply are those of `Db.TouchUser`; the price table and the class invariant are kept |
| Db.Debited | api/routes/db.js:160 | the new balance is max(0, balance − cost): never negative, never below balance − cost, and equal to one of the two |
| Db.Debit | api/routes/db.js:137-175 | a falsy id gives 0 and no change; with an id, a failing SELECT, INSERT or UPDATE rejects and changes nothing; an error leaves the table as it was; no other user's row changes; no key appears except the id; the invariant "balance ≥ 0 and filed under own id" is preserved |
| Db.DebitExisting | api/routes/db.js:159-171 | a stored user's balance becomes max(0, balance − cost), which is both stored and returned; nothing else changes |
| Db.DebitUnknown | api/routes/db.js:147-158 | an unknown id gets a row with only the id and a balance of 10.0; the call returns 10.0 − cost, which is not stored |
| Db.DebitUnknownUnclamped | api/routes/db.js:147-158 | for an unknown id "u1" and a cost of 20.0, the call reports −10.0 while 10.0 is stored |
| Db.DebitWithoutWrite | api/routes/db.js:137-175 | with a falsy id nothing is written and the call resolves to 0; with an id and a failing statement nothing is written and the call rejects |
| Db.DebitTimesFloor | api/routes/db.js:159-171 | n successive debits of a non-negative cost c take a stored balance B to max(0, B − n·c) |
| Db.Database.UpdateUserBalance | api/routes/db.js:137-175 | the new users table and the result are those of `Db.Debit`; the price table and the class invariant are kept |
| NumberFormat.RoundHalfUp | api/routes/server.js:32-36 | the result r satisfies −d ≤ 2(n − d·r) < d, so it is the integer nearest n/d, the larger one on a tie |
| NumberFormat.ToFixed4 | api/routes/server.js:32-36 | the sign is that of the value, and the magnitude is rounded half up to 1/10000 units |
| NumberFormat.ParseFloat | api/routes/server.js:43 | the value read back is zero exactly when the magnitude is zero, and negative exactly when the sign is set on a nonzero magnitude |
| NumberFormat.ExactToFixed | api/routes/server.js:49-51 | a balance that is already a whole number of units is rendered exactly and reads back unchanged |
| NumberFormat.IntText | api/routes/server.js:49 | the text of an integral number: non-empty, "-" first exactly when it is negative, digits after that; `NumberFormat.IntTextRoundTrip` reads it back |
| NumberFormat.FixedText | api/routes/server.js:32-36 | the string `toFixed(4)` returns: "-" first exactly when the sign is set, "." fifth from the end, then exactly four digits; `NumberFormat.FixedTextRoundTrip` reads it back |
| NumberFormat.Digits | api/routes/server.js:49 | the decimal text of a number is non-empty and made of digits |
| NumberFormat.DigitsValueOfDigits | api/routes/server.js:49 | reading back the decimal text of n gives n |
| NumberFormat.NatTextRoundTrip | api/routes/server.js:49 | the decimal text of n, followed by anything that is not a digit, reads back as n and leaves exactly what followed |
| NumberFormat.IntTextRoundTrip | api/routes/server.js:49 | a token count's text, followed by a non-digit, reads back as the same integer, sign included |
| NumberFormat.Pad4Value | api/routes/server.js:32-36 | the four fraction digits of n < 10000 read back as n |
| NumberFormat.FractionRoundTrip | api/routes/server.js:32-36 | "." and the four fraction digits read back as the fraction and leave exactly what follows |
| NumberFormat.FixedPartsRoundTrip | api/routes/server.js:32-36 | a sign, a whole part, "." and four digits read back as the amount they write |
| NumberFormat.FixedTextRoundTrip | api/routes/server.js:32-36 | the text `toFixed(4)` writes reads back as the same sign and magnitude, whatever follows it |
| Server.TotalCost | api/routes/server.js:31-36 | the cost has the sign of in·IP + out·OP, and its magnitude is that amount divided by 10⁶ and rounded half up to 4 decimals |
| Server.CostNonNegative | api/routes/server.js:31-36 | non-negative token counts at non-negative prices give a cost that is not negative and reads back as ≥ 0 |
| Server.FreeModelCostsNothing | api/routes/server.js:31-36 | a model priced (0, 0) costs "0.0000" whatever the token counts |
| Server.ZeroText | api/routes/server.js:32-36 | a zero amount is written "0.0000" |
| Server.CostExample | api/routes/server.js:31-36 | 1000 input and 500 output tokens at (2, 4) per million cost "0.0040" |
| Server.StatsText | api/routes/server.js:49-51 | the stats line opens with the fixed lead and ends with the balance to four decimals; `Server.StatsRoundTrip` shows it carries exactly the four figures in order |
| Server.StatsRoundTrip | api/routes/server.js:49-51 | the stats line reads back as exactly the input count, the output count, the cost and the balance to 4 decimals, in that order |
| Server.InputRoundTrip | api/routes/server.js:49 | the input count followed by its separator is read as that count, and reading goes on with the remaining text |
| Server.OutputRoundTrip | api/routes/server.js:49 | the output count followed by its separator is read as that count, and reading goes on with the remaining text |
| Server.CostRoundTrip | api/routes/server.js:49 | the cost followed by its separator is read as that cost, and reading goes on with the remaining text |
| Server.BalanceRoundTrip | api/routes/server.js:49-51 | the closing balance is read back exactly, with nothing after it |
| Server.StripPrefixOf | api/routes/server.js:49 | a fixed separator is recognised and removed |
| Server.UserId | api/routes/server.js:39 | `user?.id`: the id when the user object is present, nothing otherwise; `Server.PostResult` uses it as the debited id |
| Server.ShownBalance | api/routes/server.js:40-47 | the balance shown: what the debit resolved to, or 0 when it rejected; `Server.PostResult` states the outcome |
| Server.PostResult | api/routes/server.js:28-63 | a failed price lookup fails the request and changes nothing. Otherwise the ledger is debited by the rounded cost (`parseFloat(totalCost)`), the reply succeeds, and its stats line reads back as (input, output, cost, balance shown). With no id or a failing ledger, no row is written and the balance shown is 0.0000 |
| Server.PostUserInfo | api/routes/server.js:15-26 | the user is touched only when `user.id` is present; the reply fails exactly when that touch fails; without an id nothing changes |
| Server.MatchesFrom | api/routes/server.js:71 | the scan from i is true exactly when "o1" or "4o" occurs at some position ≥ i |
| Server.SelectEncoder | api/routes/server.js:71-73 | o200k is chosen exactly when the model name contains "o1" or "4o" (case-sensitive); cl100k otherwise |
| Server.NoLowerOMeansCl100k | api/routes/server.js:71-73 | a name without a lower-case "o" is counted with cl100k |
| Server.SelectEncoderExamples | api/routes/server.js:71-73 | "gpt-4o-mini" and "o1-preview" go to o200k; "claude-3-5-haiku-20241022" and "GPT-4O" go to cl100k |
| Server.Encode | api/routes/server.js:71-73 | the token sequence under the selected encoder, o200k or cl100k |
| Server.ContentOf | api/routes/server.js:81 | `msg.content`: the field of an object that has one, undefined for any other non-null message |
| Server.JoinPiece | api/routes/server.js:81 | how the join renders one content: undefined and null as "", a string as itself, anything else by `ToString`; it fails only for content that is neither of the first three |
| Server.JoinContents | api/routes/server.js:81 | joining fails exactly when some message is null or some content's `ToString` throws, and then with a TypeError |
| Server.ChatText | api/routes/server.js:81 | the chat text: a non-array `messages` is a TypeError, an array is joined by `Server.JoinContents` |
| Server.RawText | api/routes/server.js:85-86 | a string payload as it is, anything else through `JSON.stringify`; `Server.RawCount` states the count |
| Server.CalculateTokens | api/routes/server.js:65-94 | outside chat mode the count is the encoding length of the raw text under the selected encoder; the request fails exactly in chat mode when flattening the messages fails |
| Server.RawCount | api/routes/server.js:84-88 | a string payload is encoded as it is; any other payload is encoded as its `JSON.stringify` text |
| Server.ConcatAppend | api/routes/server.js:81 | concatenation distributes over appending lists of contents |
| Server.JoinIsConcat | api/routes/server.js:81 | without null messages, the joined text is the messages' contents concatenated in order |
| Server.ConcatPlaces | api/routes/server.js:81 | in the joined text the k-th content stands, unchanged, right after the contents before it: no separator, no reordering |
| Server.ChatCount | api/routes/server.js:80-82 | when every message renders, a chat request's count is the encoding length of all contents joined in order with no separator |
| Server.ChatFailure | api/routes/server.js:80-92 | a null message, or a content whose `ToString` throws, anywhere in the list, fails the chat request with a TypeError |

## Left out

- The Express and body-parser setup, `app.listen`, HTTP status codes and console logging (api/routes/server.js:1-13, 96-99). A failed request is an `Err` result.
- The sqlite connection, the CREATE TABLE statements and the callback/Promise wiring (api/routes/db.js:1-14, 59-70). The tables are maps, and each statement's possible failure is a `Fault` or `lookupFails` parameter.
- The gpt-tokenizer encoders, `JSON.stringify` and JavaScript's `ToString` of non-string content. These are opaque functions of a `Runtime` value; `ToString` may fail, which stands for the TypeError it throws.
- Binary floating point in the REAL columns and in JavaScript arithmetic. Amounts are exact integers of 1/10000 units. Every catalog price has at most four decimals, and the debit is always the rounded cost. Token counts are integers.
- NumberFormat.ToFixed4 does not model the exponent form `toFixed` uses for magnitudes of 10²¹ and more, because no cost or balance in this system comes near it.
- The lost-update race between the read and the write of a debit. The model is sequential.
- Non-string `model` or `id` values, and a missing `messages` field. Request fields are typed: strings, integer token counts and JSON values.
- Seeding errors. Each catalog statement is assumed to succeed, as the code neither checks nor reports them.
- The Python filter that calls these endpoints is a network client and is not part of this model.
