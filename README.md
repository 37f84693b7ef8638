# dynamo-client: request construction, modelled in Dafny

`index.ts` is a thin wrapper over the DynamoDB document client. Its own logic
turns plain objects into DynamoDB request parameters:

- `_generateExpression(data, sep)` walks the object's properties in order and,
  for the i-th one, pushes the sub-clause `#i = :vali`, records
  `ExpressionAttributeNames["#i"]` = the property name with every character
  outside `A-Za-z` removed, and `ExpressionAttributeValues[":vali"]` = the
  object's value read under that *sanitised* name. The sub-clauses are joined
  with `' ' + sep + ' '`.
- `getWhere`, `insert`, `getByKey`, `updateByKey` and `deleteByKey` build the
  scan, put, get, update and delete parameters; when timestamps are enabled
  (they are off by default), `insert` and `updateByKey` first write the
  created/updated timestamp (`unixEpoch()`, whole seconds) into the caller's
  object; `getByKey` unwraps `Item` when there is one.
- The constructor reads the flags and the two timestamp field names
  (defaults `createdAt`, `updatedAt`) from the options.
- `DynamoTable` fixes the table name and forwards every call.

Layout: `wrappers.dfy` (Option), `fields.dfy` (JavaScript objects as ordered
property lists, property read and write, the mutable `Document`), `text.dfy`
(sanitising, decimal numerals), `expressions.dfy` (`_generateExpression` as a
loop proved against the function `ExpressionOf`, and the lemmas about it),
`client.dfy` (options, request records, `unixEpoch`, the classes `DynamoDB`
and `DynamoTable`).

The document client is represented by the field `issued`, the list of request
records handed to it; what it answers is a parameter of each operation
(`Reply`: a payload or a transport failure, passed back unchanged). The clock
is the parameter `nowMs`.

Behaviour of the code worth knowing:

- `updateByKey` passes the separator `','`, so update sub-clauses are joined by
  `" , "` (`UpdateClauseExamples`).
- An empty object is not rejected: `getWhere` then sends the empty filter
  text with empty maps (`EmptyExpression`), and so does `updateByKey`, as
  `"SET "`, when timestamps are off; with timestamps on the patched object
  holds the updated field, so the update is `SET #0 = :val0`.
- Values are read under the sanitised name, so a property whose name has
  non-letters is sent as `undefined` unless the object also has the sanitised
  name (`ExpressionValues`, `SanitisedLookupExample`); with a timestamp field
  such as `updated_at` the timestamp is lost the same way.
- `_generateExpression` and `unixEpoch` are methods of the class in the source
  but read none of its fields; here they are the module-level
  `GenerateExpression` and `UnixEpoch`.
- `DynamoTable` is a subclass in the source; Dafny classes here cannot
  inherit, so it holds its own `DynamoDB` (built from the same options) in
  `db` and forwards to it.

## Model

| member | source | states |
|---|---|---|
| Fields.Lookup | index.ts:57 | reading a property gives `undefined` exactly when the name is not a property, otherwise a value stored under that name |
| Fields.LookupAt | index.ts:57 | in an object (unique names) reading the i-th property's name gives the i-th value |
| Fields.AssignLookup | index.ts:99 | after `data[field] = v` the field reads `v` and every other property reads what it did before |
| Fields.AssignKeys | index.ts:119 | `data[field] = v` keeps the property order; a new field is appended last |
| Fields.AssignUnique | index.ts:119 | `data[field] = v` never duplicates a property name |
| Fields.Document.Set | index.ts:99 | the caller's object is changed in place to the assigned property list, keeping its names unique |
| Text.Sanitize | index.ts:55 | the sanitised name has only ASCII letters, is no longer than the name, and equals it when it is letters only |
| Text.SanitizeIdempotent | index.ts:55 | sanitising twice changes nothing |
| Text.SanitizeKeeps | index.ts:55 | a character is in the sanitised name exactly when it is a letter of the name |
| Text.SanitizeConcat | index.ts:55 | the replacement works character by character: it distributes over concatenation |
| Text.Decimal | index.ts:56 | the numeral of an index is non-empty, all digits, without a leading zero, and its digits denote the index |
| Text.DecimalInjective | index.ts:56 | distinct indices have distinct numerals |
| Expressions.PlaceholderInjective | index.ts:56-58 | distinct indices give distinct `#i` and `:vali` placeholders |
| Expressions.SubClauses | index.ts:56 | n properties give n sub-clauses, the i-th being `#i = :vali` |
| Expressions.GenerateExpression | index.ts:50-65 | the push-and-assign loop returns exactly the expression `ExpressionOf(data, sep)` |
| Expressions.EntriesUpTo | index.ts:54-59 | once the loop has passed property i, `#i` maps to its sanitised name and `:vali` to the value read under that name |
| Expressions.KeysUpTo | index.ts:54-59 | after k properties each side map holds exactly the k placeholders 0..k-1 |
| Expressions.ExpressionPlaceholders | index.ts:54-63 | n properties give exactly n names `#0..#(n-1)` and n values `:val0..:val(n-1)`, dense and zero-based |
| Expressions.ExpressionNames | index.ts:55-58 | `names["#i"]` is the i-th property name with non-letters removed, so letters only |
| Expressions.ExpressionValues | index.ts:55-57 | `values[":vali"]` is the value read under the sanitised i-th name: the property's own value when its name is letters only, `undefined` when the sanitised name is not a property |
| Expressions.CollidingNames | index.ts:55-58 | two names that sanitise alike still get distinct placeholders, standing for the same name |
| Expressions.EmptyExpression | index.ts:51-64 | an object without properties gives the text "" and empty side maps |
| Expressions.JoinChars | index.ts:61 | every character of a join comes from the separator or a part |
| Expressions.ClauseAlphabet | index.ts:56-61 | the expression text holds only placeholder characters and the separator, never a name or value |
| Expressions.FirstSubClauses | index.ts:56 | sub-clauses 0 and 1 are `#0 = :val0` and `#1 = :val1` |
| Expressions.FilterClauseExample | index.ts:81 | the filter text for two properties is `#0 = :val0 AND #1 = :val1` |
| Expressions.UpdateClauseExamples | index.ts:121 | update texts for one and two properties are `#0 = :val0` and `#0 = :val0 , #1 = :val1` |
| Expressions.SanitisedLookupExample | index.ts:55-58 | `{user_id: "u1"}` is sent as name `userid` with an `undefined` value |
| Client.SelectItem | index.ts:113 | the item is unwrapped exactly when the response exists and has an `Item`; otherwise the response comes back unchanged |
| Client.UnixEpoch | index.ts:70-72 | the result is the clock's whole seconds truncated toward zero: `s*1000 <= ms < s*1000 + 1000` for a non-negative clock |
| Client.EpochMonotone | index.ts:71 | a later clock reading never gives an earlier second |
| Client.EpochConstantWithinSecond | index.ts:71 | every reading within one whole second gives that second |
| Client.DynamoDB.constructor | index.ts:36-43 | flags come from the options (absent means off); field names default to `createdAt`/`updatedAt` and are replaced only by a non-empty option; nothing has been sent |
| Client.DynamoDB.GetWhere | index.ts:80-90 | sends one scan of `table` filtered by the expression of `where` with `AND`; returns the reply unchanged |
| Client.DynamoDB.Insert | index.ts:93-103 | with timestamps on the caller's object gets the created field set to the epoch second and nothing else changes; off, it is untouched; sends one put whose item is that object |
| Client.DynamoDB.GetByKey | index.ts:106-114 | sends one get of `keys` from `table`; a delivered response is passed through `SelectItem`, a failure unchanged |
| Client.DynamoDB.UpdateByKey | index.ts:117-132 | the updated field is set first when timestamps are on; sends one update with `SET ` + the expression of the patched object with `,`, its values and names, and `UPDATED_NEW` |
| Client.DynamoDB.DeleteByKey | index.ts:135-142 | sends one delete of `keys` from `table`; returns the reply unchanged |
| Client.DynamoTable.constructor | index.ts:151-154 | stores the table and a fresh client built from the same options |
| Client.DynamoTable.GetByKey | index.ts:155-157 | sends the get the unscoped call with the stored table sends, with the same result |
| Client.DynamoTable.UpdateByKey | index.ts:158-160 | the update and the object change of the unscoped call with the stored table |
| Client.DynamoTable.DeleteByKey | index.ts:161-163 | the delete the unscoped call with the stored table sends |
| Client.DynamoTable.GetWhere | index.ts:164-166 | the scan the unscoped call with the stored table sends |
| Client.DynamoTable.Insert | index.ts:167-169 | the put and the object change of the unscoped call with the stored table |
| Client.UpdateCoversTimestamp | index.ts:118-127 | after the timestamp is written, some placeholder pair of the update names a letters-only updated field and carries the epoch second |
| Client.RequestTextsArePlaceholders | index.ts:80-127 | the scan filter and the update text consist of placeholders, the separator and `SET` only |
| Client.InsertExample | index.ts:94-100 | `{name: "Ann"}` with timestamps on becomes `{name: "Ann", createdAt: t}` |
| Client.UpdateExample | index.ts:117-129 | updating `{status: "active"}` under `{id: 1}` sends `SET #0 = :val0`, `{"#0": "status"}`, `{":val0": "active"}`, `UPDATED_NEW` |
| Client.GetWhereExample | index.ts:80-87 | filtering on `{status: "active", role: "admin"}` scans with `#0 = :val0 AND #1 = :val1` and two placeholder pairs |
| Client.ScopedReadsMatchUnscoped | index.ts:155-166 | a scoped and an unscoped client send identical get, scan and delete requests |
| Client.ScopedWritesMatchUnscoped | index.ts:158-169 | a scoped and an unscoped client send identical put and update requests and leave the caller's objects equal |

## Left out

- `AWS.config.update`, the region and credential options and the `DocumentClient` construction (index.ts:24-35): process-wide SDK configuration and a foreign client; the constructors take no region.
- `getConnection` (index.ts:75-77): it returns the foreign client.
- `_log` and `console.log` (index.ts:45-47): output only; `isVerbose` is stored and never read.
- The network calls and `.promise()`/`async` (index.ts:89, 102, 112, 131, 141): each is one appended request record; the reply is a parameter.
- Client.UnixEpoch: `Date.now()` is the parameter `nowMs`, and `Math.trunc(ms / 1000)` is modelled as integer truncation; the floating-point quotient is rounded, but for every clock reading below 2^53 ms truncating the rounded quotient gives the same integer.
- Fields.Lookup: properties inherited from `Object.prototype` (a sanitised name such as `constructor`) are not modelled; such a read gives `undefined` here.
- Object property order: `Object.keys` lists integer-like names first; the model keeps insertion order for all names.
- Options are typed: a truthy non-boolean `timestampsEnabled` or a non-string field name is not modelled.
- Client.DynamoDB.Insert: the put request holds the caller's object itself; the model records its properties as they are when the request is sent.
- Client.DynamoDB.UpdateByKey: `keys` is taken by value, so aliasing between `keys` and `data` is not modelled; in `updateByKey(t, o, o)` with timestamps on the source sends `Key: o` including the timestamp just written, while the model sends `keys` as passed.
- Client.DynamoTable.constructor: the subclass relation is modelled by composition, so the inherited `_generateExpression`, `unixEpoch` and `getConnection` are reached through `db`, not through the table client.
