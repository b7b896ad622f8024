# stellar-multisig: user table and payment watcher

A Dafny model of the two pieces of original logic in the stellar-multisig demo wallet relay.

- **The user record table** (`users.js`). A list of records. Each record has an `id` and, optionally, `primary_address`, `secondary_address` and `last_paging_token`.
  - `formatData` whitelists and renames the fields of an input object.
  - `addUser` appends a record with a fresh id.
  - `updateUser` merges formatted fields into the record with a given id.
  - `getUser` and `getUserByAddress` return the first matching record.
- **The payment watcher** (`stream.js`).
  - `savePagingToken` upserts the receiver's cursor, keyed by primary address.
  - `getLastPagingToken` reads the cursor back, or gives `false`.
  - `openStream` resumes from the stored cursor when there is one.
  - The `onmessage` handler does three things in order. It persists the payment's paging token. It drops payments not addressed to the receiver. It sends a "payment received" notification for the rest.
  - The asset label of the log line is a pure function.

Modelling choices:

- A JavaScript object is a `map<string, string>`. An absent key is `undefined`. A string property is truthy when it is present and non-empty.
- A record is `User(id, fields)`. The table is `UserStore.users`, a `seq<User>` that `AddUser` and `UpdateUser` reassign.
- lodash's `find` is `FindIndex`: a left-to-right search for the first record matching `{ id }` or `{ primary_address }`.
- The id that `uuid()` would draw is a `freshId` parameter. A precondition says it differs from every stored id.
- The table invariant `WellFormed` says ids are distinct and records carry only the three whitelisted properties. Every operation keeps it.
- The notification socket is the watcher's `emitted` log of `(event, user_address, message)` triples.
- `Saved` and `Updated` are value-level specifications of the two state changes. The methods are proved equal to them, and the properties are proved as lemmas about them.
- A lookup of an id that is absent leaves `updateUser` with nothing to change. lodash then assigns into a detached object, so the table stays the same.
- An empty address is falsy. `formatData` drops it, so `savePagingToken("", t)` appends a record that no address lookup can find. For this reason the round-trip and idempotence lemmas require a non-empty address.
- The notification text (stream.js:93) is `'A payment of ' + amount + 'has been received'`, with no space before "has". `PaymentMessage` keeps it as written.
- `savePagingToken` treats the table as keyed by primary address, and keeps primary addresses unique (`Stream.SavedKeepsPrimaryAddressesUnique`). `addUser` does not: it appends without looking, so `createSecondaryAccount` (users.js:116-119) can add a second record for an address that already has one (`Users.AppendCanDuplicatePrimary`).

## Model

| member | source | states |
|---|---|---|
| Users.FormatData | users.js:76-87 | The result holds only `primary_address`, `secondary_address` and `last_paging_token`. Each is present iff the input's `primary_address`, `secondary_address` or `token` is truthy, and then carries that value unchanged. No stored value is empty. |
| Users.FormatDataIgnoresOtherKeys | users.js:76-87 | Adding, changing or removing any input property other than `primary_address`, `secondary_address` and `token` leaves the result unchanged. |
| Users.Merge | users.js:65 | lodash `assign` on a found record: properties supplied overwrite, all other properties and the id are kept, and the key set is the union. |
| Users.FindIndex | users.js:19-21 | The result is the position of the first record matching the query, or none when no record matches. |
| Users.FindByAddressIgnoresSecondary | users.js:33-35 | Tables that differ only in `secondary_address` give the same lookup by address. |
| Users.UserStore.GetUser | users.js:17-22 | The result is absent iff no record has the id; otherwise it is the first record with that id. When ids are distinct, it is the one stored record with that id. |
| Users.UserStore.GetUserByAddress | users.js:31-36 | The result is absent iff no record has that primary address; otherwise it is the first record whose `primary_address` equals it. |
| Users.UserStore.AddUser | users.js:44-51 | The table grows by exactly one record at the end, with the fresh id and exactly the fields of `formatData(data)`. Earlier records are unchanged and the invariant is kept. |
| Users.AppendCanDuplicatePrimary | users.js:44-51 | Appending a record whose truthy primary address is already held by a stored record leaves two records with that primary address. |
| Users.Updated | users.js:60-67 | The table that updateUser leaves behind. It has the same length as before; its other properties are stated by the lemmas below. |
| Users.UserStore.UpdateUser | users.js:60-67 | The new table is `Updated(old table, id, data)` and the invariant is kept. |
| Users.UpdatedChangesOnlyThatRecord | users.js:60-67 | With distinct ids, only the record with that id changes. Its supplied formatted fields are overwritten, its other fields and its id are kept, and the length and every other record stay the same. An unknown id changes nothing. |
| Users.UpdatedIdempotent | users.js:60-67 | Applying the same update twice gives the same table as applying it once. |
| Users.UpdatedWellFormed | users.js:60-67 | Updating keeps ids distinct and properties whitelisted. |
| Stream.LastPagingToken | stream.js:76-84 | The result is a token iff the first record with that primary address has a truthy `last_paging_token`, and then it is that token. Otherwise it is `false` (None), including when no record matches. |
| Stream.SavedWhenPresent | stream.js:62-65 | When a record with that primary address exists, its `last_paging_token` becomes the token (an empty token changes nothing). Its id and other fields, every other record and the length are unchanged. |
| Stream.Saved | stream.js:62-66 | The table that savePagingToken leaves behind: it either keeps its length or grows by exactly one record. |
| Stream.SavedWhenAbsent | stream.js:62-65 | When no record has that primary address, exactly one record is appended, with the fresh id. It holds `primary_address` when the address is non-empty and `last_paging_token` when the token is non-empty, and nothing else. Earlier records are unchanged. |
| Stream.SaveAddsNoSecondRecord | stream.js:62-65 | For a non-empty address, a second save keeps the table's length, whatever the two tokens are. |
| Stream.SavedKeepsPrimaryAddressesUnique | stream.js:62-65 | With distinct ids, a table whose primary addresses are unique keeps them unique after a save. |
| Stream.SavedWellFormed | stream.js:62-65 | Saving a cursor with a fresh id keeps the table invariant. |
| Stream.SaveThenRead | stream.js:62-84 | After saving a non-empty token under a non-empty address, reading the cursor of that address gives the token back. |
| Stream.SaveIdempotent | stream.js:62-65 | Saving the same cursor twice under a non-empty address gives the table of saving it once, so no second record appears. |
| Stream.SavePagingToken | stream.js:62-66 | The new table is `Saved(old table, address, token, freshId)` and the invariant is kept. |
| Stream.PaymentMessage | stream.js:93 | The text is "A payment of ", then the amount, then "has been received", with no space before "has". |
| Stream.MessageAmount | stream.js:93 | The inverse of `PaymentMessage`, used only for the round trip; no source code parses messages. Any amount it extracts rebuilds the given message exactly. |
| Stream.MessageRoundTrip | stream.js:93 | The amount read back from a notification text is the payment's amount. |
| Stream.AssetLabel | stream.js:44 | The label is `lumens` for asset type `native`, and otherwise `asset_code:asset_issuer`. |
| Stream.AssetLabelLumensIffNative | stream.js:44 | The label is `lumens` exactly when the asset type is `native`. |
| Stream.PaymentWatcher.Open | stream.js:16-26 | The stream's cursor is the stored token when `getLastPagingToken` returns one; otherwise no cursor is set. No notification is emitted. |
| Stream.PaymentWatcher.SendNotification | stream.js:92-98 | Exactly one `payment_received` event is appended. It carries the address and the payment message. |
| Stream.PaymentWatcher.OnMessage | stream.js:30-47 | The paging token is always persisted under the receiver first, including for payments to other addresses. When the receiver and the paging token are non-empty, the token can then be read back. A notification with the receiver and the message is emitted iff `payment.to` equals the receiver. The cursor is unchanged. |

## Left out

- The lowdb file persistence (`.write()`) is not modelled. The table is in-memory state.
- `uuid()` is a parameter: the fresh id is supplied by the caller.
- `console.log` lines are not modelled. These include the log line that prints the asset label; the label itself is modelled.
- The asynchronous subscription and its `onerror` handler (stream.js:29-52) are not modelled. Each arriving payment is one call to `OnMessage`.
- The socket.io transport is not modelled. An emitted event is appended to a log.
- Reading `RECEIVER_ADDR` from the environment is not modelled. It becomes the watcher's `receiver`, always a string.
- `getSecondaryAddress` (users.js:96-100) is not modelled. It reads an undefined variable, so it fails with a reference error rather than returning a value.
- `createSecondaryAccount` (users.js:109-126) is not modelled. Its result comes from a network call to create an account. The `addUser` it makes is `AddUser`.
- Keypair generation, funding, transaction building, signing and submission (index.js, server.js) are not modelled. They are calls into the ledger SDK and the network.
- The notification relay and browser page (notifications.js, public/notifications.js) are not modelled. They are transport and UI.
- The Python key helpers (check.py, generate.py) are not modelled.
- Aliasing of returned records is not modelled: `getUser` and `getUserByAddress` return copies, not live references that a later `updateUser` changes. No modelled caller depends on it, because `savePagingToken` reads only the id, which never changes.
- Property values are modelled as strings only. Non-string JavaScript values (numbers, `null`, objects) are not represented.
