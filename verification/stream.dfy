/**
 * The payment watcher (stream.js): the paging-token cursor kept in the user
 * table under the receiver's address, and the per-payment step that persists
 * the cursor, filters on the receiver and emits a notification.
 */
module Stream {
  import opened Wrappers
  import opened Users

  /** The fields of a ledger payment event that the watcher reads. */
  datatype Payment = Payment(
    from: string,
    to: string,
    amount: string,
    asset_type: string,
    asset_code: string,
    asset_issuer: string,
    paging_token: string)

  /** The socket event name and payload that sendNotification emits. */
  const PaymentReceived: string := "payment_received"
  datatype Emission = Emission(event: string, user_address: string, message: string)

  const MessagePrefix: string := "A payment of "
  const MessageSuffix: string := "has been received"

  /** The notification text; as in the source, no space separates the amount from "has". */
  function PaymentMessage(amount: string): (r: string)
    ensures |r| == |MessagePrefix| + |amount| + |MessageSuffix|
    ensures r[..|MessagePrefix|] == MessagePrefix
    ensures r[|MessagePrefix|..|MessagePrefix| + |amount|] == amount
    ensures r[|MessagePrefix| + |amount|..] == MessageSuffix
  {
    MessagePrefix + amount + MessageSuffix
  }

  /** Recovers the amount from a notification text, if it has the notification's shape. */
  function MessageAmount(message: string): (r: Option<string>)
    ensures r.Some? ==> PaymentMessage(r.value) == message
  {
    var n := |MessagePrefix| + |MessageSuffix|;
    if |message| >= n
       && message[..|MessagePrefix|] == MessagePrefix
       && message[|message| - |MessageSuffix|..] == MessageSuffix
    then
      var amount := message[|MessagePrefix|..|message| - |MessageSuffix|];
      assert message == message[..|MessagePrefix|] + amount + message[|message| - |MessageSuffix|..];
      Some(amount)
    else None
  }

  /** The amount a listener reads back from a notification is the payment's amount. */
  lemma MessageRoundTrip(amount: string)
    ensures MessageAmount(PaymentMessage(amount)) == Some(amount)
  {
  }

  /** The asset label of the log line: `lumens` for the native asset, else `code:issuer`. */
  function AssetLabel(p: Payment): (r: string)
    ensures p.asset_type == "native" ==> r == "lumens"
    ensures p.asset_type != "native" ==> r == p.asset_code + ":" + p.asset_issuer
  {
    if p.asset_type == "native" then "lumens" else p.asset_code + ":" + p.asset_issuer
  }

  /** The label is `lumens` exactly for native payments: a `code:issuer` label always holds a colon. */
  lemma AssetLabelLumensIffNative(p: Payment)
    ensures AssetLabel(p) == "lumens" <==> p.asset_type == "native"
  {
    if p.asset_type != "native" {
      var r := AssetLabel(p);
      assert r[|p.asset_code|] == ':';
      assert ':' !in "lumens";
    }
  }

  /** The object `{ primary_address: address, token }` that savePagingToken hands to addUser. */
  function NewCursorData(address: string, token: string): Object {
    map[PrimaryAddressKey := address, TokenKey := token]
  }

  /** The table after savePagingToken(address, token), `freshId` standing for the uuid addUser would draw. */
  function Saved(users: seq<User>, address: string, token: string, freshId: string): (r: seq<User>)
    ensures |users| <= |r| <= |users| + 1
  {
    match FindIndex(users, PrimaryAddressIs(address))
    case Some(i) => Updated(users, users[i].id, map[TokenKey := token])
    case None => users + [User(freshId, FormatData(NewCursorData(address, token)))]
  }

  /** getLastPagingToken: the saved cursor of the first record for `address`, or `false` (None). */
  function LastPagingToken(users: seq<User>, address: string): (r: Option<string>)
    ensures r.Some? ==> r.value != ""
    ensures r.Some? <==>
      exists i: nat :: IsFirstMatch(users, i, PrimaryAddressIs(address)) && Truthy(users[i].fields, LastPagingTokenKey)
    ensures r.Some? ==>
      exists i: nat :: IsFirstMatch(users, i, PrimaryAddressIs(address)) && users[i].fields[LastPagingTokenKey] == r.value
  {
    match FindIndex(users, PrimaryAddressIs(address))
    case None => None
    case Some(i) =>
      if Truthy(users[i].fields, LastPagingTokenKey) then Some(users[i].fields[LastPagingTokenKey]) else None
  }

  /**
   * When a record for `address` exists, saving changes only its
   * `last_paging_token` (left alone for an empty token); the table keeps its length.
   */
  lemma SavedWhenPresent(users: seq<User>, address: string, token: string, freshId: string, i: nat)
    requires DistinctIds(users)
    requires IsFirstMatch(users, i, PrimaryAddressIs(address))
    ensures var r := Saved(users, address, token, freshId);
      && |r| == |users|
      && (forall j | 0 <= j < |users| && j != i :: r[j] == users[j])
      && r[i].id == users[i].id
      && r[i].fields == if token != "" then users[i].fields[LastPagingTokenKey := token] else users[i].fields
  {
  }

  /**
   * When no record for `address` exists, saving appends exactly one record
   * with the fresh id; an empty address or token is left out of it.
   */
  lemma SavedWhenAbsent(users: seq<User>, address: string, token: string, freshId: string)
    requires forall u | u in users :: !Matches(u, PrimaryAddressIs(address))
    ensures Saved(users, address, token, freshId)
      == users + [User(freshId,
                       (if address != "" then map[PrimaryAddressKey := address] else map[]) +
                       (if token != "" then map[LastPagingTokenKey := token] else map[]))]
  {
    var f := FormatData(NewCursorData(address, token));
    var expected: Object :=
      (if address != "" then map[PrimaryAddressKey := address] else map[]) +
      (if token != "" then map[LastPagingTokenKey := token] else map[]);
    assert f.Keys == expected.Keys;
    forall k | k in f ensures f[k] == expected[k] {
    }
    assert f == expected;
  }

  /** Saving keeps the table invariant when the id it may draw is fresh. */
  lemma SavedWellFormed(users: seq<User>, address: string, token: string, freshId: string)
    requires WellFormed(users)
    requires forall u | u in users :: u.id != freshId
    ensures WellFormed(Saved(users, address, token, freshId))
  {
  }

  /** Round trip: after saving a non-empty token under a non-empty address, reading it back yields it. */
  lemma SaveThenRead(users: seq<User>, address: string, token: string, freshId: string)
    requires DistinctIds(users)
    requires address != "" && token != ""
    ensures LastPagingToken(Saved(users, address, token, freshId), address) == Some(token)
  {
    var r := Saved(users, address, token, freshId);
    match FindIndex(users, PrimaryAddressIs(address))
    case Some(i) =>
      SavedWhenPresent(users, address, token, freshId, i);
      assert IsFirstMatch(r, i, PrimaryAddressIs(address));
      var again := FindIndex(r, PrimaryAddressIs(address));
      FirstMatchUnique(r, PrimaryAddressIs(address), again.value, i);
    case None =>
      SavedWhenAbsent(users, address, token, freshId);
      assert IsFirstMatch(r, |users|, PrimaryAddressIs(address));
      var again := FindIndex(r, PrimaryAddressIs(address));
      FirstMatchUnique(r, PrimaryAddressIs(address), again.value, |users|);
  }

  /**
   * The upsert is idempotent: saving the same cursor twice under a non-empty
   * address gives the table of saving it once; no second record appears.
   */
  lemma SaveIdempotent(users: seq<User>, address: string, token: string, freshId: string, otherId: string)
    requires WellFormed(users)
    requires forall u | u in users :: u.id != freshId
    requires address != ""
    ensures Saved(Saved(users, address, token, freshId), address, token, otherId)
      == Saved(users, address, token, freshId)
  {
    var once := Saved(users, address, token, freshId);
    SavedWellFormed(users, address, token, freshId);
    var i: nat;
    match FindIndex(users, PrimaryAddressIs(address)) {
      case Some(k) =>
        SavedWhenPresent(users, address, token, freshId, k);
        i := k;
      case None =>
        assert once == users + [User(freshId, FormatData(NewCursorData(address, token)))];
        i := |users|;
    }
    assert IsFirstMatch(once, i, PrimaryAddressIs(address));
    var again := FindIndex(once, PrimaryAddressIs(address));
    FirstMatchUnique(once, PrimaryAddressIs(address), again.value, i);
    SavedWhenPresent(once, address, token, otherId, i);
    var twice := Saved(once, address, token, otherId);
    if token != "" {
      assert LastPagingTokenKey in once[i].fields && once[i].fields[LastPagingTokenKey] == token by {
        if i == |users| {
          assert once[i].fields == FormatData(NewCursorData(address, token));
        }
      }
      assert twice[i].fields == once[i].fields;
    }
    assert twice == once;
  }

  /**
   * Saving never adds a second record for a non-empty address: whatever the
   * two tokens, the second save keeps the table's length.
   */
  lemma {:induction false} SaveAddsNoSecondRecord(
    users: seq<User>, address: string, token: string, nextToken: string, freshId: string, otherId: string)
    requires address != ""
    ensures |Saved(Saved(users, address, token, freshId), address, nextToken, otherId)|
      == |Saved(users, address, token, freshId)|
  {
    var once := Saved(users, address, token, freshId);
    if FindIndex(users, PrimaryAddressIs(address)).None? {
      SavedWhenAbsent(users, address, token, freshId);
      assert Matches(once[|users|], PrimaryAddressIs(address));
    } else {
      var i := FindIndex(users, PrimaryAddressIs(address)).value;
      assert Matches(once[i], PrimaryAddressIs(address));
    }
  }

  /** Saving keeps primary addresses unique in a table that has them unique. */
  lemma SavedKeepsPrimaryAddressesUnique(users: seq<User>, address: string, token: string, freshId: string)
    requires DistinctIds(users)
    requires UniquePrimaryAddresses(users)
    ensures UniquePrimaryAddresses(Saved(users, address, token, freshId))
  {
  }

  /** savePagingToken: upsert the cursor into the record keyed by `address`. */
  method SavePagingToken(store: UserStore, address: string, token: string, freshId: string)
    requires store.Valid()
    requires forall u | u in store.users :: u.id != freshId
    modifies store
    ensures store.Valid()
    ensures store.users == Saved(old(store.users), address, token, freshId)
  {
    var user := store.GetUserByAddress(address);
    if user.Some? {
      store.UpdateUser(user.value.id, map[TokenKey := token]);
    } else {
      store.AddUser(NewCursorData(address, token), freshId);
    }
  }

  /** The watcher of openStream, bound to the receiver address and the user table. */
  class PaymentWatcher {
    const receiver: string
    const store: UserStore
    /** The cursor set on the payments query; None when the stream starts without one. */
    var cursor: Option<string>
    /** Every event sent on the notification socket, oldest first. */
    var emitted: seq<Emission>

    ghost predicate Valid()
      reads this, store
    {
      store.Valid()
    }

    constructor (receiver: string, store: UserStore)
      requires store.Valid()
      ensures Valid()
      ensures this.receiver == receiver && this.store == store
      ensures cursor == None && emitted == []
    {
      this.receiver := receiver;
      this.store := store;
      cursor := None;
      emitted := [];
    }

    /** openStream, up to the subscription: resume from the stored cursor only when one was returned. */
    method Open()
      requires Valid()
      modifies this
      ensures Valid()
      ensures cursor == LastPagingToken(store.users, receiver)
      ensures emitted == old(emitted)
    {
      cursor := None;
      var lastToken := LastPagingToken(store.users, receiver);
      if lastToken.Some? {
        cursor := lastToken;
      }
    }

    /** sendNotification: emit the payment message for `address` on the socket. */
    method SendNotification(address: string, amount: string)
      modifies this`emitted
      ensures emitted == old(emitted) + [Emission(PaymentReceived, address, PaymentMessage(amount))]
    {
      var message := PaymentMessage(amount);
      emitted := emitted + [Emission(PaymentReceived, address, message)];
    }

    /**
     * The onmessage handler: persist the payment's paging token first, then
     * drop payments not addressed to the receiver, then notify.
     */
    method OnMessage(p: Payment, freshId: string)
      requires Valid()
      requires forall u | u in store.users :: u.id != freshId
      modifies this, store
      ensures Valid()
      ensures store.users == Saved(old(store.users), receiver, p.paging_token, freshId)
      ensures receiver != "" && p.paging_token != "" ==> LastPagingToken(store.users, receiver) == Some(p.paging_token)
      ensures emitted == old(emitted) +
        if p.to == receiver then [Emission(PaymentReceived, receiver, PaymentMessage(p.amount))] else []
      ensures cursor == old(cursor)
    {
      SavePagingToken(store, receiver, p.paging_token, freshId);
      if receiver != "" && p.paging_token != "" {
        SaveThenRead(old(store.users), receiver, p.paging_token, freshId);
      }
      if p.to != receiver {
        return;
      }
      SendNotification(receiver, p.amount);
    }
  }
}
