/**
 * The user record table (users.js): an ordered list of records, each an `id`
 * plus the whitelisted properties `primary_address`, `secondary_address` and
 * `last_paging_token`. Lookups return the first record that matches; new
 * records are appended; updates merge properties into a record in place.
 */
module Users {
  import opened Wrappers

  /** A JavaScript object whose properties hold strings; an absent key reads as `undefined`. */
  type Object = map<string, string>

  const PrimaryAddressKey: string := "primary_address"
  const SecondaryAddressKey: string := "secondary_address"
  const LastPagingTokenKey: string := "last_paging_token"
  /** The input property that formatData stores under `last_paging_token`. */
  const TokenKey: string := "token"

  /** The only properties a stored record carries besides its id. */
  const StoredKeys: set<string> := {PrimaryAddressKey, SecondaryAddressKey, LastPagingTokenKey}

  /** JavaScript truthiness of the string property `o[k]`: defined and non-empty. */
  predicate Truthy(o: Object, k: string) {
    k in o && o[k] != ""
  }

  /**
   * One record of the table. The id is kept apart from the other properties
   * because it is set once, by addUser, and formatData never produces it.
   */
  datatype User = User(id: string, fields: Object)

  /** formatData: keep the truthy whitelisted properties, storing `token` as `last_paging_token`. */
  function FormatData(data: Object): (r: Object)
    ensures r.Keys <= StoredKeys
    ensures forall k | k in r :: r[k] != ""
    ensures PrimaryAddressKey in r <==> Truthy(data, PrimaryAddressKey)
    ensures SecondaryAddressKey in r <==> Truthy(data, SecondaryAddressKey)
    ensures LastPagingTokenKey in r <==> Truthy(data, TokenKey)
    ensures PrimaryAddressKey in r ==> r[PrimaryAddressKey] == data[PrimaryAddressKey]
    ensures SecondaryAddressKey in r ==> r[SecondaryAddressKey] == data[SecondaryAddressKey]
    ensures LastPagingTokenKey in r ==> r[LastPagingTokenKey] == data[TokenKey]
  {
    var withPrimary: Object :=
      if Truthy(data, PrimaryAddressKey) then map[PrimaryAddressKey := data[PrimaryAddressKey]] else map[];
    var withSecondary :=
      if Truthy(data, SecondaryAddressKey) then withPrimary[SecondaryAddressKey := data[SecondaryAddressKey]] else withPrimary;
    if Truthy(data, TokenKey) then withSecondary[LastPagingTokenKey := data[TokenKey]] else withSecondary
  }

  /** Properties of the input other than the three formatData reads have no effect on its result. */
  lemma FormatDataIgnoresOtherKeys(data: Object, k: string, v: string)
    requires k != PrimaryAddressKey && k != SecondaryAddressKey && k != TokenKey
    ensures FormatData(data[k := v]) == FormatData(data)
    ensures FormatData(data - {k}) == FormatData(data)
  {
  }

  /** lodash `assign` on a found record: the properties of `f` overwrite, the rest and the id stay. */
  function Merge(u: User, f: Object): (r: User)
    ensures r.id == u.id
    ensures r.fields.Keys == u.fields.Keys + f.Keys
    ensures forall k | k in f :: r.fields[k] == f[k]
    ensures forall k | k in u.fields && k !in f :: r.fields[k] == u.fields[k]
  {
    User(u.id, u.fields + f)
  }

  /** The two match objects the source hands to `find`: `{ id }` and `{ primary_address }`. */
  datatype Query = IdIs(id: string) | PrimaryAddressIs(address: string)

  /** A record matches `{ primary_address: a }` only through its own primary address. */
  predicate Matches(u: User, q: Query) {
    match q
    case IdIs(id) => u.id == id
    case PrimaryAddressIs(a) => PrimaryAddressKey in u.fields && u.fields[PrimaryAddressKey] == a
  }

  /** `i` is the position of the first record of `users` that matches `q`. */
  predicate IsFirstMatch(users: seq<User>, i: nat, q: Query) {
    i < |users| && Matches(users[i], q) && forall j | 0 <= j < i :: !Matches(users[j], q)
  }

  /** The left-to-right search of `find`: the first matching position, if any. */
  function FindIndex(users: seq<User>, q: Query): (r: Option<nat>)
    ensures r.Some? ==> IsFirstMatch(users, r.value, q)
    ensures r.None? ==> forall j | 0 <= j < |users| :: !Matches(users[j], q)
  {
    if |users| == 0 then None
    else if Matches(users[0], q) then Some(0)
    else match FindIndex(users[1..], q)
      case None => None
      case Some(i) => Some(i + 1)
  }

  /** At most one position is the first match. */
  lemma FirstMatchUnique(users: seq<User>, q: Query, i: nat, j: nat)
    requires IsFirstMatch(users, i, q) && IsFirstMatch(users, j, q)
    ensures i == j
  {
  }

  /** Two tables that differ at most in the `secondary_address` of their records. */
  ghost predicate SameButSecondary(a: seq<User>, b: seq<User>) {
    && |a| == |b|
    && forall i | 0 <= i < |a| ::
         a[i].id == b[i].id && a[i].fields - {SecondaryAddressKey} == b[i].fields - {SecondaryAddressKey}
  }

  /** The lookup by address never consults `secondary_address`. */
  lemma {:induction false} FindByAddressIgnoresSecondary(a: seq<User>, b: seq<User>, address: string)
    requires SameButSecondary(a, b)
    ensures FindIndex(a, PrimaryAddressIs(address)) == FindIndex(b, PrimaryAddressIs(address))
  {
    if |a| > 0 {
      var q := PrimaryAddressIs(address);
      var restA, restB := a[0].fields - {SecondaryAddressKey}, b[0].fields - {SecondaryAddressKey};
      assert Matches(a[0], q) == Matches(b[0], q) by {
        assert PrimaryAddressKey in a[0].fields <==> PrimaryAddressKey in restA;
        assert PrimaryAddressKey in b[0].fields <==> PrimaryAddressKey in restB;
      }
      assert SameButSecondary(a[1..], b[1..]);
      FindByAddressIgnoresSecondary(a[1..], b[1..], address);
    }
  }

  /** No two records share an id (every id comes from a fresh uuid). */
  ghost predicate DistinctIds(users: seq<User>) {
    forall i, j | 0 <= i < j < |users| :: users[i].id != users[j].id
  }

  /** The table invariant: distinct ids and only whitelisted properties. */
  ghost predicate WellFormed(users: seq<User>) {
    && DistinctIds(users)
    && forall u | u in users :: u.fields.Keys <= StoredKeys
  }

  /**
   * No two records share a primary address. savePagingToken treats the table
   * as keyed by primary address, but addUser appends without looking, so the
   * table does not always keep this.
   */
  ghost predicate UniquePrimaryAddresses(users: seq<User>) {
    forall i, j | 0 <= i < j < |users| && PrimaryAddressKey in users[i].fields && PrimaryAddressKey in users[j].fields ::
      users[i].fields[PrimaryAddressKey] != users[j].fields[PrimaryAddressKey]
  }

  /** addUser with a primary address the table already holds leaves two records for that address. */
  lemma AppendCanDuplicatePrimary(users: seq<User>, data: Object, freshId: string, i: nat)
    requires i < |users|
    requires Truthy(data, PrimaryAddressKey)
    requires Matches(users[i], PrimaryAddressIs(data[PrimaryAddressKey]))
    ensures !UniquePrimaryAddresses(users + [User(freshId, FormatData(data))])
  {
    var r := users + [User(freshId, FormatData(data))];
    assert r[i] == users[i];
    assert r[|users|].fields[PrimaryAddressKey] == r[i].fields[PrimaryAddressKey];
  }

  /** The table after updateUser(id, data): the first record with that id absorbs FormatData(data). */
  function Updated(users: seq<User>, id: string, data: Object): (r: seq<User>)
    ensures |r| == |users|
  {
    match FindIndex(users, IdIs(id))
    case None => users
    case Some(i) => users[i := Merge(users[i], FormatData(data))]
  }

  /**
   * updateUser changes only the record with that id: the supplied formatted
   * properties are overwritten, its other properties and its id are kept, and
   * every other record is left as it was; an unknown id changes nothing.
   */
  lemma UpdatedChangesOnlyThatRecord(users: seq<User>, id: string, data: Object)
    requires DistinctIds(users)
    ensures var r := Updated(users, id, data);
      && |r| == |users|
      && (forall j | 0 <= j < |users| && users[j].id != id :: r[j] == users[j])
      && (forall j | 0 <= j < |users| && users[j].id == id ::
            && r[j].id == id
            && r[j].fields.Keys == users[j].fields.Keys + FormatData(data).Keys
            && (forall k | k in FormatData(data) :: r[j].fields[k] == FormatData(data)[k])
            && (forall k | k in users[j].fields && k !in FormatData(data) :: r[j].fields[k] == users[j].fields[k]))
      && ((forall u | u in users :: u.id != id) ==> r == users)
  {
  }

  /** updateUser is idempotent: applying the same update twice equals applying it once. */
  lemma {:induction false} UpdatedIdempotent(users: seq<User>, id: string, data: Object)
    ensures Updated(Updated(users, id, data), id, data) == Updated(users, id, data)
  {
    var once := Updated(users, id, data);
    match FindIndex(users, IdIs(id))
    case None =>
    case Some(i) =>
      var f := FormatData(data);
      assert IsFirstMatch(once, i, IdIs(id));
      var again := FindIndex(once, IdIs(id));
      FirstMatchUnique(once, IdIs(id), again.value, i);
      assert Merge(once[i], f) == once[i];
  }

  /** Updating keeps the table invariant. */
  lemma UpdatedWellFormed(users: seq<User>, id: string, data: Object)
    requires WellFormed(users)
    ensures WellFormed(Updated(users, id, data))
  {
  }

  /** The `users` table of the JSON document, held in memory. */
  class UserStore {
    var users: seq<User>

    ghost predicate Valid()
      reads this
    {
      WellFormed(users)
    }

    /** Opens a table already holding `initial`. */
    constructor (initial: seq<User>)
      requires WellFormed(initial)
      ensures Valid() && users == initial
    {
      users := initial;
    }

    /** getUser: the first record whose id is `id`, or nothing. */
    function GetUser(id: string): (r: Option<User>)
      reads this
      ensures r.None? <==> forall u | u in users :: u.id != id
      ensures r.Some? ==> r.value.id == id
      ensures DistinctIds(users) ==> forall i | 0 <= i < |users| && users[i].id == id :: r == Some(users[i])
      ensures r.Some? ==> exists i: nat :: IsFirstMatch(users, i, IdIs(id)) && users[i] == r.value
    {
      match FindIndex(users, IdIs(id))
      case None => None
      case Some(i) => Some(users[i])
    }

    /** getUserByAddress: the first record whose primary address is `address`, or nothing. */
    function GetUserByAddress(address: string): (r: Option<User>)
      reads this
      ensures r.None? <==> forall u | u in users :: !Matches(u, PrimaryAddressIs(address))
      ensures r.Some? ==> PrimaryAddressKey in r.value.fields && r.value.fields[PrimaryAddressKey] == address
      ensures r.Some? ==> exists i: nat :: IsFirstMatch(users, i, PrimaryAddressIs(address)) && users[i] == r.value
    {
      match FindIndex(users, PrimaryAddressIs(address))
      case None => None
      case Some(i) => Some(users[i])
    }

    /** addUser: append a record with a fresh id and the formatted properties of `data`. */
    method AddUser(data: Object, freshId: string)
      requires Valid()
      requires forall u | u in users :: u.id != freshId
      modifies this
      ensures Valid()
      ensures users == old(users) + [User(freshId, FormatData(data))]
    {
      var formatted := User(freshId, FormatData(data));
      users := users + [formatted];
      assert forall i | 0 <= i < |users| - 1 :: users[i] in old(users);
    }

    /** updateUser: merge the formatted properties of `data` into the record with that id. */
    method UpdateUser(id: string, data: Object)
      requires Valid()
      modifies this
      ensures Valid()
      ensures users == Updated(old(users), id, data)
    {
      var formatted := FormatData(data);
      UpdatedWellFormed(users, id, data);
      match FindIndex(users, IdIs(id)) {
        case None =>
        case Some(i) =>
          users := users[i := Merge(users[i], formatted)];
      }
    }
  }
}
