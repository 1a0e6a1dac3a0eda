/** The in-memory credential and schedule store (class MemStorage of server/storage.ts).

    The store's state is described as a value, `Store`, with one function per operation;
    the class `MemStorage` holds the same fields and each of its methods is proved to move
    its fields exactly as that function says. The lemmas state what the operations promise:
    ids are issued in increasing order and never reused, every key is below the next id and
    names its own record, and the listing comes out in ascending id order. */
module Storage {
  import opened Wrappers
  import opened Schema

  /** The id `saveCredentials` writes ahead of the payload (`{ id: 1, ...creds }`); an `id`
      the payload carries comes later in the spread and wins. */
  const CREDENTIALS_ID := 1

  /** The value `currentId` starts from. */
  const FIRST_ID := 1

  /** The one error the store raises, from `updateSchedule` on an absent id. */
  datatype StoreError = ScheduleNotFound {
    function Message(): string {
      "Schedule not found"
    }
  }

  /** The fields of a MemStorage. `order` lists the keys of the JavaScript Map `schedules` in
      insertion order, which is the order its `values()` iterator yields them in. */
  datatype Store = Store(
    credentials: Option<TeslaCredentials>,
    schedules: map<int, ChargingSchedule>,
    order: seq<int>,
    currentId: int)

  /** A freshly constructed store: no credentials, no schedules, `currentId` 1. */
  const INITIAL := Store(None, map[], [], FIRST_ID)

  /** `Map.prototype.set`: a new key goes to the end of the iteration order, an existing key
      keeps its place and gets the new value. */
  function MapSet(st: Store, k: int, v: ChargingSchedule): Store {
    st.(schedules := st.schedules[k := v], order := if k in st.schedules then st.order else st.order + [k])
  }

  /** The keys in `keys` other than `k`, in the same order. */
  function Without(keys: seq<int>, k: int): seq<int> {
    if keys == [] then [] else (if keys[0] == k then [] else [keys[0]]) + Without(keys[1..], k)
  }

  /** The values stored under `keys`, in that order. */
  function ValuesOf(keys: seq<int>, m: map<int, ChargingSchedule>): seq<ChargingSchedule> {
    if keys == [] then [] else (if keys[0] in m then [m[keys[0]]] else []) + ValuesOf(keys[1..], m)
  }

  predicate Ascending(keys: seq<int>) {
    forall i, j :: 0 <= i < j < |keys| ==> keys[i] < keys[j]
  }

  /** What holds of a store after any sequence of operations: `currentId` is at least 1, every
      key lies in [1, currentId) and is the id of its own record, and the iteration order lists
      exactly the keys, ascending. */
  ghost predicate Inv(st: Store) {
    && st.currentId >= FIRST_ID
    && (forall k :: k in st.schedules ==> FIRST_ID <= k < st.currentId && st.schedules[k].id == k)
    && Ascending(st.order)
    && (forall k :: k in st.schedules <==> k in st.order)
  }

  // ---------------------------------------------------------------------------------------
  // The operations, on values

  /** `saveCredentials`: the single slot is overwritten wholesale. */
  function Save(st: Store, creds: InsertCredentials): (Store, TeslaCredentials) {
    var saved := TeslaCredentials(creds.id.GetOr(CREDENTIALS_ID), creds.accessToken, creds.refreshToken, creds.expiresAt);
    (st.(credentials := Some(saved)), saved)
  }

  /** `getSchedules`: `Array.from(this.schedules.values())`. */
  function Listing(st: Store): seq<ChargingSchedule> {
    ValuesOf(st.order, st.schedules)
  }

  /** `createSchedule`: takes `currentId` (post-increment) and sets the new record under it. */
  function Create(st: Store, s: InsertSchedule): (Store, ChargingSchedule) {
    var id := st.currentId;
    var created := WithId(id, s);
    (MapSet(st.(currentId := id + 1), id, created), created)
  }

  /** `updateSchedule`: fails on an absent id, otherwise sets the merged record. */
  function Update(st: Store, id: int, patch: SchedulePatch): Result<(Store, ChargingSchedule), StoreError> {
    if id !in st.schedules then Failure(ScheduleNotFound)
    else
      var updated := Merge(st.schedules[id], patch);
      Success((MapSet(st, id, updated), updated))
  }

  /** `deleteSchedule`: `Map.prototype.delete`, which does nothing when the key is absent. */
  function Delete(st: Store, id: int): Store {
    st.(schedules := st.schedules - {id}, order := Without(st.order, id))
  }

  // ---------------------------------------------------------------------------------------
  // Properties of the operations

  lemma {:induction false} WithoutMembers(keys: seq<int>, k: int)
    ensures forall x :: x in Without(keys, k) <==> x in keys && x != k
  {
    if keys != [] {
      WithoutMembers(keys[1..], k);
    }
  }

  lemma {:induction false} WithoutAscending(keys: seq<int>, k: int)
    requires Ascending(keys)
    ensures Ascending(Without(keys, k))
  {
    if keys != [] {
      WithoutAscending(keys[1..], k);
      WithoutMembers(keys[1..], k);
      var rest := Without(keys[1..], k);
      forall x | x in rest ensures keys[0] < x {
        var j :| 0 <= j < |keys[1..]| && keys[1..][j] == x;
        assert keys[j + 1] == x;
      }
      var w := Without(keys, k);
      if keys[0] != k {
        assert w == [keys[0]] + rest;
        forall i, j | 0 <= i < j < |w| ensures w[i] < w[j] {
          assert w[j] == rest[j - 1] && rest[j - 1] in rest;
          if i > 0 {
            assert w[i] == rest[i - 1];
          }
        }
      } else {
        assert w == rest;
      }
    }
  }

  lemma {:induction false} WithoutAbsent(keys: seq<int>, k: int)
    requires k !in keys
    ensures Without(keys, k) == keys
  {
    if keys != [] {
      assert k !in keys[1..];
      WithoutAbsent(keys[1..], k);
    }
  }

  lemma WithoutTwice(keys: seq<int>, k: int)
    ensures Without(Without(keys, k), k) == Without(keys, k)
  {
    WithoutMembers(keys, k);
    WithoutAbsent(Without(keys, k), k);
  }

  /** The initial store satisfies the invariant. */
  lemma InitialInv()
    ensures Inv(INITIAL)
    ensures INITIAL.credentials == None && INITIAL.schedules == map[] && INITIAL.currentId == 1
  {
  }

  /** `createSchedule` issues `currentId`, which no stored record has and which exceeds every
      key; it increments `currentId` by exactly one, adds exactly the one record made of the
      payload and that id, and keeps every other record and the credentials. */
  lemma CreateSpec(st: Store, s: InsertSchedule)
    requires Inv(st)
    ensures var (after, created) := Create(st, s);
      && Inv(after)
      && created.id == st.currentId
      && created.id !in st.schedules
      && (forall k :: k in st.schedules ==> k < created.id)
      && Payload(created) == s
      && after.currentId == st.currentId + 1
      && after.schedules == st.schedules[created.id := created]
      && after.order == st.order + [created.id]
      && after.credentials == st.credentials
  {
    var (after, created) := Create(st, s);
    assert st.currentId !in st.order;
    forall i, j | 0 <= i < j < |after.order| ensures after.order[i] < after.order[j] {
      if j == |st.order| {
        assert st.order[i] in st.order;
      }
    }
  }

  /** `updateSchedule` fails exactly when the id is absent, and then changes nothing. On a
      present id it stores the merge of the old record with the patch under the same id, moves
      no key in the listing order, keeps every other record, `currentId` and the credentials,
      and preserves the invariant. */
  lemma UpdateSpec(st: Store, id: int, patch: SchedulePatch)
    requires Inv(st)
    ensures Update(st, id, patch).Failure? <==> id !in st.schedules
    ensures Update(st, id, patch).Failure? ==> Update(st, id, patch).error.Message() == "Schedule not found"
    ensures Update(st, id, patch).Success? ==>
      var (after, updated) := Update(st, id, patch).value;
      && Inv(after)
      && updated == Merge(st.schedules[id], patch)
      && updated.id == id
      && after.schedules == st.schedules[id := updated]
      && after.order == st.order
      && after.currentId == st.currentId
      && after.credentials == st.credentials
  {
  }

  /** `deleteSchedule` removes the key if present, does nothing if absent, never changes
      `currentId`, is idempotent, and preserves the invariant. */
  lemma DeleteSpec(st: Store, id: int)
    requires Inv(st)
    ensures Inv(Delete(st, id))
    ensures Delete(st, id).schedules == st.schedules - {id}
    ensures Delete(st, id).currentId == st.currentId
    ensures Delete(st, id).credentials == st.credentials
    ensures id !in st.schedules ==> Delete(st, id) == st
    ensures Delete(Delete(st, id), id) == Delete(st, id)
  {
    WithoutMembers(st.order, id);
    WithoutAscending(st.order, id);
    WithoutTwice(st.order, id);
    if id !in st.schedules {
      WithoutAbsent(st.order, id);
    }
  }

  /** `saveCredentials` then `getCredentials` yields exactly the payload, under id 1 unless the
      payload carries its own id, and the schedules and `currentId` are untouched. */
  lemma SaveSpec(st: Store, creds: InsertCredentials)
    requires Inv(st)
    ensures var (after, saved) := Save(st, creds);
      && Inv(after)
      && after.credentials == Some(saved)
      && saved.accessToken == creds.accessToken && saved.refreshToken == creds.refreshToken
      && saved.expiresAt == creds.expiresAt
      && (creds.id.None? ==> saved.id == 1)
      && (creds.id.Some? ==> saved.id == creds.id.value)
      && after.schedules == st.schedules && after.order == st.order && after.currentId == st.currentId
  {
  }

  lemma {:induction false} ValuesOfSpec(keys: seq<int>, m: map<int, ChargingSchedule>)
    requires forall i :: 0 <= i < |keys| ==> keys[i] in m
    ensures |ValuesOf(keys, m)| == |keys|
    ensures forall i :: 0 <= i < |keys| ==> ValuesOf(keys, m)[i] == m[keys[i]]
  {
    if keys != [] {
      ValuesOfSpec(keys[1..], m);
    }
  }

  /** The listing holds exactly the stored records, one per key, in ascending id order. */
  lemma ListingSpec(st: Store)
    requires Inv(st)
    ensures |Listing(st)| == |st.schedules|
    ensures forall i, j :: 0 <= i < j < |Listing(st)| ==> Listing(st)[i].id < Listing(st)[j].id
    ensures forall i :: 0 <= i < |Listing(st)| ==>
      Listing(st)[i].id in st.schedules && st.schedules[Listing(st)[i].id] == Listing(st)[i]
    ensures forall k :: k in st.schedules ==> st.schedules[k] in Listing(st)
  {
    forall i | 0 <= i < |st.order| ensures st.order[i] in st.schedules {
      assert st.order[i] in st.order;
    }
    ValuesOfSpec(st.order, st.schedules);
    assert forall k :: k in st.schedules.Keys <==> k in st.order;
    DistinctCount(st.order, st.schedules.Keys);
    forall k | k in st.schedules ensures st.schedules[k] in Listing(st) {
      var i :| 0 <= i < |st.order| && st.order[i] == k;
      assert Listing(st)[i] == st.schedules[k];
    }
  }

  /** An ascending sequence listing exactly the elements of a set has the set's size. */
  lemma {:induction false} DistinctCount(keys: seq<int>, s: set<int>)
    requires Ascending(keys)
    requires forall k :: k in s <==> k in keys
    ensures |keys| == |s|
  {
    if keys != [] {
      var rest := keys[1..];
      forall j | 0 <= j < |rest| ensures rest[j] != keys[0] {
        assert rest[j] == keys[j + 1];
      }
      assert keys[0] !in rest;
      forall k ensures k in s - {keys[0]} <==> k in rest {
        if k in rest {
          var j :| 0 <= j < |rest| && rest[j] == k;
          assert keys[j + 1] == k;
        }
        if k in keys && k != keys[0] {
          var j :| 0 <= j < |keys| && keys[j] == k;
          assert rest[j - 1] == k;
        }
      }
      assert keys[0] in keys;
      assert keys[0] in s;
      DistinctCount(rest, s - {keys[0]});
      assert |s - {keys[0]}| == |s| - 1;
      assert |keys| == |rest| + 1;
    } else {
      forall k ensures k !in s {
        assert k !in keys;
      }
      assert s == {};
    }
  }

  // ---------------------------------------------------------------------------------------
  // Sequences of operations

  datatype Op =
    | SaveCredentialsOp(creds: InsertCredentials)
    | CreateOp(schedule: InsertSchedule)
    | UpdateOp(id: int, patch: SchedulePatch)
    | DeleteOp(id: int)

  /** One operation; a failed update leaves the store as it was. */
  function Step(st: Store, op: Op): Store {
    match op
    case SaveCredentialsOp(c) => Save(st, c).0
    case CreateOp(s) => Create(st, s).0
    case UpdateOp(id, p) => if Update(st, id, p).Success? then Update(st, id, p).value.0 else st
    case DeleteOp(id) => Delete(st, id)
  }

  /** The ids the creates among `ops` issue, in order. */
  function Issued(st: Store, ops: seq<Op>): seq<int>
    decreases |ops|
  {
    if ops == [] then []
    else (if ops[0].CreateOp? then [st.currentId] else []) + Issued(Step(st, ops[0]), ops[1..])
  }

  function Run(st: Store, ops: seq<Op>): Store
    decreases |ops|
  {
    if ops == [] then st else Run(Step(st, ops[0]), ops[1..])
  }

  /** After any sequence of saves, creates, updates and deletes the invariant still holds,
      `currentId` has grown by the number of creates, and the ids issued are strictly increasing
      and lie between the starting and the final `currentId`: no id is ever issued twice, even
      after its record was deleted. */
  lemma {:induction false} IdsNeverReused(st: Store, ops: seq<Op>)
    requires Inv(st)
    ensures Inv(Run(st, ops))
    ensures Run(st, ops).currentId == st.currentId + |Issued(st, ops)|
    ensures Ascending(Issued(st, ops))
    ensures forall i :: 0 <= i < |Issued(st, ops)| ==>
      st.currentId <= Issued(st, ops)[i] < Run(st, ops).currentId
    decreases |ops|
  {
    if ops != [] {
      var next := Step(st, ops[0]);
      match ops[0] {
        case SaveCredentialsOp(c) => SaveSpec(st, c);
        case CreateOp(s) => CreateSpec(st, s);
        case UpdateOp(id, p) => UpdateSpec(st, id, p);
        case DeleteOp(id) => DeleteSpec(st, id);
      }
      IdsNeverReused(next, ops[1..]);
      var head := if ops[0].CreateOp? then [st.currentId] else [];
      var tail := Issued(next, ops[1..]);
      assert Issued(st, ops) == head + tail;
      assert next.currentId == st.currentId + |head|;
    }
  }

  /** From a fresh store, whatever happened before, the next create issues an id greater than
      every id issued so far, which no stored record has and which exceeds every stored key. */
  lemma NextIdIsNew(ops: seq<Op>, s: InsertSchedule)
    ensures var st := Run(INITIAL, ops);
      && (forall i :: 0 <= i < |Issued(INITIAL, ops)| ==> Issued(INITIAL, ops)[i] < Create(st, s).1.id)
      && Create(st, s).1.id !in st.schedules
      && (forall k :: k in st.schedules ==> k < Create(st, s).1.id)
  {
    InitialInv();
    IdsNeverReused(INITIAL, ops);
    CreateSpec(Run(INITIAL, ops), s);
  }

  // ---------------------------------------------------------------------------------------
  // The class

  /** The store object. Each method changes the fields as the function of the same operation
      says, and keeps `Valid()`. */
  class MemStorage {
    var credentials: Option<TeslaCredentials>
    var schedules: map<int, ChargingSchedule>
    /** The insertion order of the keys of `schedules`, as a JavaScript Map keeps it. */
    var order: seq<int>
    var currentId: int

    function State(): Store
      reads this
    {
      Store(credentials, schedules, order, currentId)
    }

    ghost predicate Valid()
      reads this
    {
      Inv(State())
    }

    constructor()
      ensures Valid()
      ensures State() == INITIAL
    {
      credentials := None;
      schedules := map[];
      order := [];
      currentId := FIRST_ID;
    }

    method GetCredentials() returns (creds: Option<TeslaCredentials>)
      ensures creds == credentials
    {
      creds := credentials;
    }

    method SaveCredentials(creds: InsertCredentials) returns (saved: TeslaCredentials)
      requires Valid()
      modifies this
      ensures Valid()
      ensures (State(), saved) == Save(old(State()), creds)
      ensures saved.id == (if creds.id.Some? then creds.id.value else CREDENTIALS_ID)
      ensures saved.accessToken == creds.accessToken && saved.refreshToken == creds.refreshToken
      ensures saved.expiresAt == creds.expiresAt
      ensures credentials == Some(saved)
      ensures schedules == old(schedules) && order == old(order) && currentId == old(currentId)
    {
      saved := TeslaCredentials(creds.id.GetOr(CREDENTIALS_ID), creds.accessToken, creds.refreshToken, creds.expiresAt);
      credentials := Some(saved);
    }

    method GetSchedules() returns (list: seq<ChargingSchedule>)
      requires Valid()
      ensures list == Listing(State())
      ensures |list| == |schedules|
      ensures forall i, j :: 0 <= i < j < |list| ==> list[i].id < list[j].id
      ensures forall i :: 0 <= i < |list| ==> list[i].id in schedules && schedules[list[i].id] == list[i]
      ensures forall k :: k in schedules ==> schedules[k] in list
    {
      list := ValuesOf(order, schedules);
      ListingSpec(State());
    }

    method CreateSchedule(s: InsertSchedule) returns (created: ChargingSchedule)
      requires Valid()
      modifies this
      ensures Valid()
      ensures (State(), created) == Create(old(State()), s)
      ensures created.id == old(currentId) && Payload(created) == s
      ensures created.id !in old(schedules)
      ensures currentId == old(currentId) + 1
      ensures schedules == old(schedules)[created.id := created]
      ensures credentials == old(credentials)
    {
      CreateSpec(State(), s);
      var id := currentId;
      currentId := currentId + 1;
      created := WithId(id, s);
      if id !in schedules {
        order := order + [id];
      }
      schedules := schedules[id := created];
    }

    method UpdateSchedule(id: int, patch: SchedulePatch) returns (r: Result<ChargingSchedule, StoreError>)
      requires Valid()
      modifies this
      ensures Valid()
      ensures r.Failure? <==> id !in old(schedules)
      ensures r.Failure? ==> r.error == ScheduleNotFound && State() == old(State())
      ensures r.Success? ==>
        && r.value == Merge(old(schedules)[id], patch)
        && Update(old(State()), id, patch) == Success((State(), r.value))
        && schedules == old(schedules)[id := r.value]
        && order == old(order) && currentId == old(currentId) && credentials == old(credentials)
    {
      UpdateSpec(State(), id, patch);
      if id !in schedules {
        return Failure(ScheduleNotFound);
      }
      var updated := Merge(schedules[id], patch);
      schedules := schedules[id := updated];
      r := Success(updated);
    }

    method DeleteSchedule(id: int)
      requires Valid()
      modifies this
      ensures Valid()
      ensures State() == Delete(old(State()), id)
      ensures schedules == old(schedules) - {id}
      ensures id !in old(schedules) ==> State() == old(State())
      ensures currentId == old(currentId) && credentials == old(credentials)
    {
      DeleteSpec(State(), id);
      schedules := schedules - {id};
      order := Without(order, id);
    }
  }
}
