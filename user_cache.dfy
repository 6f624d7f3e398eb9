/** The user cache (`UserCacheRepository`): a key-value store in front of the
    user table, keyed by `"USER:"` followed by the user name, whose entries
    expire a fixed time after they were written. Time is a logical clock in
    milliseconds passed into each operation. */
module UserCache {
  import opened Domain

  /** The time an entry lives: three days, in milliseconds. */
  const USER_CACHE_TTL: int := 3 * 24 * 60 * 60 * 1000

  /** The namespace every user entry is stored under. */
  const USER_PREFIX: string := "USER:"

  /** A stored value and the instant from which the store no longer returns it. */
  datatype Entry = Entry(user: User, expiresAt: int)

  /** The key a user name is stored under. */
  function GetKey(userName: string): (k: string)
    ensures |k| == |USER_PREFIX| + |userName|
    ensures k[..|USER_PREFIX|] == USER_PREFIX && k[|USER_PREFIX|..] == userName
  {
    USER_PREFIX + userName
  }

  /** Different user names never share a key. */
  lemma GetKeyInjective(a: string, b: string)
    ensures GetKey(a) == GetKey(b) <==> a == b
  {
    if GetKey(a) == GetKey(b) {
      assert a == GetKey(a)[|USER_PREFIX|..];
    }
  }

  /** The store after `set(key, user, ttl)` at time `now`: the entry under the
      user's key is replaced whatever it held. */
  function Set(store: map<string, Entry>, user: User, now: int): (s: map<string, Entry>)
    ensures s.Keys == store.Keys + {GetKey(user.userName)}
    ensures s[GetKey(user.userName)] == Entry(user, now + USER_CACHE_TTL)
    ensures forall k :: k in store && k != GetKey(user.userName) ==> s[k] == store[k]
  {
    store[GetKey(user.userName) := Entry(user, now + USER_CACHE_TTL)]
  }

  /** What `get(key)` returns at time `now`: the stored user if there is an
      entry that has not expired, nothing otherwise. */
  function Get(store: map<string, Entry>, userName: string, now: int): (r: Option<User>)
    ensures r.Some? <==> GetKey(userName) in store && now < store[GetKey(userName)].expiresAt
    ensures r.Some? ==> r.value == store[GetKey(userName)].user
  {
    var key := GetKey(userName);
    if key in store && now < store[key].expiresAt then Some(store[key].user) else None
  }

  /** Every entry lives under the key of the user it holds. */
  predicate KeysMatch(store: map<string, Entry>) {
    forall k :: k in store ==> k == GetKey(store[k].user.userName)
  }

  /** A read of a name set at time `t`, made within the time to live, returns
      exactly the user that was set. */
  lemma GetAfterSet(store: map<string, Entry>, user: User, t: int, now: int)
    requires t <= now < t + USER_CACHE_TTL
    ensures Get(Set(store, user, t), user.userName, now) == Some(user)
  {
  }

  /** Once the time to live has elapsed the entry is gone. */
  lemma GetAfterExpiry(store: map<string, Entry>, user: User, t: int, now: int)
    requires now >= t + USER_CACHE_TTL
    ensures Get(Set(store, user, t), user.userName, now) == None
  {
  }

  /** Setting one user leaves every read of another name as it was. */
  lemma SetKeepsOtherNames(store: map<string, Entry>, user: User, t: int, name: string, now: int)
    requires name != user.userName
    ensures Get(Set(store, user, t), name, now) == Get(store, name, now)
  {
    GetKeyInjective(name, user.userName);
  }

  /** The empty store returns nothing, and a name never set is never returned. */
  lemma GetNeverSet(store: map<string, Entry>, name: string, now: int)
    requires GetKey(name) !in store
    ensures Get(store, name, now) == None
  {
  }

  /** Writing keeps every entry under its own user's key. */
  lemma SetKeepsKeysMatch(store: map<string, Entry>, user: User, t: int)
    requires KeysMatch(store)
    ensures KeysMatch(Set(store, user, t))
  {
  }

  /** When entries live under their own keys, a read of a name returns a user
      of that name. */
  lemma GetReturnsNamedUser(store: map<string, Entry>, name: string, now: int)
    requires KeysMatch(store)
    ensures Get(store, name, now).Some? ==> Get(store, name, now).value.userName == name
  {
    var key := GetKey(name);
    if key in store {
      GetKeyInjective(name, store[key].user.userName);
    }
  }

  /** The cache repository: one key-value store shared by every request. */
  class UserCacheRepository {
    var store: map<string, Entry>

    predicate Valid()
      reads this
    {
      KeysMatch(store)
    }

    constructor ()
      ensures Valid() && store == map[]
    {
      store := map[];
    }

    /** Stores the user under the key of its own name for the time to live,
        overwriting any earlier entry. */
    method SetUser(user: User, now: int)
      requires Valid()
      modifies this
      ensures Valid()
      ensures store == Set(old(store), user, now)
      ensures GetUser(user.userName, now) == Some(user)
    {
      SetKeepsKeysMatch(store, user, now);
      store := Set(store, user, now);
      GetAfterSet(old(store), user, now, now);
    }

    /** The cached user of that name, if any and not expired. */
    function GetUser(userName: string, now: int): (r: Option<User>)
      reads this
      requires Valid()
      ensures r.Some? ==> r.value.userName == userName
      ensures r.Some? <==> GetKey(userName) in store && now < store[GetKey(userName)].expiresAt
    {
      GetReturnsNamedUser(store, userName, now);
      Get(store, userName, now)
    }
  }
}
