/** The user rules (`UserService`): joining, logging in, loading a user
    through the cache, and listing a user's alarms. Password encoding and its
    check, and token generation, are kept abstract: the service is given the
    encoder and the token function. */
module Users {
  import opened Domain
  import opened AlarmRecords
  import opened Store
  import UserCache

  class UserService {
    const db: Database
    const cache: UserCache.UserCacheRepository
    const encoder: Encoder
    /** The token issued for a user name; the signing key, the validity
        period and the issue time are fixed inside it. */
    const tokenFor: string -> string

    constructor (db: Database, cache: UserCache.UserCacheRepository, encoder: Encoder, tokenFor: string -> string)
      ensures this.db == db && this.cache == cache && this.encoder == encoder && this.tokenFor == tokenFor
    {
      this.db := db;
      this.cache := cache;
      this.encoder := encoder;
      this.tokenFor := tokenFor;
    }

    /** Registers a new user under an unused name, storing the encoded
        password. Runs in one transaction: a duplicate name writes nothing. */
    method Join(userName: string, password: string) returns (r: Result<User>)
      requires db.Valid()
      modifies db
      ensures db.Valid()
      ensures (exists i :: 0 <= i < |old(db.users)| && old(db.users)[i].userName == userName)
              ==> r == Err(DuplicatedUserName) && unchanged(db)
      ensures (forall i :: 0 <= i < |old(db.users)| ==> old(db.users)[i].userName != userName)
              ==> && r == Ok(User(|old(db.users)| + 1, userName, encoder.encode(password)))
                  && db.users == old(db.users) + [r.value]
                  && db.posts == old(db.posts) && db.nextPostId == old(db.nextPostId)
                  && db.likes == old(db.likes)
                  && db.comments == old(db.comments) && db.alarms == old(db.alarms)
    {
      if FindUserByName(db.users, userName).Some? {
        return Err(DuplicatedUserName);
      }
      var u := db.SaveUser(userName, encoder.encode(password));
      r := Ok(u);
    }

    /** Loads a user by name: the cached copy when the cache holds one, the
        user table otherwise. It never writes the cache. */
    function LoadUserByUserName(userName: string, now: int): (r: Result<User>)
      reads db, cache
      requires cache.Valid()
      ensures cache.GetUser(userName, now).Some? ==> r == Ok(cache.GetUser(userName, now).value)
      ensures cache.GetUser(userName, now).None? ==>
        && (r.Ok? <==> exists i :: 0 <= i < |db.users| && db.users[i].userName == userName)
        && (r.Ok? ==> r.value in db.users)
      ensures r.Ok? ==> r.value.userName == userName
      ensures r.Err? ==> r.code == UserNotFound
    {
      match cache.GetUser(userName, now)
      case Some(u) => Ok(u)
      case None =>
        match FindUserByName(db.users, userName)
        case Some(u) => Ok(u)
        case None => Err(UserNotFound)
    }

    /** Logs a user in. The loaded user is written to the cache before the
        password is checked, so the cache holds it whether or not the password
        matches; an unknown user leaves the cache alone. */
    method Login(userName: string, password: string, now: int) returns (r: Result<string>)
      requires cache.Valid()
      modifies cache
      ensures cache.Valid()
      ensures old(LoadUserByUserName(userName, now)).Err? ==> r == Err(UserNotFound) && unchanged(cache)
      ensures old(LoadUserByUserName(userName, now)).Ok? ==>
        var user := old(LoadUserByUserName(userName, now)).value;
        && cache.store == UserCache.Set(old(cache.store), user, now)
        && LoadUserByUserName(userName, now) == Ok(user)
        && (encoder.matches(password, user.password) ==> r == Ok(tokenFor(userName)))
        && (!encoder.matches(password, user.password) ==> r == Err(InvalidPassword))
    {
      var loaded := LoadUserByUserName(userName, now);
      if loaded.Err? {
        return Err(loaded.code);
      }
      var user := loaded.value;
      cache.SetUser(user, now);
      if !encoder.matches(password, user.password) {
        return Err(InvalidPassword);
      }
      r := Ok(tokenFor(userName));
    }

    /** The alarms addressed to a user that are not deleted, in table order. */
    function AlarmList(userId: int): (r: seq<Alarm>)
      reads db
      ensures forall a :: a in r <==> a in db.alarms && a.recipient == userId && Visible(a)
    {
      AlarmsOf(db.alarms, userId)
    }
  }
}
