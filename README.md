# Social-network backend: post, user and alarm rules

This project models the business rules of a small social-network backend: users join
and log in, write, edit and delete posts, like and comment on them, and receive alarms
about activity on their posts. Alarms are kept in a table and can also be pushed live
over a server-sent-event channel. The model puts all the relational tables into one
in-memory store:

- users: id, user name, encoded password;
- posts: id, title, body, owner;
- likes: (user, post) pairs;
- comments: user, post, text, deletion time;
- alarms: id, recipient, type, arguments, and three timestamps.

Beside the store sit two keyed maps: the registry of live emitters per user id, and the
user cache in front of the user table. Every service operation returns a value or an
error code. A failed post or user operation leaves the store unchanged, because each
one either checks everything before its first write or runs in one transaction. `send`
in `AlarmService` is the exception: it saves the alarm
(src/main/java/com/fastcampus/sns/service/AlarmService.java:54-58) before it pushes, so
the alarm stays when the push fails and the call reports ALARM_CONNECT_ERROR (:69-72).

Modules, one per source component:

- `Domain`: the error codes, the `Result`/`Outcome` types, the user record, the alarm
  type and arguments, and the decimal rendering of ids.
- `AlarmRecords` (`AlarmEntity`): the alarm record as a datatype. It has the factory,
  the insert and update hooks, soft deletion, and the read filter that hides deleted
  rows.
- `UserCache` (`UserCacheRepository`): the cache as a class over a map from key to
  (user, expiry). It has the `"USER:"` key scheme and the 3-day time to live. Its
  properties are proved on pure `Set`/`Get` functions over the map.
- `Store`: the tables as the class `Database`, with the repository queries and updates
  and the table invariant `Valid()`. The invariant says:
  - user ids follow row numbers and user names are unique;
  - posts are owned by existing users;
  - no (user, post) pair is liked twice, and every like refers to an existing post;
  - every alarm has an id and a registration time and is addressed to an existing user.
- `Posts` (`PostService`), `Users` (`UserService`), `Alarms` (`AlarmService`, the emitter
  registry and the emitter): the services. Each is a class holding references to the
  repositories it uses. Its methods state the error each check raises, in the order the
  checks run, that the call succeeds once every check passes, and the new contents of
  every table and of the post-id counter. Each preserves `Valid()`.

Constants as in the source:

- `DEFAULT_TIMEOUT` = 60 · 1000 · 60 ms.
- `ALARM_NAME` = `"alarm"`.
- `USER_CACHE_TTL` = 3 days, on a logical clock in milliseconds.
- Cache keys are `"USER:"` + the user name.

Behaviour of the code worth noting:

- `connectAlarm` registers the emitter
  (src/main/java/com/fastcampus/sns/service/AlarmService.java:35) before the first push
  and keeps the registration when that push fails (:44-46).
- `like` and `comment` save their alarm directly
  (src/main/java/com/fastcampus/sns/service/PostService.java:99-103, 125-129). They never
  call `AlarmService.send`, so nothing is pushed live.
- A completed or timed-out emitter deletes whatever the registry holds under its user
  id. When a newer connection has replaced it, the newer emitter is deregistered
  (`Alarms.ReplacedChannelCompletes`).
- The model returns a user's alarms in table order. In the code the order and paging
  come from the caller's page request
  (src/main/java/com/fastcampus/sns/service/UserService.java:84), which is not modelled.

## Model

| member | source | states |
|---|---|---|
| `Domain.NatToString` | src/main/java/com/fastcampus/sns/service/AlarmService.java:65 | the event id is a non-empty string of decimal digits: `"0"` for 0, and without a leading zero for every other id |
| `Domain.ParseNatToString` | src/main/java/com/fastcampus/sns/service/AlarmService.java:65 | reading the rendered id back gives the alarm id |
| `Domain.NatToStringInjective` | src/main/java/com/fastcampus/sns/service/AlarmService.java:65 | distinct ids render as distinct strings |
| `AlarmRecords.Of` | src/main/java/com/fastcampus/sns/model/entity/AlarmEntity.java:77-83 | the factory sets recipient, type and arguments as given and leaves the id and all timestamps unset |
| `AlarmRecords.PrePersist` | src/main/java/com/fastcampus/sns/model/entity/AlarmEntity.java:67-70 | the insert hook sets the registration time and changes nothing else |
| `AlarmRecords.PreUpdate` | src/main/java/com/fastcampus/sns/model/entity/AlarmEntity.java:72-75 | the update hook sets the update time and changes nothing else |
| `AlarmRecords.Persisted` | src/main/java/com/fastcampus/sns/model/entity/AlarmEntity.java:27-29 | an inserted row gets its identity value and registration time, keeps recipient, type and arguments, and keeps its update and deletion times |
| `AlarmRecords.SoftDelete` | src/main/java/com/fastcampus/sns/model/entity/AlarmEntity.java:23 | deletion sets the deletion time and keeps every other field of the row |
| `AlarmRecords.AlarmsOf` | src/main/java/com/fastcampus/sns/model/entity/AlarmEntity.java:24 | a read for a user returns exactly the alarms addressed to that user whose deletion time is unset |
| `AlarmRecords.AlarmsOfAppend` | src/main/java/com/fastcampus/sns/model/entity/AlarmEntity.java:24 | a new visible alarm is appended to its recipient's read and leaves every other user's read unchanged |
| `AlarmRecords.NewAlarmIsVisible` | src/main/java/com/fastcampus/sns/model/entity/AlarmEntity.java:41 | a new alarm is visible and addressed to the recipient; the actor is carried only in the arguments; it is registered and never updated |
| `UserCache.GetKey` | src/main/java/com/fastcampus/sns/repository/UserCacheRepository.java:41-43 | the key is the prefix `"USER:"` followed by the user name |
| `UserCache.GetKeyInjective` | src/main/java/com/fastcampus/sns/repository/UserCacheRepository.java:41-43 | two user names share a key exactly when they are equal |
| `UserCache.Set` | src/main/java/com/fastcampus/sns/repository/UserCacheRepository.java:26-30 | a set adds or replaces only the entry under the user's key, holding the user and expiring one TTL after now; every other key keeps its entry |
| `UserCache.Get` | src/main/java/com/fastcampus/sns/repository/UserCacheRepository.java:32-37 | a read returns a user exactly while an entry under the name's key has not expired, and then the stored user |
| `UserCache.GetAfterSet` | src/main/java/com/fastcampus/sns/repository/UserCacheRepository.java:24-37 | a read of a name within the time to live after setting it returns exactly the user set |
| `UserCache.GetAfterExpiry` | src/main/java/com/fastcampus/sns/repository/UserCacheRepository.java:24-29 | three days after a set, the read returns nothing |
| `UserCache.SetKeepsOtherNames` | src/main/java/com/fastcampus/sns/repository/UserCacheRepository.java:26-30 | setting one user leaves every read of another name unchanged |
| `UserCache.GetNeverSet` | src/main/java/com/fastcampus/sns/repository/UserCacheRepository.java:32-37 | a name whose key was never written reads as nothing |
| `UserCache.SetKeepsKeysMatch` | src/main/java/com/fastcampus/sns/repository/UserCacheRepository.java:26-30 | every entry stays under the key of its own user's name |
| `UserCache.GetReturnsNamedUser` | src/main/java/com/fastcampus/sns/repository/UserCacheRepository.java:32-37 | a read of a name only ever returns a user of that name |
| `UserCache.UserCacheRepository.SetUser` | src/main/java/com/fastcampus/sns/repository/UserCacheRepository.java:26-30 | overwrites the entry under the user's key unconditionally, with expiry now + TTL, and the user reads back at once |
| `UserCache.UserCacheRepository.GetUser` | src/main/java/com/fastcampus/sns/repository/UserCacheRepository.java:32-37 | returns a user exactly when an unexpired entry is under the name's key, and that user has the name asked for |
| `Store.FindUserByName` | src/main/java/com/fastcampus/sns/service/PostService.java:144-147 | finds the first row with that name when one exists, and none exactly when no row has the name |
| `Store.FindUserById` | src/main/java/com/fastcampus/sns/service/AlarmService.java:52 | finds the first row with that id when one exists, and none exactly when no row has the id |
| `Store.CountLikes` | src/main/java/com/fastcampus/sns/service/PostService.java:113 | a post's like count never exceeds the number of like rows |
| `Store.RemoveLikesOf` | src/main/java/com/fastcampus/sns/service/PostService.java:71 | keeps exactly the likes of other posts |
| `Store.SoftDeleteCommentsOf` | src/main/java/com/fastcampus/sns/repository/CommentEntityRepository.java:30-33 | no row is removed; every comment on the post gets the deletion time; every other comment is unchanged |
| `Store.FindUserByNameUnique` | src/main/java/com/fastcampus/sns/service/UserService.java:41-46 | since joins keep names unique, the lookup by name returns the one row holding that name |
| `Store.FindUserByIdRow` | src/main/java/com/fastcampus/sns/service/AlarmService.java:52 | the user with id k is the k-th row, and an id outside the table finds nothing |
| `Store.CountLikesAppend` | src/main/java/com/fastcampus/sns/service/PostService.java:95-113 | a new like raises its post's like count by one and leaves every other post's count unchanged |
| `Store.CountLikesAfterRemove` | src/main/java/com/fastcampus/sns/service/PostService.java:71 | after the cascade, the deleted post has no likes and every other post keeps its count |
| `Store.CountLikesZero` | src/main/java/com/fastcampus/sns/service/PostService.java:113 | a post's like count is zero exactly when no like row refers to it |
| `Store.UniqueLikesAppend` | src/main/java/com/fastcampus/sns/service/PostService.java:89-96 | adding a pair not yet present keeps (user, post) pairs unique |
| `Store.UniqueLikesRemove` | src/main/java/com/fastcampus/sns/service/PostService.java:71 | the delete cascade keeps (user, post) pairs unique |
| `Store.AtMostOneLike` | src/main/java/com/fastcampus/sns/service/PostService.java:89-93 | with unique pairs, a user has at most one like on a post |
| `Store.Database.SaveUser` | src/main/java/com/fastcampus/sns/service/UserService.java:46 | appends one user under the next identity value |
| `Store.Database.SavePost` | src/main/java/com/fastcampus/sns/service/PostService.java:38 | inserts one post under the next identity value |
| `Store.Database.UpdatePost` | src/main/java/com/fastcampus/sns/service/PostService.java:55 | writes the post back under its id |
| `Store.Database.DeletePost` | src/main/java/com/fastcampus/sns/service/PostService.java:69 | removes the post with that id |
| `Store.Database.SaveLike` | src/main/java/com/fastcampus/sns/service/PostService.java:96 | appends one (user, post) like; a new pair of an existing user and post keeps the invariant |
| `Store.Database.DeleteAllLikesByPost` | src/main/java/com/fastcampus/sns/service/PostService.java:71 | removes every like of the post |
| `Store.Database.SaveComment` | src/main/java/com/fastcampus/sns/service/PostService.java:122 | appends one comment that is not deleted |
| `Store.Database.DeleteAllCommentsByPost` | src/main/java/com/fastcampus/sns/repository/CommentEntityRepository.java:30-33 | soft-deletes every comment of the post |
| `Store.Database.SaveAlarm` | src/main/java/com/fastcampus/sns/service/AlarmService.java:54-58 | appends the record with the next identity value and the registration time; an alarm addressed to an existing user keeps the invariant |
| `Store.Database.DeleteAlarm` | src/main/java/com/fastcampus/sns/model/entity/AlarmEntity.java:23-24 | the row stays with its deletion time set, no read returns it afterwards, and the invariant holds |
| `Posts.ActivityAlarm` | src/main/java/com/fastcampus/sns/service/PostService.java:99-103 | the alarm of a like or comment goes to the post's owner, with arguments (actor id, post id), and is visible |
| `Posts.ActivityAlarmListed` | src/main/java/com/fastcampus/sns/service/PostService.java:125-129 | that alarm is appended to the owner's alarm list and to no one else's |
| `Posts.PostService.GetPostEntityOrException` | src/main/java/com/fastcampus/sns/service/PostService.java:138-141 | the post with that id, or POST_NOT_FOUND exactly when there is none |
| `Posts.PostService.GetUserEntityOrException` | src/main/java/com/fastcampus/sns/service/PostService.java:144-147 | the user with that name, or USER_NOT_FOUND exactly when no row has the name |
| `Posts.PostService.Create` | src/main/java/com/fastcampus/sns/service/PostService.java:35-39 | an unknown user gives USER_NOT_FOUND and no change; otherwise exactly one new post owned by that user, the post-id counter advances by one, other tables untouched |
| `Posts.PostService.Modify` | src/main/java/com/fastcampus/sns/service/PostService.java:42-56 | checks user, then post, then ownership (USER_NOT_FOUND, POST_NOT_FOUND, INVALID_PERMISSION, no change); when all three pass the call succeeds, only that post's title and body change, and the edited post is returned |
| `Posts.PostService.Delete` | src/main/java/com/fastcampus/sns/service/PostService.java:58-73 | the same three checks in the same order; when all pass the call succeeds, the post is removed, its likes removed and its comments soft-deleted; other posts' likes and comments untouched |
| `Posts.PostService.Like` | src/main/java/com/fastcampus/sns/service/PostService.java:84-104 | checks post, then user, then a previous like (POST_NOT_FOUND, USER_NOT_FOUND, ALREADY_LIKED, no change); when all pass the call succeeds with one like and one NEW_LIKE_ON_POST alarm to the owner with (liker, post); the like count rises by one |
| `Posts.PostService.LikeCount` | src/main/java/com/fastcampus/sns/service/PostService.java:106-114 | POST_NOT_FOUND exactly for a missing post, otherwise the number of likes of that post |
| `Posts.PostService.Comment` | src/main/java/com/fastcampus/sns/service/PostService.java:116-130 | checks post, then user (no change on failure); when both pass the call succeeds with one comment and one NEW_COMMENT_ON_POST alarm to the owner with (commenter, post) |
| `Users.UserService.Join` | src/main/java/com/fastcampus/sns/service/UserService.java:38-48 | a taken name gives DUPLICATED_USER_NAME and no change; otherwise one user with the encoded password under the next id, so names stay unique while calls run one at a time; posts, likes, comments, alarms and the post-id counter are untouched |
| `Users.UserService.LoadUserByUserName` | src/main/java/com/fastcampus/sns/service/UserService.java:74-81 | a cached user is returned without consulting the table; on a miss the table's user, or USER_NOT_FOUND exactly when none; the result has the name asked for |
| `Users.UserService.Login` | src/main/java/com/fastcampus/sns/service/UserService.java:51-72 | an unknown user gives USER_NOT_FOUND with the cache unchanged; otherwise the loaded user is cached before the check, and the outcome is the user name's token or INVALID_PASSWORD |
| `Users.UserService.AlarmList` | src/main/java/com/fastcampus/sns/service/UserService.java:83-85 | exactly the user's alarms that are not deleted |
| `Alarms.AlarmEvent` | src/main/java/com/fastcampus/sns/service/AlarmService.java:63-68 | the pushed event is named `"alarm"`, carries `"new alarm"`, and its id reads back as the alarm's id |
| `Alarms.ConnectEventDistinct` | src/main/java/com/fastcampus/sns/service/AlarmService.java:39-43 | the connect event is named `"alarm"` but has an empty id and other data, so no alarm event can be mistaken for it |
| `Alarms.AlarmEventIdsDiffer` | src/main/java/com/fastcampus/sns/service/AlarmService.java:65 | events of different alarms have different ids |
| `Alarms.SseEmitter.Send` | src/main/java/com/fastcampus/sns/service/AlarmService.java:63-68 | a push delivers exactly one event when the transport accepts it, and none otherwise |
| `Alarms.EmitterRepository.Save` | src/main/java/com/fastcampus/sns/service/AlarmService.java:35 | registers the emitter under the user id, replacing any earlier one |
| `Alarms.EmitterRepository.Get` | src/main/java/com/fastcampus/sns/service/AlarmService.java:60 | the emitter registered under the id, or none exactly when there is none |
| `Alarms.EmitterRepository.Delete` | src/main/java/com/fastcampus/sns/service/AlarmService.java:71 | removes the entry under the id, whatever emitter it holds; deleting an absent id does nothing |
| `Alarms.AlarmService.ConnectAlarm` | src/main/java/com/fastcampus/sns/service/AlarmService.java:31-48 | a fresh emitter with the default timeout is registered under the user id, with both callbacks keyed on that id; a delivered connect event gives the emitter; a failed one gives ALARM_CONNECT_ERROR and the registration stays |
| `Alarms.AlarmService.EmitterCompleted` | src/main/java/com/fastcampus/sns/service/AlarmService.java:36 | completion removes the registry entry under the emitter's user id |
| `Alarms.AlarmService.EmitterTimedOut` | src/main/java/com/fastcampus/sns/service/AlarmService.java:37 | timeout removes the registry entry under the emitter's user id |
| `Alarms.AlarmService.Notify` | src/main/java/com/fastcampus/sns/service/AlarmService.java:60-74 | with no emitter, success and no push; with a delivered push, exactly one event with the alarm's id and the registry unchanged; with a failed push, the entry is removed and ALARM_CONNECT_ERROR raised; no other emitter receives anything and all callbacks are kept |
| `Alarms.AlarmService.Send` | src/main/java/com/fastcampus/sns/service/AlarmService.java:51-75 | an unknown receiver gives USER_NOT_FOUND, no alarm and no registry change. Otherwise one alarm is saved first and appears in the receiver's alarm list. With no emitter: success with no push. With a delivered push: exactly one event with the alarm's id, registry unchanged. With a failed push: the entry is removed and ALARM_CONNECT_ERROR is raised, and the alarm stays. No other emitter receives anything, every emitter keeps its completion and timeout callbacks, and the other tables and the post-id counter are untouched |
| `Alarms.ReplacedChannelCompletes` | src/main/java/com/fastcampus/sns/service/AlarmService.java:34-37 | after two connects by one user, completion of the first, replaced emitter deregisters the user, although the second emitter is still open |

## Left out

- HTTP routing, request bodies, security filters and the mapping of error codes to HTTP statuses. They are request plumbing, not business rules.
- `PostService.list`, `PostService.my`, `PostService.getComments`: paged reads that only forward to the repositories. Paging (`Page`/`Pageable`) is dropped throughout.
- Users.UserService.AlarmList: states which alarms are returned, not their order. The order comes from the caller's page request.
- Password encoding and matching, and token generation, are not modelled. The services take them as given functions (`Encoder`, `tokenFor`). BCrypt's random salt and the token's signing key, lifetime and issue time are folded into those functions.
- SSE transport I/O: whether a push is accepted is the input `delivered`. A closed or broken emitter's own state, and the real timing of idle timeouts, are not modelled. Completion and timeout are transport events, modelled by `EmitterCompleted` and `EmitterTimedOut`.
- Concurrency: the emitter registry and the cache are shared across threads in the real system. Here they are sequential maps, and callback interleavings are not modelled. Service calls on the tables are also modelled one at a time. Unique user names (`Users.UserService.Join`) and unique likes (`Store.UniqueLikes` in `Database.Valid()`, `Store.AtMostOneLike`) rely on this: `join` and `like` check for an existing row and then insert (UserService.java:41-46, PostService.java:89-96), with no unique constraint in the source, so two concurrent calls can both pass the check and both insert.
- Wall-clock time: `Instant.now()`, `NOW()` and the Redis expiry clock are an integer millisecond clock `now` passed into each operation. Expired cache entries are kept in the map and hidden on read.
- Cache store errors and transient datastore errors are not modelled.
- Object identity: the ownership check compares entity references. It is modelled as equality of user ids.
- The entity classes `PostEntity`, `LikeEntity` and `CommentEntity` are not shown; their repositories are modelled as the `Database` methods and query functions in `Store`. Post deletion is modelled as removal of the row and like deletion as removal of the like rows. The comment cascade follows its UPDATE query. The registration timestamps of these entities are left out.
- Integer ids are unbounded. The 32-bit range of `Integer` ids is not modelled.
- Logging calls and JPA mapping details beyond their soft-delete and identity meaning.
