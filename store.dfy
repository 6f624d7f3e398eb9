/** The relational tables the services work on: users, posts, likes, comments
    and alarms, with the queries and updates the repositories run on them.
    Identity columns count up from 1. Users and alarms are never removed, so a
    user's or an alarm's id is one more than its row number. */
module Store {
  import opened Domain
  import opened AlarmRecords

  /** A post; `owner` is the id of the user who wrote it. */
  datatype Post = Post(id: int, title: string, body: string, owner: int)

  /** A like of `postId` by `userId`. */
  datatype Like = Like(userId: int, postId: int)

  /** A comment; `deletedAt` is set when the comment is soft-deleted. */
  datatype Comment = Comment(userId: int, postId: int, text: string, deletedAt: Option<int>)

  // ---------------------------------------------------------------------
  // Queries on the tables

  /** `findByUserName`: the first user of that name. */
  function FindUserByName(users: seq<User>, name: string): (r: Option<User>)
    ensures r.Some? ==> r.value in users && r.value.userName == name
    ensures r.None? <==> forall i :: 0 <= i < |users| ==> users[i].userName != name
    ensures r.Some? ==>
      exists i :: 0 <= i < |users| && users[i] == r.value && forall j :: 0 <= j < i ==> users[j].userName != name
  {
    if users == [] then None
    else if users[0].userName == name then Some(users[0])
    else
      var r := FindUserByName(users[1..], name);
      assert forall i :: 1 <= i < |users| ==> users[i] == users[1..][i - 1];
      r
  }

  /** `findById` on the user table: the first user with that id. */
  function FindUserById(users: seq<User>, id: int): (r: Option<User>)
    ensures r.Some? ==> r.value in users && r.value.id == id
    ensures r.None? <==> forall i :: 0 <= i < |users| ==> users[i].id != id
    ensures r.Some? ==>
      exists i :: 0 <= i < |users| && users[i] == r.value && forall j :: 0 <= j < i ==> users[j].id != id
  {
    if users == [] then None
    else if users[0].id == id then Some(users[0])
    else
      var r := FindUserById(users[1..], id);
      assert forall i :: 1 <= i < |users| ==> users[i] == users[1..][i - 1];
      r
  }

  /** `countByPost`: the number of likes of a post. */
  function CountLikes(likes: seq<Like>, postId: int): (c: nat)
    ensures c <= |likes|
  {
    if likes == [] then 0
    else CountLikes(likes[..|likes| - 1], postId) + (if likes[|likes| - 1].postId == postId then 1 else 0)
  }

  /** `deleteAllByPost` on the like table: the likes of every other post, in
      their order. */
  function RemoveLikesOf(likes: seq<Like>, postId: int): (r: seq<Like>)
    ensures |r| <= |likes|
    ensures forall l :: l in r <==> l in likes && l.postId != postId
  {
    if likes == [] then []
    else
      var rest := RemoveLikesOf(likes[..|likes| - 1], postId);
      var last := likes[|likes| - 1];
      assert likes == likes[..|likes| - 1] + [last];
      if last.postId == postId then rest else rest + [last]
  }

  /** `deleteAllByPost` on the comment table: an UPDATE that stamps the
      deletion time on every comment of the post; no row is removed and no
      other comment changes. */
  function SoftDeleteCommentsOf(comments: seq<Comment>, postId: int, now: int): (r: seq<Comment>)
    ensures |r| == |comments|
    ensures forall i :: 0 <= i < |r| ==>
      r[i].userId == comments[i].userId && r[i].postId == comments[i].postId && r[i].text == comments[i].text
    ensures forall i :: 0 <= i < |r| && comments[i].postId == postId ==> r[i].deletedAt == Some(now)
    ensures forall i :: 0 <= i < |r| && comments[i].postId != postId ==> r[i] == comments[i]
  {
    if comments == [] then []
    else
      var c := comments[0];
      var rest := SoftDeleteCommentsOf(comments[1..], postId, now);
      [if c.postId == postId then c.(deletedAt := Some(now)) else c] + rest
  }

  // ---------------------------------------------------------------------
  // Table invariants

  /** Ids follow row numbers and user names are unique. */
  predicate UsersWellFormed(users: seq<User>) {
    && (forall i :: 0 <= i < |users| ==> users[i].id == i + 1)
    && (forall i, j :: 0 <= i < j < |users| ==> users[i].userName != users[j].userName)
  }

  /** Posts are stored under their own id, below the next id to assign, and
      are owned by existing users. */
  predicate PostsWellFormed(posts: map<int, Post>, nextPostId: int, userCount: nat) {
    && nextPostId >= 1
    && forall k :: k in posts ==>
         posts[k].id == k && 1 <= k < nextPostId && 1 <= posts[k].owner <= userCount
  }

  /** No (user, post) pair is liked twice. */
  predicate UniqueLikes(likes: seq<Like>) {
    forall i, j :: 0 <= i < j < |likes| ==> likes[i] != likes[j]
  }

  /** Likes are unique and refer to existing users and posts. */
  predicate LikesWellFormed(likes: seq<Like>, posts: map<int, Post>, userCount: nat) {
    && UniqueLikes(likes)
    && forall l :: l in likes ==> l.postId in posts && 1 <= l.userId <= userCount
  }

  /** Ids follow row numbers, every row has been registered, and every alarm
      is addressed to an existing user. */
  predicate AlarmsWellFormed(alarms: seq<Alarm>, userCount: nat) {
    forall i :: 0 <= i < |alarms| ==>
      alarms[i].id == Some(i + 1) && alarms[i].registeredAt.Some?
      && 1 <= alarms[i].recipient <= userCount
  }

  // ---------------------------------------------------------------------
  // Lemmas about the queries

  /** With unique names, the user found by name is the one at any row holding
      that name. */
  lemma FindUserByNameUnique(users: seq<User>, i: nat)
    requires UsersWellFormed(users) && i < |users|
    ensures FindUserByName(users, users[i].userName) == Some(users[i])
  {
    var r := FindUserByName(users, users[i].userName);
    assert r.Some?;
    var j :| 0 <= j < |users| && users[j] == r.value;
    assert j == i;
  }

  /** With ids following row numbers, the user with id k is at row k - 1. */
  lemma FindUserByIdRow(users: seq<User>, id: int)
    requires UsersWellFormed(users)
    ensures FindUserById(users, id) == if 1 <= id <= |users| then Some(users[id - 1]) else None
  {
    if 1 <= id <= |users| {
      assert users[id - 1].id == id;
      var r := FindUserById(users, id);
      var j :| 0 <= j < |users| && users[j] == r.value;
    }
  }

  /** A new like raises the count of its own post by one and no other. */
  lemma CountLikesAppend(likes: seq<Like>, l: Like, postId: int)
    ensures CountLikes(likes + [l], postId)
         == CountLikes(likes, postId) + (if l.postId == postId then 1 else 0)
  {
    assert (likes + [l])[..|likes + [l]| - 1] == likes;
  }

  /** Removing the likes of a post leaves it none and keeps the count of every
      other post. */
  lemma {:induction false} CountLikesAfterRemove(likes: seq<Like>, postId: int, other: int)
    ensures CountLikes(RemoveLikesOf(likes, postId), postId) == 0
    ensures other != postId ==> CountLikes(RemoveLikesOf(likes, postId), other) == CountLikes(likes, other)
  {
    if likes != [] {
      var init := likes[..|likes| - 1];
      var last := likes[|likes| - 1];
      CountLikesAfterRemove(init, postId, other);
      if last.postId != postId {
        CountLikesAppend(RemoveLikesOf(init, postId), last, postId);
        CountLikesAppend(RemoveLikesOf(init, postId), last, other);
      }
    }
  }

  /** A post has no likes exactly when no like row refers to it. */
  lemma {:induction false} CountLikesZero(likes: seq<Like>, postId: int)
    ensures CountLikes(likes, postId) == 0 <==> forall l :: l in likes ==> l.postId != postId
  {
    if likes != [] {
      var init := likes[..|likes| - 1];
      CountLikesZero(init, postId);
      assert likes == init + [likes[|likes| - 1]];
    }
  }

  /** Appending a pair that is not yet present keeps the pairs unique. */
  lemma UniqueLikesAppend(likes: seq<Like>, l: Like)
    requires UniqueLikes(likes) && l !in likes
    ensures UniqueLikes(likes + [l])
  {
  }

  /** Removing the likes of a post keeps the pairs unique. */
  lemma {:induction false} UniqueLikesRemove(likes: seq<Like>, postId: int)
    requires UniqueLikes(likes)
    ensures UniqueLikes(RemoveLikesOf(likes, postId))
  {
    if likes != [] {
      var init := likes[..|likes| - 1];
      var last := likes[|likes| - 1];
      assert UniqueLikes(init);
      UniqueLikesRemove(init, postId);
      if last.postId != postId {
        assert last !in init;
        UniqueLikesAppend(RemoveLikesOf(init, postId), last);
      }
    }
  }

  /** Unique pairs mean a user has at most one like on a post. */
  lemma {:induction false} AtMostOneLike(likes: seq<Like>, userId: int, postId: int)
    requires UniqueLikes(likes)
    ensures multiset(likes)[Like(userId, postId)] <= 1
  {
    if likes != [] {
      var init := likes[..|likes| - 1];
      var last := likes[|likes| - 1];
      assert likes == init + [last];
      assert UniqueLikes(init);
      AtMostOneLike(init, userId, postId);
      if last == Like(userId, postId) {
        assert last !in init;
      }
    }
  }

  // ---------------------------------------------------------------------
  // The tables

  /** The relational store behind the repositories. */
  class Database {
    var users: seq<User>
    var posts: map<int, Post>
    var nextPostId: int
    var likes: seq<Like>
    var comments: seq<Comment>
    var alarms: seq<Alarm>

    predicate Valid()
      reads this
    {
      && UsersWellFormed(users)
      && PostsWellFormed(posts, nextPostId, |users|)
      && LikesWellFormed(likes, posts, |users|)
      && AlarmsWellFormed(alarms, |users|)
    }

    constructor ()
      ensures Valid()
      ensures users == [] && posts == map[] && likes == [] && comments == [] && alarms == []
      ensures nextPostId == 1
    {
      users, posts, nextPostId := [], map[], 1;
      likes, comments, alarms := [], [], [];
    }

    /** Inserts a user under the next identity value. */
    method SaveUser(userName: string, password: string) returns (u: User)
      modifies this`users
      ensures u == User(|old(users)| + 1, userName, password)
      ensures users == old(users) + [u]
    {
      u := User(|users| + 1, userName, password);
      users := users + [u];
    }

    /** Inserts a post under the next identity value. */
    method SavePost(title: string, body: string, owner: int) returns (p: Post)
      modifies this`posts, this`nextPostId
      ensures p == Post(old(nextPostId), title, body, owner)
      ensures posts == old(posts)[p.id := p] && nextPostId == old(nextPostId) + 1
    {
      p := Post(nextPostId, title, body, owner);
      posts := posts[p.id := p];
      nextPostId := nextPostId + 1;
    }

    /** Writes back a post loaded earlier. */
    method UpdatePost(p: Post)
      modifies this`posts
      ensures posts == old(posts)[p.id := p]
    {
      posts := posts[p.id := p];
    }

    /** Removes a post. */
    method DeletePost(postId: int)
      modifies this`posts
      ensures posts == old(posts) - {postId}
    {
      posts := posts - {postId};
    }

    /** Inserts a like. A new pair of an existing user and post keeps the
        invariant. */
    method SaveLike(userId: int, postId: int)
      modifies this`likes
      ensures likes == old(likes) + [Like(userId, postId)]
      ensures old(Valid()) && Like(userId, postId) !in old(likes) && postId in posts && 1 <= userId <= |users|
              ==> Valid()
    {
      if Valid() && Like(userId, postId) !in likes {
        UniqueLikesAppend(likes, Like(userId, postId));
      }
      likes := likes + [Like(userId, postId)];
    }

    method DeleteAllLikesByPost(postId: int)
      modifies this`likes
      ensures likes == RemoveLikesOf(old(likes), postId)
    {
      likes := RemoveLikesOf(likes, postId);
    }

    method SaveComment(userId: int, postId: int, text: string)
      modifies this`comments
      ensures comments == old(comments) + [Comment(userId, postId, text, None)]
    {
      comments := comments + [Comment(userId, postId, text, None)];
    }

    method DeleteAllCommentsByPost(postId: int, now: int)
      modifies this`comments
      ensures comments == SoftDeleteCommentsOf(old(comments), postId, now)
    {
      comments := SoftDeleteCommentsOf(comments, postId, now);
    }

    /** Inserts an alarm: assigns the next identity value and runs the insert
        hook. */
    method SaveAlarm(a: Alarm, now: int) returns (saved: Alarm)
      modifies this`alarms
      ensures saved == Persisted(a, |old(alarms)| + 1, now)
      ensures alarms == old(alarms) + [saved]
      ensures old(Valid()) && 1 <= a.recipient <= |users| ==> Valid()
    {
      saved := Persisted(a, |alarms| + 1, now);
      alarms := alarms + [saved];
    }

    /** Deletes the alarm with id `alarmId`, which is an update of its
        deletion time: the row stays, and every read stops returning it. */
    method DeleteAlarm(alarmId: int, now: int)
      requires Valid() && 1 <= alarmId <= |alarms|
      modifies this`alarms
      ensures Valid()
      ensures alarms == old(alarms)[alarmId - 1 := SoftDelete(old(alarms)[alarmId - 1], now)]
      ensures forall u :: alarms[alarmId - 1] !in AlarmsOf(alarms, u)
    {
      alarms := alarms[alarmId - 1 := SoftDelete(alarms[alarmId - 1], now)];
    }
  }
}
