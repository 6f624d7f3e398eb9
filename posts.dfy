/** The post rules (`PostService`): writing, editing and deleting posts,
    liking and commenting. Every method that writes runs in one transaction
    and checks everything before its first write, so a failed call leaves the
    tables as they were. Liking and commenting each record one alarm for the
    post's owner directly in the alarm table; nothing is pushed live. */
module Posts {
  import opened Domain
  import opened AlarmRecords
  import opened Store

  /** The alarm a like or a comment by `actor` on `post` records: addressed
      to the post's owner, carrying the actor and the post. */
  function ActivityAlarm(post: Post, actor: User, alarmType: AlarmType, id: int, now: int): (a: Alarm)
    ensures a.id == Some(id) && a.registeredAt == Some(now) && Visible(a)
    ensures a.recipient == post.owner && a.alarmType == alarmType
    ensures a.args == AlarmArgs(actor.id, post.id)
  {
    Persisted(Of(post.owner, alarmType, AlarmArgs(actor.id, post.id)), id, now)
  }

  /** The alarm a like or a comment records shows up at the end of the post
      owner's alarm list and in no one else's. */
  lemma ActivityAlarmListed(alarms: seq<Alarm>, post: Post, actor: User, alarmType: AlarmType, now: int)
    ensures var a := ActivityAlarm(post, actor, alarmType, |alarms| + 1, now);
      && AlarmsOf(alarms + [a], post.owner) == AlarmsOf(alarms, post.owner) + [a]
      && forall u :: u != post.owner ==> AlarmsOf(alarms + [a], u) == AlarmsOf(alarms, u)
  {
    var a := ActivityAlarm(post, actor, alarmType, |alarms| + 1, now);
    AlarmsOfAppend(alarms, a, post.owner);
    forall u | u != post.owner
      ensures AlarmsOf(alarms + [a], u) == AlarmsOf(alarms, u)
    {
      AlarmsOfAppend(alarms, a, u);
    }
  }

  class PostService {
    const db: Database

    constructor (db: Database)
      ensures this.db == db
    {
      this.db := db;
    }

    /** The post with that id, or POST_NOT_FOUND. */
    function GetPostEntityOrException(postId: int): (r: Result<Post>)
      reads db
      requires db.Valid()
      ensures r.Ok? <==> postId in db.posts
      ensures r.Ok? ==> r.value == db.posts[postId] && r.value.id == postId
      ensures r.Err? ==> r.code == PostNotFound
    {
      if postId in db.posts then Ok(db.posts[postId]) else Err(PostNotFound)
    }

    /** The user with that name, or USER_NOT_FOUND. */
    function GetUserEntityOrException(userName: string): (r: Result<User>)
      reads db
      requires db.Valid()
      ensures r.Ok? <==> exists i :: 0 <= i < |db.users| && db.users[i].userName == userName
      ensures r.Ok? ==> r.value in db.users && r.value.userName == userName
      ensures r.Ok? ==> 1 <= r.value.id <= |db.users| && db.users[r.value.id - 1] == r.value
      ensures r.Err? ==> r.code == UserNotFound
    {
      match FindUserByName(db.users, userName)
      case Some(u) => Ok(u)
      case None => Err(UserNotFound)
    }

    /** Writes a new post owned by the named user. */
    method Create(title: string, body: string, userName: string) returns (r: Outcome)
      requires db.Valid()
      modifies db
      ensures db.Valid()
      ensures r.Fail? <==> GetUserEntityOrException(userName).Err?
      ensures r.Fail? ==> r.code == UserNotFound && unchanged(db)
      ensures r.Pass? ==>
        var owner := GetUserEntityOrException(userName).value;
        && old(db.nextPostId) !in old(db.posts)
        && db.posts == old(db.posts)[old(db.nextPostId) := Post(old(db.nextPostId), title, body, owner.id)]
        && |db.posts| == |old(db.posts)| + 1 && db.nextPostId == old(db.nextPostId) + 1
        && db.users == old(db.users) && db.likes == old(db.likes)
        && db.comments == old(db.comments) && db.alarms == old(db.alarms)
    {
      var user := GetUserEntityOrException(userName);
      if user.Err? {
        return Fail(user.code);
      }
      var p := db.SavePost(title, body, user.value.id);
      r := Pass;
    }

    /** Replaces the title and body of a post the named user owns. The checks
        run in this order: the user exists, the post exists, the user owns it. */
    method Modify(title: string, body: string, userName: string, postId: int) returns (r: Result<Post>)
      requires db.Valid()
      modifies db
      ensures db.Valid()
      ensures old(GetUserEntityOrException(userName)).Err? ==> r == Err(UserNotFound)
      ensures old(GetUserEntityOrException(userName)).Ok? && postId !in old(db.posts) ==> r == Err(PostNotFound)
      ensures old(GetUserEntityOrException(userName)).Ok? && postId in old(db.posts)
              && old(db.posts)[postId].owner != old(GetUserEntityOrException(userName)).value.id
              ==> r == Err(InvalidPermission)
      ensures old(GetUserEntityOrException(userName)).Ok? && postId in old(db.posts)
              && old(db.posts)[postId].owner == old(GetUserEntityOrException(userName)).value.id
              ==> r.Ok?
      ensures r.Err? ==> unchanged(db)
      ensures r.Ok? ==>
        && postId in old(db.posts)
        && r.value == old(db.posts)[postId].(title := title, body := body)
        && r.value.owner == old(GetUserEntityOrException(userName)).value.id
        && db.posts == old(db.posts)[postId := r.value] && db.nextPostId == old(db.nextPostId)
        && db.users == old(db.users) && db.likes == old(db.likes)
        && db.comments == old(db.comments) && db.alarms == old(db.alarms)
    {
      var user := GetUserEntityOrException(userName);
      if user.Err? {
        return Err(user.code);
      }
      var post := GetPostEntityOrException(postId);
      if post.Err? {
        return Err(post.code);
      }
      if post.value.owner != user.value.id {
        return Err(InvalidPermission);
      }
      var edited := post.value.(title := title, body := body);
      db.UpdatePost(edited);
      r := Ok(edited);
    }

    /** Deletes a post the named user owns, with the same three checks as
        Modify. The post's likes are removed and its comments soft-deleted. */
    method Delete(userName: string, postId: int, now: int) returns (r: Outcome)
      requires db.Valid()
      modifies db
      ensures db.Valid()
      ensures old(GetUserEntityOrException(userName)).Err? ==> r == Fail(UserNotFound)
      ensures old(GetUserEntityOrException(userName)).Ok? && postId !in old(db.posts) ==> r == Fail(PostNotFound)
      ensures old(GetUserEntityOrException(userName)).Ok? && postId in old(db.posts)
              && old(db.posts)[postId].owner != old(GetUserEntityOrException(userName)).value.id
              ==> r == Fail(InvalidPermission)
      ensures old(GetUserEntityOrException(userName)).Ok? && postId in old(db.posts)
              && old(db.posts)[postId].owner == old(GetUserEntityOrException(userName)).value.id
              ==> r == Pass
      ensures r.Fail? ==> unchanged(db)
      ensures r.Pass? ==>
        && postId in old(db.posts)
        && old(db.posts)[postId].owner == old(GetUserEntityOrException(userName)).value.id
        && db.posts == old(db.posts) - {postId} && db.nextPostId == old(db.nextPostId)
        && db.likes == RemoveLikesOf(old(db.likes), postId)
        && db.comments == SoftDeleteCommentsOf(old(db.comments), postId, now)
        && db.users == old(db.users) && db.alarms == old(db.alarms)
    {
      var user := GetUserEntityOrException(userName);
      if user.Err? {
        return Fail(user.code);
      }
      var post := GetPostEntityOrException(postId);
      if post.Err? {
        return Fail(post.code);
      }
      if post.value.owner != user.value.id {
        return Fail(InvalidPermission);
      }
      db.DeletePost(postId);
      db.DeleteAllLikesByPost(postId);
      db.DeleteAllCommentsByPost(postId, now);
      UniqueLikesRemove(old(db.likes), postId);
      r := Pass;
    }

    /** The named user likes a post, once at most, and the post's owner gets
        an alarm. The checks run in this order: the post exists, the user
        exists, the user has not liked the post yet. */
    method Like(postId: int, userName: string, now: int) returns (r: Outcome)
      requires db.Valid()
      modifies db
      ensures db.Valid()
      ensures postId !in old(db.posts) ==> r == Fail(PostNotFound)
      ensures postId in old(db.posts) && old(GetUserEntityOrException(userName)).Err? ==> r == Fail(UserNotFound)
      ensures postId in old(db.posts) && old(GetUserEntityOrException(userName)).Ok?
              && Store.Like(old(GetUserEntityOrException(userName)).value.id, postId) in old(db.likes)
              ==> r == Fail(AlreadyLiked)
      ensures postId in old(db.posts) && old(GetUserEntityOrException(userName)).Ok?
              && Store.Like(old(GetUserEntityOrException(userName)).value.id, postId) !in old(db.likes)
              ==> r == Pass
      ensures r.Fail? ==> unchanged(db)
      ensures r.Pass? ==>
        var liker := old(GetUserEntityOrException(userName)).value;
        var post := old(db.posts)[postId];
        && db.likes == old(db.likes) + [Store.Like(liker.id, postId)]
        && db.alarms == old(db.alarms) + [ActivityAlarm(post, liker, NewLikeOnPost, |old(db.alarms)| + 1, now)]
        && CountLikes(db.likes, postId) == CountLikes(old(db.likes), postId) + 1
        && db.users == old(db.users) && db.posts == old(db.posts) && db.nextPostId == old(db.nextPostId)
        && db.comments == old(db.comments)
    {
      var post := GetPostEntityOrException(postId);
      if post.Err? {
        return Fail(post.code);
      }
      var user := GetUserEntityOrException(userName);
      if user.Err? {
        return Fail(user.code);
      }
      if Store.Like(user.value.id, postId) in db.likes {
        return Fail(AlreadyLiked);
      }
      CountLikesAppend(db.likes, Store.Like(user.value.id, postId), postId);
      db.SaveLike(user.value.id, postId);
      var saved := db.SaveAlarm(Of(post.value.owner, NewLikeOnPost, AlarmArgs(user.value.id, post.value.id)), now);
      r := Pass;
    }

    /** The number of likes of a post, or POST_NOT_FOUND. */
    function LikeCount(postId: int): (r: Result<nat>)
      reads db
      requires db.Valid()
      ensures r.Err? <==> postId !in db.posts
      ensures r.Err? ==> r.code == PostNotFound
      ensures r.Ok? ==> r.value == CountLikes(db.likes, postId)
      ensures r.Ok? ==> r.value <= |db.likes|
    {
      match GetPostEntityOrException(postId)
      case Err(code) => Err(code)
      case Ok(post) => Ok(CountLikes(db.likes, postId))
    }

    /** The named user comments on a post and the post's owner gets an alarm.
        The checks run in this order: the post exists, the user exists. */
    method Comment(postId: int, comment: string, userName: string, now: int) returns (r: Outcome)
      requires db.Valid()
      modifies db
      ensures db.Valid()
      ensures postId !in old(db.posts) ==> r == Fail(PostNotFound)
      ensures postId in old(db.posts) && old(GetUserEntityOrException(userName)).Err? ==> r == Fail(UserNotFound)
      ensures postId in old(db.posts) && old(GetUserEntityOrException(userName)).Ok? ==> r == Pass
      ensures r.Fail? ==> unchanged(db)
      ensures r.Pass? ==>
        var author := old(GetUserEntityOrException(userName)).value;
        var post := old(db.posts)[postId];
        && db.comments == old(db.comments) + [Store.Comment(author.id, postId, comment, None)]
        && db.alarms == old(db.alarms) + [ActivityAlarm(post, author, NewCommentOnPost, |old(db.alarms)| + 1, now)]
        && db.users == old(db.users) && db.posts == old(db.posts) && db.nextPostId == old(db.nextPostId)
        && db.likes == old(db.likes)
    {
      var post := GetPostEntityOrException(postId);
      if post.Err? {
        return Fail(post.code);
      }
      var user := GetUserEntityOrException(userName);
      if user.Err? {
        return Fail(user.code);
      }
      db.SaveComment(user.value.id, postId, comment);
      var saved := db.SaveAlarm(Of(post.value.owner, NewCommentOnPost, AlarmArgs(user.value.id, post.value.id)), now);
      r := Pass;
    }
  }
}
