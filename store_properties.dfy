/** What the store's operations guarantee when they are combined: follow lists kept in
    step, adding then deleting restoring a collection, likes, participation counts,
    edits, read-backs and the two views of contributions. */
module StoreProperties {
  import opened Wrappers
  import opened Seqs
  import opened Text
  import opened Entities
  import opened StoreOps

  // ---------------------------------------------------------------- follow lists

  /** Both sides of every follow are recorded: `x` lists `y` as followed exactly when
      `y` lists `x` as a follower. */
  ghost predicate Mirrored(users: seq<User>)
  {
    forall i, j :: 0 <= i < |users| && 0 <= j < |users| ==>
      (users[j].id in users[i].following <==> users[i].id in users[j].followers)
  }

  /** Following someone else keeps the follow lists in step. */
  lemma FollowKeepsMirrored(users: seq<User>, followerId: Id, followingId: Id)
    requires Mirrored(users) && followerId != followingId
    ensures Mirrored(FollowUsers(users, followerId, followingId))
  {
    var r := FollowUsers(users, followerId, followingId);
    forall i, j | 0 <= i < |r| && 0 <= j < |r|
      ensures r[j].id in r[i].following <==> r[i].id in r[j].followers
    {
      assert r[i].id == users[i].id && r[j].id == users[j].id;
      assert users[j].id in users[i].following <==> users[i].id in users[j].followers;
    }
  }

  /** Unfollowing someone else keeps the follow lists in step. */
  lemma UnfollowKeepsMirrored(users: seq<User>, followerId: Id, unfollowingId: Id)
    requires Mirrored(users) && followerId != unfollowingId
    ensures Mirrored(UnfollowUsers(users, followerId, unfollowingId))
  {
    var r := UnfollowUsers(users, followerId, unfollowingId);
    forall i, j | 0 <= i < |r| && 0 <= j < |r|
      ensures r[j].id in r[i].following <==> r[i].id in r[j].followers
    {
      assert r[i].id == users[i].id && r[j].id == users[j].id;
      assert users[j].id in users[i].following <==> users[i].id in users[j].followers;
    }
  }

  /** After a follow, the follower lists the followee and the followee lists the
      follower; every other user is unchanged. */
  lemma FollowLinks(users: seq<User>, followerId: Id, followingId: Id)
    requires followerId != followingId
    ensures forall i :: 0 <= i < |users| && users[i].id == followerId ==>
              FollowUsers(users, followerId, followingId)[i].following == users[i].following + [followingId]
              && FollowUsers(users, followerId, followingId)[i].followers == users[i].followers
    ensures forall i :: 0 <= i < |users| && users[i].id == followingId ==>
              FollowUsers(users, followerId, followingId)[i].followers == users[i].followers + [followerId]
              && FollowUsers(users, followerId, followingId)[i].following == users[i].following
    ensures forall i :: 0 <= i < |users| && users[i].id != followerId && users[i].id != followingId ==>
              FollowUsers(users, followerId, followingId)[i] == users[i]
  {
  }

  /** A self-follow takes the follower branch only: every user with the id gains the id
      in `following` and keeps `followers`, and every other user is unchanged. */
  lemma SelfFollowGrowsFollowingOnly(users: seq<User>, id: Id)
    ensures var r := FollowUsers(users, id, id);
            |r| == |users|
            && (forall i :: 0 <= i < |users| && users[i].id == id ==>
                  r[i].following == users[i].following + [id] && r[i].followers == users[i].followers
                  && r[i] == users[i].(following := r[i].following))
            && (forall i :: 0 <= i < |users| && users[i].id != id ==> r[i] == users[i])
  {
  }

  /** So a self-follow by a user who does not list themself as a follower leaves the
      lists out of step. */
  lemma SelfFollowBreaksMirror(users: seq<User>, id: Id, i: nat)
    requires i < |users| && users[i].id == id && id !in users[i].followers
    ensures !Mirrored(FollowUsers(users, id, id))
  {
    var r := FollowUsers(users, id, id);
    assert r[i].following == users[i].following + [id];
    assert r[i].id in r[i].following && r[i].id !in r[i].followers;
  }

  /** Unfollowing after following removes both links. */
  lemma FollowThenUnfollow(users: seq<User>, a: Id, b: Id)
    requires a != b
    ensures var r := UnfollowUsers(FollowUsers(users, a, b), a, b);
            forall i :: 0 <= i < |users| ==>
              (users[i].id == a ==> b !in r[i].following) && (users[i].id == b ==> a !in r[i].followers)
  {
  }

  /** Deleting a user keeps the follow lists in step among those who remain. */
  lemma DeleteKeepsMirrored(users: seq<User>, id: Id)
    requires Mirrored(users)
    ensures Mirrored(UsersAfterDeleting(users, id))
  {
    var r := UsersAfterDeleting(users, id);
    var kept := Filter(users, UserIdIsNot(id));
    DeletedUserGone(users, id);
    forall i, j | 0 <= i < |r| && 0 <= j < |r|
      ensures r[j].id in r[i].following <==> r[i].id in r[j].followers
    {
      assert kept[i] in users && kept[j] in users;
      var i0 :| 0 <= i0 < |users| && users[i0] == kept[i];
      var j0 :| 0 <= j0 < |users| && users[j0] == kept[j];
      assert users[j0].id in users[i0].following <==> users[i0].id in users[j0].followers;
      assert r[i].id != id && r[j].id != id;
    }
  }

  // ---------------------------------------------------------------- likes

  /** Liking a project the user had not liked and then unliking it restores every project. */
  lemma LikeThenUnlikeProject(projects: seq<Project>, userId: Id, projectId: Id)
    requires forall p :: p in projects && p.id == projectId ==> userId !in p.likes
    ensures UnlikeProjects(LikeProjects(projects, userId, projectId), userId, projectId) == projects
  {
    var r := UnlikeProjects(LikeProjects(projects, userId, projectId), userId, projectId);
    forall i | 0 <= i < |projects| ensures r[i] == projects[i] {
      if projects[i].id == projectId {
        assert projects[i] in projects;
        WithoutAppend(projects[i].likes, userId, userId);
        WithoutAbsent(projects[i].likes, userId);
      }
    }
  }

  /** `likeProject` does not check membership: liking twice records two likes. */
  lemma LikeProjectTwice(projects: seq<Project>, userId: Id, projectId: Id)
    ensures var r := LikeProjects(LikeProjects(projects, userId, projectId), userId, projectId);
            forall i :: 0 <= i < |projects| && projects[i].id == projectId ==>
              Count(r[i].likes, userId) == Count(projects[i].likes, userId) + 2
  {
    var once := LikeProjects(projects, userId, projectId);
    forall i | 0 <= i < |projects| && projects[i].id == projectId
      ensures Count(LikeProjects(once, userId, projectId)[i].likes, userId) == Count(projects[i].likes, userId) + 2
    {
      CountAppend(projects[i].likes, userId, userId);
      CountAppend(projects[i].likes + [userId], userId, userId);
    }
  }

  /** Liking a post the user had not liked and then unliking it restores every post. */
  lemma LikeThenUnlikePost(posts: seq<Post>, postId: Id, userId: Id)
    requires forall p :: p in posts && p.id == postId ==> userId !in p.likes
    ensures UnlikePosts(LikePosts(posts, postId, userId), postId, userId) == posts
  {
    var r := UnlikePosts(LikePosts(posts, postId, userId), postId, userId);
    forall i | 0 <= i < |posts| ensures r[i] == posts[i] {
      if posts[i].id == postId {
        assert posts[i] in posts;
        WithoutAppend(posts[i].likes, userId, userId);
        WithoutAbsent(posts[i].likes, userId);
      }
    }
  }

  /** Saving is idempotent and never lists a project twice. */
  lemma SaveIdempotent(saved: seq<Id>, projectId: Id)
    ensures WithSaved(WithSaved(saved, projectId), projectId) == WithSaved(saved, projectId)
    ensures NoDup(saved) ==> NoDup(WithSaved(saved, projectId))
  {
  }

  // ---------------------------------------------------------------- participation

  /** Toggling participation twice restores a project the user had not joined. */
  lemma ParticipationTwice(projects: seq<Project>, projectId: Id, userId: Id)
    requires forall p :: p in projects && p.id == projectId ==> userId !in p.collaborators
    ensures ToggleParticipation(ToggleParticipation(projects, projectId, userId), projectId, userId) == projects
  {
    var r := ToggleParticipation(ToggleParticipation(projects, projectId, userId), projectId, userId);
    forall i | 0 <= i < |projects| ensures r[i] == projects[i] {
      if projects[i].id == projectId {
        assert projects[i] in projects;
        ToggleTwice(projects[i].collaborators, userId);
      }
    }
  }

  /** When the user was already a collaborator, two toggles move them to the end of the
      list instead of restoring it. */
  lemma ParticipationTwiceReorders()
    ensures Toggle(Toggle(["u", "v"], "u"), "u") == ["v", "u"]
  {
    assert Without(["u", "v"], "u") == ["v"] by {
      assert ["u", "v"][1..] == ["v"];
      assert ["v"][1..] == [];
    }
  }

  /** Project ids are distinct. */
  ghost predicate UniqueProjectIds(projects: seq<Project>)
  {
    forall i, j :: 0 <= i < j < |projects| ==> projects[i].id != projects[j].id
  }

  lemma {:induction false} ToggleParticipationTail(projects: seq<Project>, projectId: Id, userId: Id)
    requires projects != []
    ensures ToggleParticipation(projects, projectId, userId)[1..] == ToggleParticipation(projects[1..], projectId, userId)
  {
  }

  /** With distinct ids, toggling participation in an existing project changes the
      user's joined count by one: up when they join, down when they leave. */
  lemma {:induction false} JoinedCountAfterToggle(projects: seq<Project>, i: nat, userId: Id)
    requires UniqueProjectIds(projects) && i < |projects|
    ensures JoinedCount(ToggleParticipation(projects, projects[i].id, userId), userId)
            == JoinedCount(projects, userId) + (if userId in projects[i].collaborators then -1 else 1)
  {
    var pid := projects[i].id;
    var r := ToggleParticipation(projects, pid, userId);
    ToggleParticipationTail(projects, pid, userId);
    if i == 0 {
      UntouchedCount(projects[1..], pid, userId);
    } else {
      assert UniqueProjectIds(projects[1..]) by {
        forall a, b | 0 <= a < b < |projects[1..]| ensures projects[1..][a].id != projects[1..][b].id {
          assert projects[1..][a] == projects[a + 1] && projects[1..][b] == projects[b + 1];
        }
      }
      assert projects[1..][i - 1] == projects[i];
      JoinedCountAfterToggle(projects[1..], i - 1, userId);
      assert r[0] == projects[0];
    }
  }

  /** Toggling a project id none of the projects has changes no count. */
  lemma {:induction false} UntouchedCount(projects: seq<Project>, projectId: Id, userId: Id)
    requires forall p :: p in projects ==> p.id != projectId
    ensures ToggleParticipation(projects, projectId, userId) == projects
  {
    var r := ToggleParticipation(projects, projectId, userId);
    forall k | 0 <= k < |projects| ensures r[k] == projects[k] {
      assert projects[k] in projects;
    }
  }

  // ---------------------------------------------------------------- edits

  /** The patch that supplies nothing. */
  function EmptyProjectPatch(): ProjectPatch
  {
    ProjectPatch(None, None, None, None, None, None, None, None, None, None, None, None, None, None)
  }

  /** An empty patch is no edit. */
  lemma EditWithNothing(p: Project)
    ensures EditedProject(p, EmptyProjectPatch()) == p
  {
    assert p.files + [] == p.files;
  }

  /** Editing twice with the same patch only repeats the appended files: every other
      field is the same as after one edit. */
  lemma EditTwice(p: Project, patch: ProjectPatch)
    ensures var once := EditedProject(p, patch);
            var twice := EditedProject(once, patch);
            twice.files == p.files + patch.files.GetOr([]) + patch.files.GetOr([])
            && twice == once.(files := twice.files)
  {
  }

  /** A patch without files is idempotent. */
  lemma EditWithoutFilesIdempotent(p: Project, patch: ProjectPatch)
    requires patch.files.None? || patch.files == Some([])
    ensures EditedProject(EditedProject(p, patch), patch) == EditedProject(p, patch)
  {
    assert p.files + [] == p.files;
    assert p.files + [] + [] == p.files;
  }

  /** The value a `Partial` field leaves after a spread: the supplied one, or else the
      previous one. */
  predicate Overwrites<T(==)>(result: T, supplied: Option<T>, previous: T)
  {
    if supplied.Some? then result == supplied.value else result == previous
  }

  /** Every field the patch supplies is overwritten and every other one kept, except
      that the new files go after the old ones. */
  lemma EditOverwrites(p: Project, patch: ProjectPatch)
    ensures var e := EditedProject(p, patch);
            && Overwrites(e.id, patch.id, p.id)
            && Overwrites(e.title, patch.title, p.title)
            && Overwrites(e.description, patch.description, p.description)
            && Overwrites(e.primaryType, patch.primaryType, p.primaryType)
            && Overwrites(e.additionalTypes, patch.additionalTypes, p.additionalTypes)
            && Overwrites(e.tags, patch.tags, p.tags)
            && Overwrites(e.creator, patch.creator, p.creator)
            && Overwrites(e.creatorId, patch.creatorId, p.creatorId)
            && Overwrites(e.createdAt, patch.createdAt, p.createdAt)
            && Overwrites(e.likes, patch.likes, p.likes)
            && Overwrites(e.collaborators, patch.collaborators, p.collaborators)
            && Overwrites(e.commitments, patch.commitments, p.commitments)
            && (patch.fundraisingGoal.Some? ==> e.fundraisingGoal == patch.fundraisingGoal)
            && (patch.fundraisingGoal.None? ==> e.fundraisingGoal == p.fundraisingGoal)
            && e.files == p.files + (if patch.files.Some? then patch.files.value else [])
  {
  }

  // ---------------------------------------------------------------- updates

  /** The patch `updateUserProfile` applies overwrites exactly the fields it supplies. */
  lemma UserPatchOverwrites(u: User, patch: UserPatch)
    ensures var v := ApplyUserPatch(u, patch);
            && Overwrites(v.id, patch.id, u.id)
            && Overwrites(v.username, patch.username, u.username)
            && Overwrites(v.name, patch.name, u.name)
            && Overwrites(v.avatar, patch.avatar, u.avatar)
            && Overwrites(v.artType, patch.artType, u.artType)
            && Overwrites(v.contributions, patch.contributions, u.contributions)
            && Overwrites(v.projectsJoined, patch.projectsJoined, u.projectsJoined)
            && Overwrites(v.location, patch.location, u.location)
            && Overwrites(v.createdAt, patch.createdAt, u.createdAt)
            && Overwrites(v.following, patch.following, u.following)
            && Overwrites(v.followers, patch.followers, u.followers)
            && Overwrites(v.bio, patch.bio, u.bio)
            && Overwrites(v.posts, patch.posts, u.posts)
  {
  }

  /** After `updateUserProfile` with a patch that keeps the id, the length is kept, other
      users are untouched, and looking the user up finds the patched first match. */
  lemma UpdateUserThenGet(users: seq<User>, userId: Id, patch: UserPatch)
    requires patch.id.None? || patch.id == Some(userId)
    ensures var r := UpdateUsers(users, userId, patch);
            && |r| == |users|
            && (forall i :: 0 <= i < |users| && users[i].id != userId ==> r[i] == users[i])
            && FindUser(r, userId) ==
                 if FindUser(users, userId).Some? then Some(ApplyUserPatch(FindUser(users, userId).value, patch)) else None
  {
    var r := UpdateUsers(users, userId, patch);
    forall i | 0 <= i < |users| ensures UserIdIs(userId)(r[i]) == UserIdIs(userId)(users[i]) {
    }
    FindIndexAfterUpdate(users, r, UserIdIs(userId));
  }

  /** The patch `updateForumPost` applies overwrites exactly the fields it supplies. */
  lemma ForumPostPatchOverwrites(f: ForumPost, patch: ForumPostPatch)
    ensures var g := ApplyForumPostPatch(f, patch);
            && Overwrites(g.id, patch.id, f.id)
            && Overwrites(g.projectId, patch.projectId, f.projectId)
            && Overwrites(g.title, patch.title, f.title)
            && Overwrites(g.content, patch.content, f.content)
            && Overwrites(g.userId, patch.userId, f.userId)
            && Overwrites(g.username, patch.username, f.username)
            && Overwrites(g.timestamp, patch.timestamp, f.timestamp)
            && Overwrites(g.comments, patch.comments, f.comments)
  {
  }

  /** After `updateForumPost` with a patch that keeps the id, the length is kept, other
      threads are untouched, and looking the thread up finds the patched first match. */
  lemma UpdateForumPostThenGet(forumPosts: seq<ForumPost>, postId: Id, patch: ForumPostPatch)
    requires patch.id.None? || patch.id == Some(postId)
    ensures var r := UpdateForumPosts(forumPosts, postId, patch);
            var found := Find(forumPosts, ForumPostIdIs(postId));
            && |r| == |forumPosts|
            && (forall i :: 0 <= i < |forumPosts| && forumPosts[i].id != postId ==> r[i] == forumPosts[i])
            && Find(r, ForumPostIdIs(postId)) == if found.Some? then Some(ApplyForumPostPatch(found.value, patch)) else None
  {
    var r := UpdateForumPosts(forumPosts, postId, patch);
    forall i | 0 <= i < |forumPosts| ensures ForumPostIdIs(postId)(r[i]) == ForumPostIdIs(postId)(forumPosts[i]) {
    }
    FindIndexAfterUpdate(forumPosts, r, ForumPostIdIs(postId));
  }

  /** After `updateFolderView`, the length is kept, views with other ids are untouched,
      and looking the id up finds the new view whenever one had it. */
  lemma UpdateFolderViewThenGet(views: seq<FolderView>, view: FolderView)
    ensures var r := ReplaceFolderView(views, view);
            && |r| == |views|
            && (forall i :: 0 <= i < |views| && views[i].id != view.id ==> r[i] == views[i])
            && Find(r, FolderViewIdIs(view.id)) == if Find(views, FolderViewIdIs(view.id)).Some? then Some(view) else None
  {
    var r := ReplaceFolderView(views, view);
    forall i | 0 <= i < |views| ensures FolderViewIdIs(view.id)(r[i]) == FolderViewIdIs(view.id)(views[i]) {
    }
    FindIndexAfterUpdate(views, r, FolderViewIdIs(view.id));
  }

  /** After `updateForumComment`, every thread keeps all but its comments, keeps its
      number of comments, and looking the comment up finds it with the new content. */
  lemma UpdateForumCommentThenGet(forumPosts: seq<ForumPost>, commentId: Id, content: string)
    ensures var r := UpdateForumCommentIn(forumPosts, commentId, content);
            && |r| == |forumPosts|
            && forall i :: 0 <= i < |forumPosts| ==>
                 var found := Find(forumPosts[i].comments, ForumCommentIdIs(commentId));
                 && r[i].(comments := forumPosts[i].comments) == forumPosts[i]
                 && |r[i].comments| == |forumPosts[i].comments|
                 && Find(r[i].comments, ForumCommentIdIs(commentId)) ==
                      if found.Some? then Some(found.value.(content := content)) else None
  {
    var r := UpdateForumCommentIn(forumPosts, commentId, content);
    forall i | 0 <= i < |forumPosts|
      ensures var found := Find(forumPosts[i].comments, ForumCommentIdIs(commentId));
              Find(r[i].comments, ForumCommentIdIs(commentId)) ==
                if found.Some? then Some(found.value.(content := content)) else None
    {
      var cs := forumPosts[i].comments;
      var ds := r[i].comments;
      forall j | 0 <= j < |cs| ensures ForumCommentIdIs(commentId)(ds[j]) == ForumCommentIdIs(commentId)(cs[j]) {
      }
      FindIndexAfterUpdate(cs, ds, ForumCommentIdIs(commentId));
    }
  }

  // ---------------------------------------------------------------- add then delete

  /** A project added under a fresh id is removed again by deleting that id. */
  lemma AddThenDeleteProject(projects: seq<Project>, draft: ProjectDraft, id: Id)
    requires forall p :: p in projects ==> p.id != id
    ensures Filter(projects + [ProjectFromDraft(draft, id)], ProjectIdIsNot(id)) == projects
  {
    AppendThenFilter(projects, ProjectFromDraft(draft, id), ProjectIdIsNot(id));
  }

  /** A post added under a fresh id is removed again, from the feed and from its
      author's `posts`. */
  lemma AddThenDeletePost(posts: seq<Post>, users: seq<User>, userId: Id, content: string, subject: string,
                          projectId: Id, postId: Id, now: int)
    requires forall p :: p in posts ==> p.id != postId
    requires forall u :: u in users && u.id == userId ==> postId !in u.posts
    ensures var post := NewPost(postId, userId, content, subject, projectId, now);
            Filter(posts + [post], PostIdIsNot(postId)) == posts
            && Find(posts + [post], PostIdIs(postId)) == Some(post)
            && RemovePostIdFromAuthor(AddPostIdToAuthor(users, userId, postId), post.userId, postId) == users
  {
    var post := NewPost(postId, userId, content, subject, projectId, now);
    AppendThenFilter(posts, post, PostIdIsNot(postId));
    FindAppendMiss(posts, post, PostIdIs(postId));
    var r := RemovePostIdFromAuthor(AddPostIdToAuthor(users, userId, postId), userId, postId);
    forall i | 0 <= i < |users| ensures r[i] == users[i] {
      if users[i].id == userId {
        assert users[i] in users;
        WithoutAppend(users[i].posts, postId, postId);
        WithoutAbsent(users[i].posts, postId);
      }
    }
  }

  lemma AddThenDeleteChat(chats: seq<Chat>, c: Chat)
    requires forall x :: x in chats ==> x.id != c.id
    ensures Filter(chats + [c], ChatIdIsNot(c.id)) == chats
  {
    AppendThenFilter(chats, c, ChatIdIsNot(c.id));
  }

  lemma AddThenDeleteFolderView(views: seq<FolderView>, v: FolderView)
    requires forall x :: x in views ==> x.id != v.id
    ensures Filter(views + [v], FolderViewIdIsNot(v.id)) == views
  {
    AppendThenFilter(views, v, FolderViewIdIsNot(v.id));
  }

  lemma AddThenDeleteForumPost(forumPosts: seq<ForumPost>, p: ForumPost)
    requires forall x :: x in forumPosts ==> x.id != p.id
    ensures Filter(forumPosts + [p], ForumPostIdIsNot(p.id)) == forumPosts
  {
    AppendThenFilter(forumPosts, p, ForumPostIdIsNot(p.id));
  }

  /** A forum comment with an id no forum post uses is removed again by deleting it. */
  lemma AddThenDeleteForumComment(forumPosts: seq<ForumPost>, postId: Id, c: ForumComment)
    requires forall p, x :: p in forumPosts && x in p.comments ==> x.id != c.id
    ensures DeleteForumCommentIn(AppendForumComment(forumPosts, postId, c), c.id) == forumPosts
  {
    var r := DeleteForumCommentIn(AppendForumComment(forumPosts, postId, c), c.id);
    forall i | 0 <= i < |forumPosts| ensures r[i] == forumPosts[i] {
      var p := forumPosts[i];
      assert p in forumPosts;
      if p.id == postId {
        AppendThenFilter(p.comments, c, ForumCommentIdIsNot(c.id));
      } else {
        FilterKeepsAll(p.comments, ForumCommentIdIsNot(c.id));
      }
    }
  }

  /** A post comment with a fresh id is removed again by deleting it. */
  lemma AddThenDeletePostComment(posts: seq<Post>, postId: Id, commentId: Id, content: string, userId: Id,
                                 username: string, now: int)
    requires forall p, x :: p in posts && p.id == postId && x in p.comments ==> x.id != commentId
    ensures DeletePostComment(AddPostComment(posts, postId, commentId, content, userId, username, now), postId, commentId)
            == posts
  {
    var r := DeletePostComment(AddPostComment(posts, postId, commentId, content, userId, username, now), postId, commentId);
    forall i | 0 <= i < |posts| ensures r[i] == posts[i] {
      var p := posts[i];
      assert p in posts;
      if p.id == postId {
        AppendThenFilter(p.comments, NewPostComment(p, commentId, content, userId, username, now),
                         PostCommentIdIsNot(commentId));
      }
    }
  }

  // ---------------------------------------------------------------- posts and comments

  /** A post whose content and subject are both blank is refused. */
  lemma BlankPostRefused(content: string, subject: string)
    requires IsBlank(content) && IsBlank(subject)
    ensures !HasContent(content, subject)
  {
  }

  /** The flags of a forum comment: `isOP` exactly when the commenter wrote the thread,
      `isProjectCreator` exactly when the project is known and they created it; a feed
      comment is never marked as the project creator's. */
  lemma CommentFlags(post: ForumPost, project: Option<Project>, feedPost: Post, commentId: Id, content: string,
                     userId: Id, username: string, parentId: Option<Id>, now: int)
    ensures var c := NewForumComment(post, project, commentId, content, userId, username, parentId, now);
            (c.isOP <==> userId == post.userId)
            && (c.isProjectCreator <==> project.Some? && project.value.creatorId == userId)
            && c.postId == post.id && c.parentId == parentId
    ensures var c := NewPostComment(feedPost, commentId, content, userId, username, now);
            (c.isOP <==> userId == feedPost.userId) && !c.isProjectCreator
  {
  }

  // ---------------------------------------------------------------- read-backs

  /** A user who has just registered can log in by name. */
  lemma RegisterThenLogin(users: seq<User>, id: Id, username: string, createdAt: string)
    requires !UsernameTaken(users, username)
    ensures Find(users + [NewUser(id, username, createdAt)], UsernameIs(username)) == Some(NewUser(id, username, createdAt))
  {
    FindAppendMiss(users, NewUser(id, username, createdAt), UsernameIs(username));
  }

  /** A fresh registration starts with no follows, no posts and no joined projects. */
  lemma NewUserIsEmpty(id: Id, username: string, createdAt: string)
    ensures var u := NewUser(id, username, createdAt);
            u.id == id && u.username == username && u.following == [] && u.followers == []
            && u.posts == [] && u.projectsJoined == 0 && u.contributions == 0
  {
  }

  /** After `updateProject`, looking the project up returns the new version. */
  lemma {:induction false} UpdateThenGet(projects: seq<Project>, project: Project)
    requires exists p :: p in projects && p.id == project.id
    ensures FindProject(ReplaceProject(projects, project), project.id) == Some(project)
  {
    var r := ReplaceProject(projects, project);
    var found := FindIndex(r, ProjectIdIs(project.id));
    var p :| p in projects && p.id == project.id;
    var k :| 0 <= k < |projects| && projects[k] == p;
    assert ProjectIdIs(project.id)(r[k]);
    assert found.Some?;
    assert r[found.value].id == project.id;
    assert r[found.value] == project;
  }

  /** A saved goal reads back, except that 0 reads as no goal. */
  lemma SetThenGetGoal(goals: map<Id, int>, projectId: Id, goal: int)
    ensures GoalOf(goals[projectId := goal], projectId) == if goal == 0 then None else Some(goal)
  {
  }

  // ---------------------------------------------------------------- contributions

  /** Changing an entry whose key is outside `keys` does not change the sum over `keys`. */
  lemma {:induction false} PrefixedSumFrame(m: map<string, int>, keys: set<string>, prefix: string, k: string, v: int)
    requires keys <= m.Keys && k !in keys
    ensures PrefixedSum(m[k := v], keys, prefix) == PrefixedSum(m, keys, prefix)
    decreases keys
  {
    if keys != {} {
      var j :| j in keys;
      PrefixedSumRemove(m, keys, prefix, j);
      PrefixedSumRemove(m[k := v], keys, prefix, j);
      PrefixedSumFrame(m, keys - {j}, prefix, k, v);
    }
  }

  /** A contribution raises the project's summed running totals by its amount and
      leaves the sum of any project whose prefix its key does not start with alone. */
  lemma ContributionRaisesProjectTotal(m: map<string, int>, projectId: Id, userId: Id, amount: int, prefix: string)
    ensures var m' := AddContribution(m, ContributionKey(projectId, userId), amount);
            PrefixedSum(m', m'.Keys, prefix) ==
            PrefixedSum(m, m.Keys, prefix) + (if StartsWith(ContributionKey(projectId, userId), prefix) then amount else 0)
  {
    var key := ContributionKey(projectId, userId);
    var m' := AddContribution(m, key, amount);
    PrefixedSumRemove(m', m'.Keys, prefix, key);
    assert m'.Keys - {key} == m.Keys - {key};
    PrefixedSumFrame(m, m.Keys - {key}, prefix, key, ContributionAt(m, key) + amount);
    if key in m {
      PrefixedSumRemove(m, m.Keys, prefix, key);
    } else {
      assert m.Keys - {key} == m.Keys;
    }
  }

  /** A key always starts with its own project's prefix. */
  lemma KeyHasProjectPrefix(projectId: Id, userId: Id)
    ensures StartsWith(ContributionKey(projectId, userId), projectId + "_")
  {
    assert ContributionKey(projectId, userId)[..|projectId + "_"|] == projectId + "_";
  }

  /** Keys are joined with "_", so two different pairs can share one running total. */
  lemma KeysCanCollide()
    ensures ContributionKey("a", "b_c") == ContributionKey("a_b", "c")
  {
  }

  /** When its key is not shared, another pair's running total and ledger total stay in
      step across a contribution. */
  lemma OtherPairStaysInStep(totals: map<string, int>, ledger: map<Id, seq<Commitment>>, projectId: Id, userId: Id,
                             amount: int, now: int, otherProject: Id, otherUser: Id)
    requires ContributionKey(otherProject, otherUser) != ContributionKey(projectId, userId)
    requires otherProject == projectId ==> otherUser != userId
    requires ContributionAt(totals, ContributionKey(otherProject, otherUser)) == CommittedBy(LedgerOf(ledger, otherProject), otherUser)
    ensures var totals' := AddContribution(totals, ContributionKey(projectId, userId), amount);
            var ledger' := AppendToLedger(ledger, projectId, Commitment(userId, None, amount, now));
            ContributionAt(totals', ContributionKey(otherProject, otherUser)) == CommittedBy(LedgerOf(ledger', otherProject), otherUser)
  {
    if otherProject == projectId {
      var cs := LedgerOf(ledger, projectId) + [Commitment(userId, None, amount, now)];
      assert cs[..|cs| - 1] == LedgerOf(ledger, projectId);
    }
  }
}
