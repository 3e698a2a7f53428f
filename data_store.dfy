/** The `DataProvider` store (context/DataContext.tsx): one object holding every
    collection, whose operations each compute a new collection from the current one
    and replace it. Storage writes are not modelled; the lists the source keeps only
    under per-user or per-project storage keys are map fields here. */
module DataStore {
  import opened Wrappers
  import opened Seqs
  import opened Text
  import opened Entities
  import opened StoreOps
  import opened StoreProperties

  class DataProvider {
    var users: seq<User>
    var projects: seq<Project>
    var posts: seq<Post>
    var chats: seq<Chat>
    /** The `currentUser` snapshot. */
    var currentUser: Option<User>
    /** `state.user`, the session's user; `isAuthenticated` is `session.Some?`. */
    var session: Option<User>
    var folderViews: seq<FolderView>
    var forumPosts: seq<ForumPost>
    var fundraisingGoals: map<Id, int>
    /** Running totals keyed `${projectId}_${userId}`. */
    var userContributions: map<string, int>
    /** The commitment ledger per project id. */
    var projectCommitments: map<Id, seq<Commitment>>
    /** `rtrove_v2_saved_projects_<userId>`. */
    var savedProjects: map<Id, seq<Id>>
    /** `rtrove_v2_projects_<userId>`: ids of projects the user created or edited. */
    var userProjects: map<Id, seq<Id>>
    /** `rtrove_v2_likes_<projectId>`, the like lists `toggleLike` and `getLikes` use. */
    var projectLikes: map<Id, seq<Id>>

    /** The store before anything is loaded. */
    constructor ()
      ensures users == [] && projects == [] && posts == [] && chats == []
      ensures currentUser == None && session == None
      ensures folderViews == [] && forumPosts == []
      ensures fundraisingGoals == map[] && userContributions == map[] && projectCommitments == map[]
      ensures savedProjects == map[] && userProjects == map[] && projectLikes == map[]
    {
      users, projects, posts, chats := [], [], [], [];
      currentUser, session := None, None;
      folderViews, forumPosts := [], [];
      fundraisingGoals, userContributions, projectCommitments := map[], map[], map[];
      savedProjects, userProjects, projectLikes := map[], map[], map[];
    }

    // ------------------------------------------------------------ session

    /** Succeeds exactly when some user has `username`; the password is never checked. */
    method Login(username: string, password: string) returns (r: Outcome)
      modifies this`currentUser, this`session
      ensures r.Done? <==> UsernameTaken(users, username)
      ensures r.Done? ==> currentUser == Find(users, UsernameIs(username)) && currentUser.Some?
                          && session == currentUser
      ensures r.Failed? ==> r.message == "Login failed"
                            && currentUser == old(currentUser) && session == old(session)
    {
      var found := Find(users, UsernameIs(username));
      if found.Some? {
        currentUser, session := found, found;
        r := Done;
      } else {
        assert forall u :: u in users ==> !UsernameIs(username)(u);
        r := Failed("Login failed");
      }
    }

    /** Fails, changing nothing, when the username is taken; otherwise appends one
        fresh user and signs them in. */
    method Register(username: string, password: string, newId: Id, createdAt: string) returns (r: Outcome)
      modifies this`users, this`currentUser, this`session
      ensures r.Failed? <==> UsernameTaken(old(users), username)
      ensures r.Failed? ==> r.message == "Registration failed" && users == old(users)
                            && currentUser == old(currentUser) && session == old(session)
      ensures r.Done? ==> users == old(users) + [NewUser(newId, username, createdAt)]
                          && currentUser == Some(NewUser(newId, username, createdAt))
                          && session == currentUser
    {
      if UsernameTaken(users, username) {
        return Failed("Registration failed");
      }
      var newUser := NewUser(newId, username, createdAt);
      users := users + [newUser];
      currentUser, session := Some(newUser), Some(newUser);
      r := Done;
    }

    method Logout()
      modifies this`currentUser, this`session
      ensures currentUser == None && session == None
    {
      currentUser, session := None, None;
    }

    // ------------------------------------------------------------ users

    /** Patches every user with `userId`; the current-user snapshot is patched on its own
        (so it may drift from the collection), and the session is left alone. */
    method UpdateUserProfile(userId: Id, patch: UserPatch)
      modifies this`users, this`currentUser
      ensures users == UpdateUsers(old(users), userId, patch)
      ensures currentUser == if old(currentUser).Some? && old(currentUser).value.id == userId
                             then Some(ApplyUserPatch(old(currentUser).value, patch))
                             else old(currentUser)
    {
      users := UpdateUsers(users, userId, patch);
      if currentUser.Some? && currentUser.value.id == userId {
        currentUser := Some(ApplyUserPatch(currentUser.value, patch));
      }
    }

    method FollowUser(followerId: Id, followingId: Id)
      modifies this`users, this`currentUser
      ensures users == FollowUsers(old(users), followerId, followingId)
      ensures currentUser == Refreshed(old(currentUser), users, followerId)
      ensures followerId != followingId && old(Mirrored(users)) ==> Mirrored(users)
    {
      if followerId != followingId && Mirrored(users) {
        FollowKeepsMirrored(users, followerId, followingId);
      }
      users := FollowUsers(users, followerId, followingId);
      currentUser := Refreshed(currentUser, users, followerId);
    }

    method UnfollowUser(followerId: Id, unfollowingId: Id)
      modifies this`users, this`currentUser
      ensures users == UnfollowUsers(old(users), followerId, unfollowingId)
      ensures currentUser == Refreshed(old(currentUser), users, followerId)
      ensures followerId != unfollowingId && old(Mirrored(users)) ==> Mirrored(users)
    {
      if followerId != unfollowingId && Mirrored(users) {
        UnfollowKeepsMirrored(users, followerId, unfollowingId);
      }
      users := UnfollowUsers(users, followerId, unfollowingId);
      currentUser := Refreshed(currentUser, users, followerId);
    }

    /** All the users are returned as they are (`getAllUsers`, `getCreatedUsers`). */
    function GetAllUsers(): (r: seq<User>)
      reads this
      ensures forall u :: u in r <==> u in users
    {
      users
    }

    // ------------------------------------------------------------ saved projects and likes

    function GetSavedProjects(userId: Id): (r: seq<Id>)
      reads this
      ensures userId !in savedProjects ==> r == []
      ensures userId in savedProjects ==> r == savedProjects[userId]
    {
      if userId in savedProjects then savedProjects[userId] else []
    }

    /** Appends `projectId` to the user's saved list unless it is already there. */
    method SaveProject(userId: Id, projectId: Id)
      modifies this`savedProjects
      ensures savedProjects == old(savedProjects)[userId := WithSaved(old(GetSavedProjects(userId)), projectId)]
      ensures projectId in GetSavedProjects(userId)
    {
      savedProjects := savedProjects[userId := WithSaved(GetSavedProjects(userId), projectId)];
    }

    function GetLikes(projectId: Id): (r: seq<Id>)
      reads this
      ensures projectId !in projectLikes ==> r == []
      ensures projectId in projectLikes ==> r == projectLikes[projectId]
    {
      if projectId in projectLikes then projectLikes[projectId] else []
    }

    /** Flips `userId`'s membership of the project's stored like list. */
    method ToggleLike(userId: Id, projectId: Id)
      modifies this`projectLikes
      ensures projectLikes == old(projectLikes)[projectId := Toggle(old(GetLikes(projectId)), userId)]
      ensures userId in GetLikes(projectId) <==> userId !in old(GetLikes(projectId))
    {
      projectLikes := projectLikes[projectId := Toggle(GetLikes(projectId), userId)];
    }

    // ------------------------------------------------------------ projects

    method UpdateProject(project: Project)
      modifies this`projects
      ensures projects == ReplaceProject(old(projects), project)
    {
      projects := ReplaceProject(projects, project);
    }

    function UserProjectIds(userId: Id): seq<Id>
      reads this
    {
      IdsAt(userProjects, userId)
    }

    /** Appends the draft under `projectId` with no likes, and records the id in the
        signed-in user's project list. */
    method AddProject(draft: ProjectDraft, projectId: Id)
      modifies this`projects, this`userProjects
      ensures projects == old(projects) + [ProjectFromDraft(draft, projectId)]
      ensures userProjects == if currentUser.Some?
                              then old(userProjects)[currentUser.value.id := old(UserProjectIds(currentUser.value.id)) + [projectId]]
                              else old(userProjects)
    {
      projects := projects + [ProjectFromDraft(draft, projectId)];
      if currentUser.Some? {
        userProjects := userProjects[currentUser.value.id := UserProjectIds(currentUser.value.id) + [projectId]];
      }
    }

    /** Removes every project with that id; other collections keep their references. */
    method DeleteProject(projectId: Id)
      modifies this`projects, this`userProjects
      ensures projects == Filter(old(projects), ProjectIdIsNot(projectId))
      ensures userProjects == if currentUser.Some?
                              then old(userProjects)[currentUser.value.id := Without(old(UserProjectIds(currentUser.value.id)), projectId)]
                              else old(userProjects)
    {
      projects := Filter(projects, ProjectIdIsNot(projectId));
      if currentUser.Some? {
        userProjects := userProjects[currentUser.value.id := Without(UserProjectIds(currentUser.value.id), projectId)];
      }
    }

    method LikeProject(userId: Id, projectId: Id)
      modifies this`projects
      ensures projects == LikeProjects(old(projects), userId, projectId)
    {
      projects := LikeProjects(projects, userId, projectId);
    }

    method UnlikeProject(userId: Id, projectId: Id)
      modifies this`projects
      ensures projects == UnlikeProjects(old(projects), userId, projectId)
    {
      projects := UnlikeProjects(projects, userId, projectId);
    }

    function GetLikedProjects(userId: Id): (r: seq<Project>)
      reads this
      ensures forall p :: p in r <==> p in projects && userId in p.likes
    {
      Filter(projects, (p: Project) => userId in p.likes)
    }

    function GetUserCreatedProjects(userId: Id): (r: seq<Project>)
      reads this
      ensures forall p :: p in r <==> p in projects && p.creatorId == userId
    {
      Filter(projects, (p: Project) => p.creatorId == userId)
    }

    function GetProjectById(projectId: Id): (r: Option<Project>)
      reads this
      ensures r.Some? ==> r.value in projects && r.value.id == projectId
      ensures r.None? <==> forall p :: p in projects ==> p.id != projectId
    {
      FindProject(projects, projectId)
    }

    /** Flips `userId`'s membership of the project's collaborators, then stores on that
        user the number of projects they now collaborate in. */
    method ToggleProjectParticipation(projectId: Id, userId: Id)
      modifies this`projects, this`users, this`currentUser
      ensures projects == ToggleParticipation(old(projects), projectId, userId)
      ensures users == SetProjectsJoined(old(users), userId, JoinedCount(projects, userId))
      ensures currentUser == Refreshed(old(currentUser), users, userId)
      ensures forall u :: u in users && u.id == userId ==> u.projectsJoined == JoinedCount(projects, userId)
    {
      projects := ToggleParticipation(projects, projectId, userId);
      users := SetProjectsJoined(users, userId, JoinedCount(projects, userId));
      currentUser := Refreshed(currentUser, users, userId);
    }

    /** Fails, changing nothing, when no project has that id; otherwise replaces the
        first such project by its edited version (files appended, not replaced) and
        returns it. */
    method EditProject(projectId: Id, patch: ProjectPatch) returns (r: Result<Project>)
      modifies this`projects, this`userProjects
      ensures r.Fail? <==> forall p :: p in old(projects) ==> p.id != projectId
      ensures r.Fail? ==> r.message == "Failed to edit project"
                          && projects == old(projects) && userProjects == old(userProjects)
      ensures r.Ok? ==> exists i :: 0 <= i < |old(projects)| && old(projects)[i].id == projectId
                          && (forall j :: 0 <= j < i ==> old(projects)[j].id != projectId)
                          && r.value == EditedProject(old(projects)[i], patch)
                          && projects == old(projects)[i := r.value]
      ensures r.Ok? ==> userProjects == RecordEditedProject(old(userProjects), currentUser, r.value.creatorId, projectId)
    {
      var index := FindIndex(projects, ProjectIdIs(projectId));
      if index.None? {
        assert forall p :: p in projects ==> p.id != projectId by {
          forall p | p in projects ensures p.id != projectId {
            var j :| 0 <= j < |projects| && projects[j] == p;
            assert !ProjectIdIs(projectId)(projects[j]);
          }
        }
        return Fail("Failed to edit project");
      }
      var i := index.value;
      assert ProjectIdIs(projectId)(projects[i]);
      assert forall j :: 0 <= j < i ==> !ProjectIdIs(projectId)(projects[j]);
      var updated := EditedProject(projects[i], patch);
      projects := projects[i := updated];
      userProjects := RecordEditedProject(userProjects, currentUser, updated.creatorId, projectId);
      r := Ok(updated);
    }

    // ------------------------------------------------------------ folder views

    method CreateFolderView(view: FolderView)
      modifies this`folderViews
      ensures folderViews == old(folderViews) + [view]
    {
      folderViews := folderViews + [view];
    }

    method DeleteFolderView(viewId: Id)
      modifies this`folderViews
      ensures folderViews == Filter(old(folderViews), FolderViewIdIsNot(viewId))
    {
      folderViews := Filter(folderViews, FolderViewIdIsNot(viewId));
    }

    method UpdateFolderView(view: FolderView)
      modifies this`folderViews
      ensures folderViews == ReplaceFolderView(old(folderViews), view)
    {
      folderViews := ReplaceFolderView(folderViews, view);
    }

    // ------------------------------------------------------------ posts

    /** When content or subject has a non-blank character, appends the post and its id
        to the author's `posts`; otherwise changes nothing. */
    method AddPost(userId: Id, content: string, subject: string, projectId: Id, postId: Id, now: int)
      modifies this`posts, this`users
      ensures HasContent(content, subject) ==>
                posts == old(posts) + [NewPost(postId, userId, content, subject, projectId, now)]
                && users == AddPostIdToAuthor(old(users), userId, postId)
      ensures !HasContent(content, subject) ==> posts == old(posts) && users == old(users)
    {
      if HasContent(content, subject) {
        posts := posts + [NewPost(postId, userId, content, subject, projectId, now)];
        users := AddPostIdToAuthor(users, userId, postId);
      }
    }

    /** Removes every post with that id and, when one existed, the id from the first
        such post's author's `posts`. */
    method DeletePost(postId: Id)
      modifies this`posts, this`users
      ensures posts == Filter(old(posts), PostIdIsNot(postId))
      ensures users == match Find(old(posts), PostIdIs(postId))
                       case Some(p) => RemovePostIdFromAuthor(old(users), p.userId, postId)
                       case None => old(users)
    {
      var toDelete := Find(posts, PostIdIs(postId));
      posts := Filter(posts, PostIdIsNot(postId));
      if toDelete.Some? {
        users := RemovePostIdFromAuthor(users, toDelete.value.userId, postId);
      }
    }

    method LikePost(postId: Id, userId: Id)
      modifies this`posts
      ensures posts == LikePosts(old(posts), postId, userId)
    {
      posts := LikePosts(posts, postId, userId);
    }

    method UnlikePost(postId: Id, userId: Id)
      modifies this`posts
      ensures posts == UnlikePosts(old(posts), postId, userId)
    {
      posts := UnlikePosts(posts, postId, userId);
    }

    function GetUserPosts(userId: Id): (r: seq<Post>)
      reads this
      ensures forall p :: p in r <==> p in posts && p.userId == userId
    {
      Filter(posts, (p: Post) => p.userId == userId)
    }

    function GetProjectPosts(projectId: Id): (r: seq<Post>)
      reads this
      ensures forall p :: p in r <==> p in posts && p.projectId == projectId
    {
      Filter(posts, (p: Post) => p.projectId == projectId)
    }

    method AddUserPostComment(postId: Id, content: string, userId: Id, username: string, commentId: Id, now: int)
      modifies this`posts
      ensures posts == AddPostComment(old(posts), postId, commentId, content, userId, username, now)
    {
      posts := AddPostComment(posts, postId, commentId, content, userId, username, now);
    }

    method DeleteUserPostComment(postId: Id, commentId: Id)
      modifies this`posts
      ensures posts == DeletePostComment(old(posts), postId, commentId)
    {
      posts := DeletePostComment(posts, postId, commentId);
    }

    // ------------------------------------------------------------ chats

    method AddChat(projectId: Id, userId: Id, content: string, chatId: Id, now: int)
      modifies this`chats
      ensures chats == old(chats) + [Chat(chatId, projectId, userId, content, now)]
    {
      chats := chats + [Chat(chatId, projectId, userId, content, now)];
    }

    method DeleteChat(chatId: Id)
      modifies this`chats
      ensures chats == Filter(old(chats), ChatIdIsNot(chatId))
    {
      chats := Filter(chats, ChatIdIsNot(chatId));
    }

    function GetProjectChats(projectId: Id): (r: seq<Chat>)
      reads this
      ensures forall c :: c in r <==> c in chats && c.projectId == projectId
    {
      Filter(chats, (c: Chat) => c.projectId == projectId)
    }

    // ------------------------------------------------------------ forum

    function GetForumPosts(projectId: Id): (r: seq<ForumPost>)
      reads this
      ensures forall p :: p in r <==> p in forumPosts && p.projectId == projectId
    {
      Filter(forumPosts, (p: ForumPost) => p.projectId == projectId)
    }

    method AddForumPost(projectId: Id, title: string, content: string, userId: Id, username: string,
                        postId: Id, now: int)
      modifies this`forumPosts
      ensures forumPosts == old(forumPosts) + [ForumPost(postId, projectId, title, content, userId, username, now, [])]
    {
      forumPosts := forumPosts + [ForumPost(postId, projectId, title, content, userId, username, now, [])];
    }

    method UpdateForumPost(postId: Id, patch: ForumPostPatch)
      modifies this`forumPosts
      ensures forumPosts == UpdateForumPosts(old(forumPosts), postId, patch)
    {
      forumPosts := UpdateForumPosts(forumPosts, postId, patch);
    }

    method DeleteForumPost(postId: Id)
      modifies this`forumPosts
      ensures forumPosts == Filter(old(forumPosts), ForumPostIdIsNot(postId))
    {
      forumPosts := Filter(forumPosts, ForumPostIdIsNot(postId));
    }

    /** Fails, changing nothing, when no forum post has that id; otherwise appends one
        flagged comment to every forum post with that id. */
    method AddForumComment(projectId: Id, postId: Id, content: string, userId: Id, username: string,
                           parentId: Option<Id>, commentId: Id, now: int) returns (r: Outcome)
      modifies this`forumPosts
      ensures r.Failed? <==> forall p :: p in old(forumPosts) ==> p.id != postId
      ensures r.Failed? ==> r.message == "Failed to add forum comment" && forumPosts == old(forumPosts)
      ensures r.Done? ==>
                var post := Find(old(forumPosts), ForumPostIdIs(postId)).value;
                forumPosts == AppendForumComment(old(forumPosts), postId,
                  NewForumComment(post, FindProject(projects, projectId), commentId, content, userId, username, parentId, now))
    {
      var post := Find(forumPosts, ForumPostIdIs(postId));
      if post.None? {
        assert forall p :: p in forumPosts ==> !ForumPostIdIs(postId)(p);
        return Failed("Failed to add forum comment");
      }
      assert ForumPostIdIs(postId)(post.value);
      var comment := NewForumComment(post.value, FindProject(projects, projectId), commentId, content,
                                     userId, username, parentId, now);
      forumPosts := AppendForumComment(forumPosts, postId, comment);
      r := Done;
    }

    method UpdateForumComment(commentId: Id, content: string)
      modifies this`forumPosts
      ensures forumPosts == UpdateForumCommentIn(old(forumPosts), commentId, content)
    {
      forumPosts := UpdateForumCommentIn(forumPosts, commentId, content);
    }

    method DeleteForumComment(commentId: Id)
      modifies this`forumPosts
      ensures forumPosts == DeleteForumCommentIn(old(forumPosts), commentId)
    {
      forumPosts := DeleteForumCommentIn(forumPosts, commentId);
    }

    // ------------------------------------------------------------ deleting a profile

    /** Fails, changing nothing, when no user has that id. Otherwise removes the user,
        their projects and posts, strikes their id from every follow list, collaborator
        list and like list and their comments from every post, drops their per-user
        lists and signs them out if they are the current user. Chats, forum posts and
        fundraising data are left as they are. */
    method DeleteUserProfile(userId: Id) returns (r: Outcome)
      modifies this`users, this`projects, this`posts, this`savedProjects, this`userProjects,
               this`currentUser, this`session
      ensures r.Failed? <==> forall u :: u in old(users) ==> u.id != userId
      ensures r.Failed? ==> r.message == "Failed to delete user profile"
                            && users == old(users) && projects == old(projects) && posts == old(posts)
                            && savedProjects == old(savedProjects) && userProjects == old(userProjects)
                            && currentUser == old(currentUser) && session == old(session)
      ensures r.Done? ==> users == UsersAfterDeleting(old(users), userId)
                          && projects == ProjectsAfterDeleting(old(projects), userId)
                          && posts == PostsAfterDeleting(old(posts), userId)
                          && savedProjects == old(savedProjects) - {userId}
                          && userProjects == old(userProjects) - {userId}
      ensures r.Done? && old(currentUser).Some? && old(currentUser).value.id == userId ==>
                currentUser == None && session == None
      ensures r.Done? && !(old(currentUser).Some? && old(currentUser).value.id == userId) ==>
                currentUser == old(currentUser) && session == old(session)
      ensures old(Mirrored(users)) ==> Mirrored(users)
    {
      var toDelete := FindUser(users, userId);
      if toDelete.None? {
        assert forall u :: u in users ==> !UserIdIs(userId)(u);
        return Failed("Failed to delete user profile");
      }
      assert UserIdIs(userId)(toDelete.value);
      if Mirrored(users) {
        DeleteKeepsMirrored(users, userId);
      }
      ForgetUser(userId);
      r := Done;
    }

    /** Strikes a user from everything the store holds about them: the users' follow
        lists, the projects and posts, the per-user lists and the session. */
    method ForgetUser(userId: Id)
      modifies this`users, this`projects, this`posts, this`savedProjects, this`userProjects,
               this`currentUser, this`session
      ensures users == UsersAfterDeleting(old(users), userId)
      ensures projects == ProjectsAfterDeleting(old(projects), userId)
      ensures posts == PostsAfterDeleting(old(posts), userId)
      ensures savedProjects == old(savedProjects) - {userId}
      ensures userProjects == old(userProjects) - {userId}
      ensures old(currentUser).Some? && old(currentUser).value.id == userId ==>
                currentUser == None && session == None
      ensures !(old(currentUser).Some? && old(currentUser).value.id == userId) ==>
                currentUser == old(currentUser) && session == old(session)
    {
      users := UsersAfterDeleting(users, userId);
      projects := ProjectsAfterDeleting(projects, userId);
      posts := PostsAfterDeleting(posts, userId);
      savedProjects := savedProjects - {userId};
      userProjects := userProjects - {userId};
      if currentUser.Some? && currentUser.value.id == userId {
        currentUser, session := None, None;
      }
    }

    // ------------------------------------------------------------ fundraising

    /** Records the goal and copies it onto every project with that id. */
    method SetProjectFundraisingGoal(projectId: Id, goal: int)
      modifies this`fundraisingGoals, this`projects
      ensures fundraisingGoals == old(fundraisingGoals)[projectId := goal]
      ensures projects == SetGoalOnProjects(old(projects), projectId, goal)
    {
      fundraisingGoals := fundraisingGoals[projectId := goal];
      projects := SetGoalOnProjects(projects, projectId, goal);
    }

    function GetProjectFundraisingGoal(projectId: Id): (r: Option<int>)
      reads this
      ensures r.None? <==> projectId !in fundraisingGoals || fundraisingGoals[projectId] == 0
      ensures r.Some? ==> r.value == fundraisingGoals[projectId]
    {
      GoalOf(fundraisingGoals, projectId)
    }

    function GetUserTotalContribution(projectId: Id, userId: Id): (r: int)
      reads this
      ensures ContributionKey(projectId, userId) !in userContributions ==> r == 0
      ensures ContributionKey(projectId, userId) in userContributions ==>
                r == userContributions[ContributionKey(projectId, userId)]
    {
      ContributionAt(userContributions, ContributionKey(projectId, userId))
    }

    function GetProjectCommitments(projectId: Id): (r: seq<Commitment>)
      reads this
      ensures projectId !in projectCommitments ==> r == []
      ensures projectId in projectCommitments ==> r == projectCommitments[projectId]
    {
      LedgerOf(projectCommitments, projectId)
    }

    /** The running total and the ledger agree on what `userId` gave to `projectId`. */
    ghost predicate ContributionsInStep(projectId: Id, userId: Id)
      reads this
    {
      GetUserTotalContribution(projectId, userId) == CommittedBy(GetProjectCommitments(projectId), userId)
    }

    /** Raises the `projectId_userId` running total by `amount`, appends one commitment
        (without a username) to the project's ledger and to the project record itself. */
    method AddUserContribution(projectId: Id, userId: Id, amount: int, now: int)
      modifies this`userContributions, this`projectCommitments, this`projects
      ensures userContributions == AddContribution(old(userContributions), ContributionKey(projectId, userId), amount)
      ensures projectCommitments == AppendToLedger(old(projectCommitments), projectId, Commitment(userId, None, amount, now))
      ensures projects == AddCommitmentToProjects(old(projects), projectId, Commitment(userId, None, amount, now))
      ensures GetUserTotalContribution(projectId, userId) == old(GetUserTotalContribution(projectId, userId)) + amount
      ensures GetProjectCommitments(projectId) == old(GetProjectCommitments(projectId)) + [Commitment(userId, None, amount, now)]
      ensures old(ContributionsInStep(projectId, userId)) ==> ContributionsInStep(projectId, userId)
      ensures PrefixedSum(userContributions, userContributions.Keys, projectId + "_")
              == old(PrefixedSum(userContributions, userContributions.Keys, projectId + "_")) + amount
    {
      KeyHasProjectPrefix(projectId, userId);
      ContributionRaisesProjectTotal(userContributions, projectId, userId, amount, projectId + "_");
      var c := Commitment(userId, None, amount, now);
      ghost var ledger := GetProjectCommitments(projectId);
      userContributions := AddContribution(userContributions, ContributionKey(projectId, userId), amount);
      projectCommitments := AppendToLedger(projectCommitments, projectId, c);
      projects := AddCommitmentToProjects(projects, projectId, c);
      assert (ledger + [c])[..|ledger + [c]| - 1] == ledger;
    }

    /** `Object.entries(userContributions)` filtered to keys starting with `projectId_`,
        summed. */
    method GetProjectTotalContributions(projectId: Id) returns (total: int)
      ensures total == PrefixedSum(userContributions, userContributions.Keys, projectId + "_")
    {
      var prefix := projectId + "_";
      var pending := userContributions.Keys;
      total := 0;
      while pending != {}
        invariant pending <= userContributions.Keys
        invariant total + PrefixedSum(userContributions, pending, prefix)
                  == PrefixedSum(userContributions, userContributions.Keys, prefix)
        decreases pending
      {
        var k :| k in pending;
        PrefixedSumRemove(userContributions, pending, prefix, k);
        if StartsWith(k, prefix) {
          total := total + userContributions[k];
        }
        pending := pending - {k};
      }
    }
  }
}
