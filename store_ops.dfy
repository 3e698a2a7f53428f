/** The new collection values the store's operations compute from the current
    snapshot with `map`, `filter` and spread, before the store replaces the old
    collection with them (context/DataContext.tsx). */
module StoreOps {
  import opened Wrappers
  import opened Seqs
  import opened Text
  import opened Entities

  // ---------------------------------------------------------------- lookups

  function UserIdIs(id: Id): User -> bool { (u: User) => u.id == id }
  function UserIdIsNot(id: Id): User -> bool { (u: User) => u.id != id }
  function UsernameIs(username: string): User -> bool { (u: User) => u.username == username }
  function ProjectIdIs(id: Id): Project -> bool { (p: Project) => p.id == id }
  function ProjectIdIsNot(id: Id): Project -> bool { (p: Project) => p.id != id }
  function PostIdIs(id: Id): Post -> bool { (p: Post) => p.id == id }
  function PostIdIsNot(id: Id): Post -> bool { (p: Post) => p.id != id }
  function ChatIdIsNot(id: Id): Chat -> bool { (c: Chat) => c.id != id }
  function ForumPostIdIs(id: Id): ForumPost -> bool { (p: ForumPost) => p.id == id }
  function ForumPostIdIsNot(id: Id): ForumPost -> bool { (p: ForumPost) => p.id != id }
  function ForumCommentIdIs(id: Id): ForumComment -> bool { (c: ForumComment) => c.id == id }
  function ForumCommentIdIsNot(id: Id): ForumComment -> bool { (c: ForumComment) => c.id != id }
  function PostCommentIdIsNot(id: Id): PostComment -> bool { (c: PostComment) => c.id != id }
  function FolderViewIdIs(id: Id): FolderView -> bool { (v: FolderView) => v.id == id }
  function FolderViewIdIsNot(id: Id): FolderView -> bool { (v: FolderView) => v.id != id }

  predicate UsernameTaken(users: seq<User>, username: string)
  {
    exists u :: u in users && u.username == username
  }

  /** `users.find((u) => u.id === id)`. */
  function FindUser(users: seq<User>, id: Id): Option<User>
  {
    Find(users, UserIdIs(id))
  }

  /** `projects.find((p) => p.id === id)`. */
  function FindProject(projects: seq<Project>, id: Id): Option<Project>
  {
    Find(projects, ProjectIdIs(id))
  }

  /** The session snapshot after an operation that re-reads the acting user: when the
      current user is `id` and the new collection still holds a user `id`, the first
      such record replaces the snapshot; otherwise the snapshot stays as it was. */
  function Refreshed(current: Option<User>, users: seq<User>, id: Id): Option<User>
  {
    if current.Some? && current.value.id == id then
      match FindUser(users, id)
      case Some(u) => Some(u)
      case None => current
    else current
  }

  // ---------------------------------------------------------------- users

  /** The record `register` creates: defaults for everything but the name. */
  function NewUser(id: Id, username: string, createdAt: string): User
  {
    User(id, username, username, "https://picsum.photos/seed/" + username + "/200", "New Artist",
         0, 0, "Unknown", createdAt, [], [], "", [])
  }

  /** `{ ...u, ...patch }`. */
  function ApplyUserPatch(u: User, p: UserPatch): User
  {
    User(p.id.GetOr(u.id), p.username.GetOr(u.username), p.name.GetOr(u.name),
         p.avatar.GetOr(u.avatar), p.artType.GetOr(u.artType), p.contributions.GetOr(u.contributions),
         p.projectsJoined.GetOr(u.projectsJoined), p.location.GetOr(u.location),
         p.createdAt.GetOr(u.createdAt), p.following.GetOr(u.following),
         p.followers.GetOr(u.followers), p.bio.GetOr(u.bio), p.posts.GetOr(u.posts))
  }

  function UpdateUsers(users: seq<User>, userId: Id, patch: UserPatch): seq<User>
  {
    seq(|users|, i requires 0 <= i < |users| =>
      if users[i].id == userId then ApplyUserPatch(users[i], patch) else users[i])
  }

  /** One user's record after `followUser(followerId, followingId)`; the follower
      branch is taken first, so a self-follow only grows `following`. */
  function FollowStep(u: User, followerId: Id, followingId: Id): User
  {
    if u.id == followerId then u.(following := u.following + [followingId])
    else if u.id == followingId then u.(followers := u.followers + [followerId])
    else u
  }

  function FollowUsers(users: seq<User>, followerId: Id, followingId: Id): seq<User>
  {
    seq(|users|, i requires 0 <= i < |users| => FollowStep(users[i], followerId, followingId))
  }

  function UnfollowStep(u: User, followerId: Id, unfollowingId: Id): User
  {
    if u.id == followerId then u.(following := Without(u.following, unfollowingId))
    else if u.id == unfollowingId then u.(followers := Without(u.followers, followerId))
    else u
  }

  function UnfollowUsers(users: seq<User>, followerId: Id, unfollowingId: Id): seq<User>
  {
    seq(|users|, i requires 0 <= i < |users| => UnfollowStep(users[i], followerId, unfollowingId))
  }

  // ---------------------------------------------------------------- projects

  /** `{ ...draft, id, likes: [] }`. */
  function ProjectFromDraft(d: ProjectDraft, id: Id): Project
  {
    Project(id, d.title, d.description, d.primaryType, d.additionalTypes, d.tags, d.creator,
            d.creatorId, d.createdAt, [], d.collaborators, d.files, d.fundraisingGoal, d.commitments)
  }

  /** `projects.map((p) => (p.id === project.id ? project : p))`. */
  function ReplaceProject(projects: seq<Project>, project: Project): seq<Project>
  {
    seq(|projects|, i requires 0 <= i < |projects| =>
      if projects[i].id == project.id then project else projects[i])
  }

  function LikeProjects(projects: seq<Project>, userId: Id, projectId: Id): seq<Project>
  {
    seq(|projects|, i requires 0 <= i < |projects| =>
      if projects[i].id == projectId then projects[i].(likes := projects[i].likes + [userId])
      else projects[i])
  }

  function UnlikeProjects(projects: seq<Project>, userId: Id, projectId: Id): seq<Project>
  {
    seq(|projects|, i requires 0 <= i < |projects| =>
      if projects[i].id == projectId then projects[i].(likes := Without(projects[i].likes, userId))
      else projects[i])
  }

  function ToggleParticipation(projects: seq<Project>, projectId: Id, userId: Id): seq<Project>
  {
    seq(|projects|, i requires 0 <= i < |projects| =>
      if projects[i].id == projectId
      then projects[i].(collaborators := Toggle(projects[i].collaborators, userId))
      else projects[i])
  }

  function CollaboratesIn(userId: Id): Project -> bool { (p: Project) => userId in p.collaborators }

  /** How many projects list `userId` among their collaborators. */
  function JoinedCount(projects: seq<Project>, userId: Id): nat
  {
    |Filter(projects, CollaboratesIn(userId))|
  }

  function SetProjectsJoined(users: seq<User>, userId: Id, count: int): seq<User>
  {
    seq(|users|, i requires 0 <= i < |users| =>
      if users[i].id == userId then users[i].(projectsJoined := count) else users[i])
  }

  /** `{ ...existing, ...patch, files: [...existing.files, ...(patch.files || [])] }`. */
  function EditedProject(p: Project, patch: ProjectPatch): Project
  {
    Project(patch.id.GetOr(p.id), patch.title.GetOr(p.title), patch.description.GetOr(p.description),
            patch.primaryType.GetOr(p.primaryType), patch.additionalTypes.GetOr(p.additionalTypes),
            patch.tags.GetOr(p.tags), patch.creator.GetOr(p.creator), patch.creatorId.GetOr(p.creatorId),
            patch.createdAt.GetOr(p.createdAt), patch.likes.GetOr(p.likes),
            patch.collaborators.GetOr(p.collaborators),
            p.files + patch.files.GetOr([]),
            if patch.fundraisingGoal.Some? then patch.fundraisingGoal else p.fundraisingGoal,
            patch.commitments.GetOr(p.commitments))
  }

  /** `lists[key] || []` for the per-user and per-project id lists kept in storage. */
  function IdsAt(lists: map<Id, seq<Id>>, key: Id): seq<Id>
  {
    if key in lists then lists[key] else []
  }

  /** `saveProject`'s new list: the id goes last unless the list already has it. */
  function WithSaved(saved: seq<Id>, projectId: Id): (r: seq<Id>)
    ensures projectId in r
    ensures forall x :: x != projectId ==> (x in r <==> x in saved)
    ensures projectId in saved ==> r == saved
  {
    if projectId in saved then saved else saved + [projectId]
  }

  /** The current user's project list after `editProject` edited a project created by
      `creatorId`: the id is appended when the editor is the creator and it is not yet listed. */
  function RecordEditedProject(lists: map<Id, seq<Id>>, current: Option<User>, creatorId: Id, projectId: Id): map<Id, seq<Id>>
  {
    if current.Some? && creatorId == current.value.id && projectId !in IdsAt(lists, current.value.id)
    then lists[current.value.id := IdsAt(lists, current.value.id) + [projectId]]
    else lists
  }

  function SetGoalOnProjects(projects: seq<Project>, projectId: Id, goal: int): seq<Project>
  {
    seq(|projects|, i requires 0 <= i < |projects| =>
      if projects[i].id == projectId then projects[i].(fundraisingGoal := Some(goal)) else projects[i])
  }

  function AddCommitmentToProjects(projects: seq<Project>, projectId: Id, c: Commitment): seq<Project>
  {
    seq(|projects|, i requires 0 <= i < |projects| =>
      if projects[i].id == projectId then projects[i].(commitments := projects[i].commitments + [c])
      else projects[i])
  }

  // ---------------------------------------------------------------- posts

  /** The guard of `addPost`: `content.trim() || subject.trim()`. */
  predicate HasContent(content: string, subject: string)
  {
    Trim(content) != [] || Trim(subject) != []
  }

  function NewPost(id: Id, userId: Id, content: string, subject: string, projectId: Id, now: int): Post
  {
    Post(id, userId, projectId, content, subject, now, [], [])
  }

  function AddPostIdToAuthor(users: seq<User>, userId: Id, postId: Id): seq<User>
  {
    seq(|users|, i requires 0 <= i < |users| =>
      if users[i].id == userId then users[i].(posts := users[i].posts + [postId]) else users[i])
  }

  function RemovePostIdFromAuthor(users: seq<User>, authorId: Id, postId: Id): seq<User>
  {
    seq(|users|, i requires 0 <= i < |users| =>
      if users[i].id == authorId then users[i].(posts := Without(users[i].posts, postId)) else users[i])
  }

  function LikePosts(posts: seq<Post>, postId: Id, userId: Id): seq<Post>
  {
    seq(|posts|, i requires 0 <= i < |posts| =>
      if posts[i].id == postId then posts[i].(likes := posts[i].likes + [userId]) else posts[i])
  }

  function UnlikePosts(posts: seq<Post>, postId: Id, userId: Id): seq<Post>
  {
    seq(|posts|, i requires 0 <= i < |posts| =>
      if posts[i].id == postId then posts[i].(likes := Without(posts[i].likes, userId)) else posts[i])
  }

  /** The comment `addUserPostComment` appends to `post`: written by the post's author
      exactly when `isOP`; never flagged as the project creator's. */
  function NewPostComment(post: Post, commentId: Id, content: string, userId: Id, username: string, now: int): PostComment
  {
    PostComment(commentId, post.id, content, userId, username, now, false, userId == post.userId)
  }

  function AddPostComment(posts: seq<Post>, postId: Id, commentId: Id, content: string, userId: Id,
                          username: string, now: int): seq<Post>
  {
    seq(|posts|, i requires 0 <= i < |posts| =>
      if posts[i].id == postId
      then posts[i].(comments := posts[i].comments + [NewPostComment(posts[i], commentId, content, userId, username, now)])
      else posts[i])
  }

  function DeletePostComment(posts: seq<Post>, postId: Id, commentId: Id): seq<Post>
  {
    seq(|posts|, i requires 0 <= i < |posts| =>
      if posts[i].id == postId
      then posts[i].(comments := Filter(posts[i].comments, PostCommentIdIsNot(commentId)))
      else posts[i])
  }

  // ---------------------------------------------------------------- forum

  /** `{ ...post, ...patch }`. */
  function ApplyForumPostPatch(p: ForumPost, patch: ForumPostPatch): ForumPost
  {
    ForumPost(patch.id.GetOr(p.id), patch.projectId.GetOr(p.projectId), patch.title.GetOr(p.title),
              patch.content.GetOr(p.content), patch.userId.GetOr(p.userId),
              patch.username.GetOr(p.username), patch.timestamp.GetOr(p.timestamp),
              patch.comments.GetOr(p.comments))
  }

  function UpdateForumPosts(forumPosts: seq<ForumPost>, postId: Id, patch: ForumPostPatch): seq<ForumPost>
  {
    seq(|forumPosts|, i requires 0 <= i < |forumPosts| =>
      if forumPosts[i].id == postId then ApplyForumPostPatch(forumPosts[i], patch) else forumPosts[i])
  }

  /** The comment `addForumComment` writes: `isOP` when the commenter wrote the thread,
      `isProjectCreator` when a project was found and the commenter created it. */
  function NewForumComment(post: ForumPost, project: Option<Project>, commentId: Id, content: string,
                           userId: Id, username: string, parentId: Option<Id>, now: int): ForumComment
  {
    ForumComment(commentId, post.id, content, userId, username, now, parentId,
                 userId == post.userId,
                 match project case Some(pr) => userId == pr.creatorId case None => false)
  }

  function AppendForumComment(forumPosts: seq<ForumPost>, postId: Id, c: ForumComment): seq<ForumPost>
  {
    seq(|forumPosts|, i requires 0 <= i < |forumPosts| =>
      if forumPosts[i].id == postId then forumPosts[i].(comments := forumPosts[i].comments + [c])
      else forumPosts[i])
  }

  function EditCommentContent(cs: seq<ForumComment>, commentId: Id, content: string): seq<ForumComment>
  {
    seq(|cs|, j requires 0 <= j < |cs| => if cs[j].id == commentId then cs[j].(content := content) else cs[j])
  }

  function UpdateForumCommentIn(forumPosts: seq<ForumPost>, commentId: Id, content: string): seq<ForumPost>
  {
    seq(|forumPosts|, i requires 0 <= i < |forumPosts| =>
      forumPosts[i].(comments := EditCommentContent(forumPosts[i].comments, commentId, content)))
  }

  function DeleteForumCommentIn(forumPosts: seq<ForumPost>, commentId: Id): seq<ForumPost>
  {
    seq(|forumPosts|, i requires 0 <= i < |forumPosts| =>
      forumPosts[i].(comments := Filter(forumPosts[i].comments, ForumCommentIdIsNot(commentId))))
  }

  // ---------------------------------------------------------------- folder views

  function ReplaceFolderView(views: seq<FolderView>, view: FolderView): seq<FolderView>
  {
    seq(|views|, i requires 0 <= i < |views| => if views[i].id == view.id then view else views[i])
  }

  // ---------------------------------------------------------------- deleting a user

  function CleanUser(u: User, id: Id): User
  {
    u.(following := Without(u.following, id), followers := Without(u.followers, id))
  }

  function CleanProject(p: Project, id: Id): Project
  {
    p.(collaborators := Without(p.collaborators, id), likes := Without(p.likes, id))
  }

  function CommentByOther(id: Id): PostComment -> bool { (c: PostComment) => c.userId != id }

  function CleanPost(p: Post, id: Id): Post
  {
    p.(likes := Without(p.likes, id), comments := Filter(p.comments, CommentByOther(id)))
  }

  function NotCreatedBy(id: Id): Project -> bool { (p: Project) => p.creatorId != id }
  function NotWrittenBy(id: Id): Post -> bool { (p: Post) => p.userId != id }

  /** The users left by `deleteUserProfile(id)`: every other user, with `id` struck
      from their `following` and `followers`. */
  function UsersAfterDeleting(users: seq<User>, id: Id): seq<User>
  {
    var kept := Filter(users, UserIdIsNot(id));
    seq(|kept|, i requires 0 <= i < |kept| => CleanUser(kept[i], id))
  }

  /** The projects left: every project `id` did not create, with `id` struck from its
      `collaborators` and `likes`. */
  function ProjectsAfterDeleting(projects: seq<Project>, id: Id): seq<Project>
  {
    var kept := Filter(projects, NotCreatedBy(id));
    seq(|kept|, i requires 0 <= i < |kept| => CleanProject(kept[i], id))
  }

  /** The posts left: every post `id` did not write, without their likes and comments. */
  function PostsAfterDeleting(posts: seq<Post>, id: Id): seq<Post>
  {
    var kept := Filter(posts, NotWrittenBy(id));
    seq(|kept|, i requires 0 <= i < |kept| => CleanPost(kept[i], id))
  }

  /** No remaining user has the deleted id, follows it or is followed by it, and every
      other user remains with the id struck. */
  lemma DeletedUserGone(users: seq<User>, id: Id)
    ensures var r := UsersAfterDeleting(users, id);
            (forall u :: u in r ==> u.id != id && id !in u.following && id !in u.followers)
            && (forall u :: u in users && u.id != id ==> CleanUser(u, id) in r)
  {
    var kept := Filter(users, UserIdIsNot(id));
    var r := UsersAfterDeleting(users, id);
    forall u | u in r ensures u.id != id && id !in u.following && id !in u.followers {
      var i :| 0 <= i < |r| && r[i] == u;
      assert kept[i] in kept;
      assert UserIdIsNot(id)(kept[i]);
    }
    forall u | u in users && u.id != id ensures CleanUser(u, id) in r {
      assert UserIdIsNot(id)(u);
      assert u in kept;
      var i :| 0 <= i < |kept| && kept[i] == u;
      assert r[i] == CleanUser(u, id);
    }
  }

  /** None of the deleted user's projects remain, no project lists them as collaborator
      or liker, and every other project remains cleaned. */
  lemma DeletedUsersProjectsGone(projects: seq<Project>, id: Id)
    ensures var r := ProjectsAfterDeleting(projects, id);
            (forall p :: p in r ==> p.creatorId != id && id !in p.collaborators && id !in p.likes)
            && (forall p :: p in projects && p.creatorId != id ==> CleanProject(p, id) in r)
  {
    var kept := Filter(projects, NotCreatedBy(id));
    var r := ProjectsAfterDeleting(projects, id);
    forall p | p in r ensures p.creatorId != id && id !in p.collaborators && id !in p.likes {
      var i :| 0 <= i < |r| && r[i] == p;
      assert kept[i] in kept;
      assert NotCreatedBy(id)(kept[i]);
    }
    forall p | p in projects && p.creatorId != id ensures CleanProject(p, id) in r {
      assert NotCreatedBy(id)(p);
      assert p in kept;
      var i :| 0 <= i < |kept| && kept[i] == p;
      assert r[i] == CleanProject(p, id);
    }
  }

  /** None of the deleted user's posts remain, no post keeps their like or comment, and
      every other post remains cleaned. */
  lemma DeletedUsersPostsGone(posts: seq<Post>, id: Id)
    ensures var r := PostsAfterDeleting(posts, id);
            (forall p :: p in r ==> p.userId != id && id !in p.likes)
            && (forall p, c :: p in r && c in p.comments ==> c.userId != id)
            && (forall p :: p in posts && p.userId != id ==> CleanPost(p, id) in r)
  {
    var kept := Filter(posts, NotWrittenBy(id));
    var r := PostsAfterDeleting(posts, id);
    forall p | p in r ensures p.userId != id && id !in p.likes && forall c :: c in p.comments ==> c.userId != id {
      var i :| 0 <= i < |r| && r[i] == p;
      assert kept[i] in kept;
      assert NotWrittenBy(id)(kept[i]);
      forall c | c in p.comments ensures c.userId != id {
        assert CommentByOther(id)(c);
      }
    }
    forall p | p in posts && p.userId != id ensures CleanPost(p, id) in r {
      assert NotWrittenBy(id)(p);
      assert p in kept;
      var i :| 0 <= i < |kept| && kept[i] == p;
      assert r[i] == CleanPost(p, id);
    }
  }

  // ---------------------------------------------------------------- fundraising

  /** The running-total key `${projectId}_${userId}`. */
  function ContributionKey(projectId: Id, userId: Id): string
  {
    projectId + "_" + userId
  }

  /** `contributions[key] || 0`. */
  function ContributionAt(contributions: map<string, int>, key: string): int
  {
    if key in contributions then contributions[key] else 0
  }

  function AddContribution(contributions: map<string, int>, key: string, amount: int): map<string, int>
  {
    contributions[key := ContributionAt(contributions, key) + amount]
  }

  /** `ledger[projectId] || []`. */
  function LedgerOf(ledger: map<Id, seq<Commitment>>, projectId: Id): seq<Commitment>
  {
    if projectId in ledger then ledger[projectId] else []
  }

  function AppendToLedger(ledger: map<Id, seq<Commitment>>, projectId: Id, c: Commitment): map<Id, seq<Commitment>>
  {
    ledger[projectId := LedgerOf(ledger, projectId) + [c]]
  }

  /** `goals[projectId] || null`: a goal of 0 reads as no goal. */
  function GoalOf(goals: map<Id, int>, projectId: Id): (r: Option<int>)
    ensures r.None? <==> projectId !in goals || goals[projectId] == 0
    ensures r.Some? ==> r.value == goals[projectId]
  {
    if projectId in goals && goals[projectId] != 0 then Some(goals[projectId]) else None
  }

  /** Sum of `userId`'s commitment amounts in `cs`. */
  function CommittedBy(cs: seq<Commitment>, userId: Id): int
  {
    if cs == [] then 0
    else CommittedBy(cs[..|cs| - 1], userId) + (if cs[|cs| - 1].userId == userId then cs[|cs| - 1].amount else 0)
  }

  /** Sum of all commitment amounts in `cs`. */
  function TotalAmount(cs: seq<Commitment>): int
  {
    if cs == [] then 0 else TotalAmount(cs[..|cs| - 1]) + cs[|cs| - 1].amount
  }

  /** Sum of the entries of `m` over `keys` whose key starts with `prefix`, in any order. */
  ghost function PrefixedSum(m: map<string, int>, keys: set<string>, prefix: string): int
    requires keys <= m.Keys
    decreases keys
  {
    if keys == {} then 0
    else
      var k :| k in keys;
      (if StartsWith(k, prefix) then m[k] else 0) + PrefixedSum(m, keys - {k}, prefix)
  }

  /** Taking out any one key first gives the same sum. */
  lemma {:induction false} PrefixedSumRemove(m: map<string, int>, keys: set<string>, prefix: string, k: string)
    requires keys <= m.Keys && k in keys
    ensures PrefixedSum(m, keys, prefix) == (if StartsWith(k, prefix) then m[k] else 0) + PrefixedSum(m, keys - {k}, prefix)
    decreases keys
  {
    var j :| j in keys && PrefixedSum(m, keys, prefix) == (if StartsWith(j, prefix) then m[j] else 0) + PrefixedSum(m, keys - {j}, prefix);
    if j != k {
      PrefixedSumRemove(m, keys - {j}, prefix, k);
      PrefixedSumRemove(m, keys - {k}, prefix, j);
      assert keys - {j} - {k} == keys - {k} - {j};
    }
  }
}
