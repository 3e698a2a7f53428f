/** The records the store keeps. Ids, usernames and free text are strings; timestamps
    (`Date.now()` values) and amounts are integers (amounts in cents). An optional array
    field that the code always reads as `field || []` is a plain sequence, empty when
    absent; `Partial<T>` arguments are patches with one optional entry per field. */
module Entities {
  import opened Wrappers

  type Id = string

  datatype User = User(
    id: Id,
    username: string,
    name: string,
    avatar: string,
    artType: string,
    contributions: int,
    projectsJoined: int,
    location: string,
    createdAt: string,
    following: seq<Id>,
    followers: seq<Id>,
    bio: string,
    posts: seq<Id>)

  /** `Partial<User>`: the fields to overwrite. */
  datatype UserPatch = UserPatch(
    id: Option<Id>,
    username: Option<string>,
    name: Option<string>,
    avatar: Option<string>,
    artType: Option<string>,
    contributions: Option<int>,
    projectsJoined: Option<int>,
    location: Option<string>,
    createdAt: Option<string>,
    following: Option<seq<Id>>,
    followers: Option<seq<Id>>,
    bio: Option<string>,
    posts: Option<seq<Id>>)

  /** A pledge. The store's own ledger entries carry no username; the fundraising
      component's entries do. */
  datatype Commitment = Commitment(userId: Id, username: Option<string>, amount: int, timestamp: int)

  /** An attached file, as the project screen builds it. */
  datatype ProjectFile = ProjectFile(name: string, url: string, fileType: string)

  datatype Project = Project(
    id: Id,
    title: string,
    description: string,
    primaryType: string,
    additionalTypes: seq<string>,
    tags: seq<string>,
    creator: string,
    creatorId: Id,
    createdAt: string,
    likes: seq<Id>,
    collaborators: seq<Id>,
    files: seq<ProjectFile>,
    fundraisingGoal: Option<int>,
    commitments: seq<Commitment>)

  /** `Omit<Project, "id" | "likes">`: what `addProject` is given. */
  datatype ProjectDraft = ProjectDraft(
    title: string,
    description: string,
    primaryType: string,
    additionalTypes: seq<string>,
    tags: seq<string>,
    creator: string,
    creatorId: Id,
    createdAt: string,
    collaborators: seq<Id>,
    files: seq<ProjectFile>,
    fundraisingGoal: Option<int>,
    commitments: seq<Commitment>)

  /** `Partial<Project>`. */
  datatype ProjectPatch = ProjectPatch(
    id: Option<Id>,
    title: Option<string>,
    description: Option<string>,
    primaryType: Option<string>,
    additionalTypes: Option<seq<string>>,
    tags: Option<seq<string>>,
    creator: Option<string>,
    creatorId: Option<Id>,
    createdAt: Option<string>,
    likes: Option<seq<Id>>,
    collaborators: Option<seq<Id>>,
    files: Option<seq<ProjectFile>>,
    fundraisingGoal: Option<int>,
    commitments: Option<seq<Commitment>>)

  /** A comment on a feed post; both flags are fixed when it is written. */
  datatype PostComment = PostComment(
    id: Id,
    postId: Id,
    content: string,
    userId: Id,
    username: string,
    timestamp: int,
    isProjectCreator: bool,
    isOP: bool)

  datatype Post = Post(
    id: Id,
    userId: Id,
    projectId: Id,
    content: string,
    subject: string,
    createdAt: int,
    likes: seq<Id>,
    comments: seq<PostComment>)

  datatype ForumComment = ForumComment(
    id: Id,
    postId: Id,
    content: string,
    userId: Id,
    username: string,
    timestamp: int,
    parentId: Option<Id>,
    isOP: bool,
    isProjectCreator: bool)

  datatype ForumPost = ForumPost(
    id: Id,
    projectId: Id,
    title: string,
    content: string,
    userId: Id,
    username: string,
    timestamp: int,
    comments: seq<ForumComment>)

  /** `Partial<ForumPost>`. */
  datatype ForumPostPatch = ForumPostPatch(
    id: Option<Id>,
    projectId: Option<Id>,
    title: Option<string>,
    content: Option<string>,
    userId: Option<Id>,
    username: Option<string>,
    timestamp: Option<int>,
    comments: Option<seq<ForumComment>>)

  /** A project-scoped chat message. */
  datatype Chat = Chat(id: Id, projectId: Id, userId: Id, content: string, createdAt: int)

  datatype FolderFilters = FolderFilters(timeRange: string, username: string, projectType: string)

  datatype FolderView = FolderView(id: Id, name: string, filters: FolderFilters)
}
