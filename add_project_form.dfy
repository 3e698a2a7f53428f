/** The new-project form (components/AddProjectForm.tsx): which project types are
    selected, and the project record a submission builds from the form's fields. */
module AddProjectForm {
  import opened Wrappers
  import opened Seqs
  import opened Text
  import opened Entities
  import opened StoreOps
  import opened DataStore

  /** `toggleProjectType`: a selected type is dropped, an unselected one goes last. */
  function ToggleProjectType(selected: seq<string>, projectType: string): (r: seq<string>)
    ensures projectType in r <==> projectType !in selected
    ensures forall t :: t != projectType ==> (t in r <==> t in selected)
    ensures projectType !in selected ==> r == selected + [projectType]
    ensures projectType in selected ==> |r| < |selected|
  {
    CountPositive(selected, projectType);
    Toggle(selected, projectType)
  }

  lemma {:induction false} CountPositive(s: seq<string>, x: string)
    ensures x in s <==> Count(s, x) > 0
  {
    if s != [] {
      CountPositive(s[1..], x);
      assert x in s <==> s[0] == x || x in s[1..];
    }
  }

  /** Selecting a type and then deselecting it gives the selection back. */
  lemma ToggleTwiceRestores(selected: seq<string>, projectType: string)
    requires projectType !in selected
    ensures ToggleProjectType(ToggleProjectType(selected, projectType), projectType) == selected
  {
    ToggleTwice(selected, projectType);
  }

  /** No type is ever selected twice. */
  lemma ToggleKeepsNoDup(selected: seq<string>, projectType: string)
    requires NoDup(selected)
    ensures NoDup(ToggleProjectType(selected, projectType))
  {
    if projectType in selected {
      WithoutKeepsNoDup(selected, projectType);
    }
  }

  /** A finished tag: no comma, and no whitespace at either end. */
  predicate CleanTag(t: string)
  {
    ',' !in t && (t == [] || (!IsWhitespace(t[0]) && !IsWhitespace(t[|t| - 1])))
  }

  /** Trimming a comma-free piece gives a finished tag. */
  lemma TrimmedPieceIsClean(piece: string)
    requires ',' !in piece
    ensures CleanTag(Trim(piece))
  {
    TrimAddsNothing(piece, ',');
  }

  /** `tags.split(",").map((tag) => tag.trim())`. */
  function SplitTags(input: string): (tags: seq<string>)
    ensures |tags| == |Split(input, ',')| == Count(input, ',') + 1
    ensures forall i :: 0 <= i < |tags| ==> tags[i] == Trim(Split(input, ',')[i])
    ensures forall t :: t in tags ==> CleanTag(t)
  {
    var pieces := Split(input, ',');
    var tags := seq(|pieces|, i requires 0 <= i < |pieces| => Trim(pieces[i]));
    forall t | t in tags ensures CleanTag(t) {
      var i :| 0 <= i < |tags| && tags[i] == t;
      assert pieces[i] in pieces;
      TrimmedPieceIsClean(pieces[i]);
    }
    tags
  }

  /** An empty tag field still yields one, empty, tag. */
  lemma EmptyTagInput()
    ensures SplitTags("") == [""]
  {
    assert Trim("") == "";
  }

  /** The record `handleSubmit` passes to `addProject`, or `None` when a title, a
      description, a selected type or a signed-in user is missing. */
  function NewProjectDraft(title: string, description: string, selected: seq<string>, tagInput: string,
                           user: Option<User>, createdAt: string): (r: Option<ProjectDraft>)
    ensures r.Some? <==> title != "" && description != "" && |selected| > 0 && user.Some?
    ensures r.Some? ==> [r.value.primaryType] + r.value.additionalTypes == selected
    ensures r.Some? ==> r.value.title == title && r.value.description == description
                        && r.value.tags == SplitTags(tagInput) && r.value.createdAt == createdAt
    ensures r.Some? ==> r.value.creator == user.value.username && r.value.creatorId == user.value.id
    ensures r.Some? ==> r.value.collaborators == [] && r.value.files == [] && r.value.commitments == []
                        && r.value.fundraisingGoal == None
  {
    if title != "" && description != "" && |selected| > 0 && user.Some? then
      assert [selected[0]] + selected[1..] == selected;
      Some(ProjectDraft(title, description, selected[0], selected[1..], SplitTags(tagInput),
                        user.value.username, user.value.id, createdAt, [], [], None, []))
    else None
  }

  /** `handleSubmit`: when the form is complete, add the project for the store's current
      user; otherwise do nothing. */
  method HandleSubmit(store: DataProvider, title: string, description: string, selected: seq<string>,
                      tagInput: string, projectId: Id, createdAt: string) returns (submitted: bool)
    modifies store`projects, store`userProjects
    ensures submitted <==> NewProjectDraft(title, description, selected, tagInput, store.currentUser, createdAt).Some?
    ensures !submitted ==> store.projects == old(store.projects) && store.userProjects == old(store.userProjects)
    ensures submitted ==>
              var p := ProjectFromDraft(NewProjectDraft(title, description, selected, tagInput, store.currentUser, createdAt).value, projectId);
              store.projects == old(store.projects) + [p] && p.likes == [] && p.collaborators == []
              && p.creatorId == store.currentUser.value.id && [p.primaryType] + p.additionalTypes == selected
    ensures submitted ==>
              store.userProjects == old(store.userProjects)[store.currentUser.value.id :=
                                      IdsAt(old(store.userProjects), store.currentUser.value.id) + [projectId]]
  {
    var draft := NewProjectDraft(title, description, selected, tagInput, store.currentUser, createdAt);
    if draft.None? {
      return false;
    }
    store.AddProject(draft.value, projectId);
    submitted := true;
  }
}
