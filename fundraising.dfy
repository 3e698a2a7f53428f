/** The fundraising panel (components/FundraisingComponent.tsx): the per-contributor
    grouping of a project's commitments, the total, what remains of the goal and the
    progress towards it, and the two handlers that write a new goal or a new commitment
    through the store. Amounts are integers (cents); a number the user typed arrives
    already parsed, `None` standing for `NaN`. */
module Fundraising {
  import opened Wrappers
  import opened Seqs
  import opened Entities
  import opened StoreOps
  import opened DataStore

  /** One row of the grouped list. */
  datatype ContributorTotal = ContributorTotal(userId: Id, username: string, amount: int)

  /** Some commitment in `cs` is by `userId`. */
  predicate HasCommitted(cs: seq<Commitment>, userId: Id)
  {
    exists i :: 0 <= i < |cs| && cs[i].userId == userId
  }

  /** The keys of the grouping `Map`: each contributor once, in order of first commitment. */
  function Contributors(cs: seq<Commitment>): (r: seq<Id>)
    ensures NoDup(r)
    ensures forall u :: u in r <==> HasCommitted(cs, u)
  {
    if cs == [] then []
    else
      var prefix := cs[..|cs| - 1];
      var prev := Contributors(prefix);
      assert forall u :: HasCommitted(prefix, u) ==> HasCommitted(cs, u) by {
        forall u | HasCommitted(prefix, u) ensures HasCommitted(cs, u) {
          var i :| 0 <= i < |prefix| && prefix[i].userId == u;
          assert cs[i] == prefix[i];
        }
      }
      assert forall u :: HasCommitted(cs, u) ==> HasCommitted(prefix, u) || u == cs[|cs| - 1].userId by {
        forall u | HasCommitted(cs, u) ensures HasCommitted(prefix, u) || u == cs[|cs| - 1].userId {
          var i :| 0 <= i < |cs| && cs[i].userId == u;
          if i < |prefix| {
            assert prefix[i] == cs[i];
          }
        }
      }
      if cs[|cs| - 1].userId in prev then prev else prev + [cs[|cs| - 1].userId]
  }

  /** Position of `userId`'s first commitment, or `|cs|` when there is none. */
  function FirstCommitment(cs: seq<Commitment>, userId: Id): (n: nat)
    ensures n <= |cs|
    ensures n < |cs| ==> cs[n].userId == userId
    ensures forall i :: 0 <= i < n && i < |cs| ==> cs[i].userId != userId
  {
    if cs == [] then 0
    else if cs[0].userId == userId then 0
    else 1 + FirstCommitment(cs[1..], userId)
  }

  function CommitmentBy(userId: Id): Commitment -> bool { (c: Commitment) => c.userId == userId }

  /** The name shown for `userId`: the username on their first commitment, or
      "Unknown User" when it is missing or empty. */
  function UsernameOf(cs: seq<Commitment>, userId: Id): (name: string)
    ensures name != ""
    ensures var n := FirstCommitment(cs, userId);
            n < |cs| && cs[n].username.Some? && cs[n].username.value != "" ==> name == cs[n].username.value
    ensures var n := FirstCommitment(cs, userId);
            !(n < |cs| && cs[n].username.Some? && cs[n].username.value != "") ==> name == "Unknown User"
  {
    var first := Find(cs, CommitmentBy(userId));
    FirstIsFound(cs, userId);
    if first.Some? && first.value.username.Some? && first.value.username.value != ""
    then first.value.username.value
    else "Unknown User"
  }

  /** `find` for a user's commitment lands on their first one. */
  lemma FirstIsFound(cs: seq<Commitment>, userId: Id)
    ensures var n := FirstCommitment(cs, userId);
            Find(cs, CommitmentBy(userId)) == if n < |cs| then Some(cs[n]) else None
  {
    FirstIndexIsFirstCommitment(cs, userId);
  }

  lemma {:induction false} FirstIndexIsFirstCommitment(cs: seq<Commitment>, userId: Id)
    ensures var n := FirstCommitment(cs, userId);
            FindIndex(cs, CommitmentBy(userId)) == if n < |cs| then Some(n) else None
  {
    if cs != [] && cs[0].userId != userId {
      FirstIndexIsFirstCommitment(cs[1..], userId);
    }
  }

  /** `cumulativeCommitments`: one row per distinct contributor, in order of first
      commitment, with the sum of their amounts and the name from their first
      commitment. */
  method CumulativeCommitments(cs: seq<Commitment>) returns (rows: seq<ContributorTotal>)
    ensures |rows| == |Contributors(cs)|
    ensures forall j :: 0 <= j < |rows| ==> rows[j].userId == Contributors(cs)[j]
    ensures forall j :: 0 <= j < |rows| ==> rows[j].amount == CommittedBy(cs, rows[j].userId)
    ensures forall j :: 0 <= j < |rows| ==> rows[j].username == UsernameOf(cs, rows[j].userId)
    ensures TotalCommitted(rows) == TotalAmount(cs)
  {
    var keys, totals := GroupAmounts(cs);
    rows := seq(|keys|, j requires 0 <= j < |keys| =>
      ContributorTotal(keys[j], UsernameOf(cs, keys[j]), totals[keys[j]]));
    RowsFromTotals(cs, keys, totals, rows);
  }

  /** The `forEach` into a `Map`: the contributors in insertion order, and each one's sum. */
  method GroupAmounts(cs: seq<Commitment>) returns (keys: seq<Id>, totals: map<Id, int>)
    ensures (keys, totals) == Tally(cs)
    ensures Grouped(cs, keys, totals)
  {
    keys, totals := [], map[];
    var i := 0;
    while i < |cs|
      invariant 0 <= i <= |cs|
      invariant (keys, totals) == Tally(cs[..i])
    {
      assert cs[..i + 1][..i] == cs[..i];
      var c := cs[i];
      var current := if c.userId in totals then totals[c.userId] else 0;
      keys := if c.userId in totals then keys else keys + [c.userId];
      totals := totals[c.userId := current + c.amount];
      i := i + 1;
    }
    assert cs[..|cs|] == cs;
    TallyIsGrouped(cs);
  }

  /** The map after the commitments `cs`, one at a time: a new author becomes the last
      key, and the author's running sum grows by the amount. */
  function Tally(cs: seq<Commitment>): (seq<Id>, map<Id, int>)
  {
    if cs == [] then ([], map[])
    else
      var (keys, totals) := Tally(cs[..|cs| - 1]);
      var c := cs[|cs| - 1];
      var current := if c.userId in totals then totals[c.userId] else 0;
      (if c.userId in totals then keys else keys + [c.userId], totals[c.userId := current + c.amount])
  }

  /** `keys` and `totals` are the grouping of `cs`: its contributors in order of first
      commitment, and each one's sum. */
  ghost predicate Grouped(cs: seq<Commitment>, keys: seq<Id>, totals: map<Id, int>)
  {
    && keys == Contributors(cs)
    && (forall k :: k in totals <==> k in keys)
    && (forall k :: k in totals ==> totals[k] == CommittedBy(cs, k))
  }

  /** The map holds exactly the grouping: contributors in order of first commitment,
      each with the sum of their amounts. */
  lemma {:induction false} TallyIsGrouped(cs: seq<Commitment>)
    ensures Grouped(cs, Tally(cs).0, Tally(cs).1)
  {
    if cs != [] {
      var prefix := cs[..|cs| - 1];
      TallyIsGrouped(prefix);
      var c := cs[|cs| - 1];
      if c.userId !in Tally(prefix).1 {
        NotCommittedSumsToZero(prefix, c.userId);
      }
    }
  }

  /** The rows built from the finished keys and sums meet the grouping's contract. */
  lemma RowsFromTotals(cs: seq<Commitment>, keys: seq<Id>, totals: map<Id, int>, rows: seq<ContributorTotal>)
    requires Grouped(cs, keys, totals)
    requires |rows| == |keys|
    requires forall j :: 0 <= j < |keys| ==>
               rows[j] == ContributorTotal(keys[j], UsernameOf(cs, keys[j]), totals[keys[j]])
    ensures forall j :: 0 <= j < |rows| ==> rows[j].amount == CommittedBy(cs, rows[j].userId)
    ensures TotalCommitted(rows) == TotalAmount(cs)
  {
    forall j | 0 <= j < |rows| ensures rows[j].amount == CommittedBy(cs, rows[j].userId) {
      assert keys[j] in keys;
    }
    RowsSum(rows, cs, keys);
    GroupingKeepsTotal(cs);
  }

  /** `totalCommitted`: the rows' amounts added up. */
  function TotalCommitted(rows: seq<ContributorTotal>): int
  {
    if rows == [] then 0 else TotalCommitted(rows[..|rows| - 1]) + rows[|rows| - 1].amount
  }

  /** Sum of `CommittedBy(cs, u)` over the users `us`. */
  function SumCommitted(cs: seq<Commitment>, us: seq<Id>): int
  {
    if us == [] then 0 else SumCommitted(cs, us[..|us| - 1]) + CommittedBy(cs, us[|us| - 1])
  }

  lemma {:induction false} NotCommittedSumsToZero(cs: seq<Commitment>, userId: Id)
    requires !HasCommitted(cs, userId)
    ensures CommittedBy(cs, userId) == 0
  {
    if cs != [] {
      var prefix := cs[..|cs| - 1];
      forall i | 0 <= i < |prefix| ensures prefix[i].userId != userId {
        assert prefix[i] == cs[i];
      }
      NotCommittedSumsToZero(prefix, userId);
      assert cs[|cs| - 1].userId != userId;
    }
  }

  lemma {:induction false} RowsSum(rows: seq<ContributorTotal>, cs: seq<Commitment>, us: seq<Id>)
    requires |rows| == |us|
    requires forall j :: 0 <= j < |rows| ==> rows[j].amount == CommittedBy(cs, us[j])
    ensures TotalCommitted(rows) == SumCommitted(cs, us)
  {
    if rows != [] {
      RowsSum(rows[..|rows| - 1], cs, us[..|us| - 1]);
    }
  }

  /** A new commitment adds its amount to the sum over a duplicate-free user list exactly
      when its author is listed. */
  lemma {:induction false} SumCommittedAppend(cs: seq<Commitment>, c: Commitment, us: seq<Id>)
    requires NoDup(us)
    ensures SumCommitted(cs + [c], us) == SumCommitted(cs, us) + (if c.userId in us then c.amount else 0)
  {
    if us != [] {
      var init := us[..|us| - 1];
      assert NoDup(init);
      SumCommittedAppend(cs, c, init);
      assert (cs + [c])[..|cs + [c]| - 1] == cs;
      assert c.userId in us <==> c.userId in init || c.userId == us[|us| - 1];
      assert us[|us| - 1] !in init;
    }
  }

  /** Grouping loses no money: the per-contributor sums add up to the sum of all
      commitments. */
  lemma {:induction false} GroupingKeepsTotal(cs: seq<Commitment>)
    ensures SumCommitted(cs, Contributors(cs)) == TotalAmount(cs)
  {
    if cs != [] {
      var prefix := cs[..|cs| - 1];
      var c := cs[|cs| - 1];
      assert cs == prefix + [c];
      var prev := Contributors(prefix);
      GroupingKeepsTotal(prefix);
      SumCommittedAppend(prefix, c, prev);
      if c.userId !in prev {
        var us := prev + [c.userId];
        assert us[..|us| - 1] == prev;
        NotCommittedSumsToZero(prefix, c.userId);
      }
    }
  }

  /** The grouping lists users in order of their first commitment. */
  predicate InFirstOrder(cs: seq<Commitment>)
  {
    var r := Contributors(cs);
    forall a, b :: 0 <= a < b < |r| ==> FirstCommitment(cs, r[a]) < FirstCommitment(cs, r[b])
  }

  /** Every grouping is in order of first commitment. */
  lemma {:induction false} ContributorsInFirstOrder(cs: seq<Commitment>)
    ensures InFirstOrder(cs)
  {
    if cs != [] {
      var prefix := cs[..|cs| - 1];
      assert cs == prefix + [cs[|cs| - 1]];
      ContributorsInFirstOrder(prefix);
      FirstOrderStep(prefix, cs[|cs| - 1]);
    }
  }

  /** One more commitment keeps the grouping in order of first commitment. */
  lemma FirstOrderStep(prefix: seq<Commitment>, c: Commitment)
    requires InFirstOrder(prefix)
    ensures InFirstOrder(prefix + [c])
  {
    var cs := prefix + [c];
    assert cs[..|cs| - 1] == prefix;
    var prev := Contributors(prefix);
    forall u | u in prev ensures FirstCommitment(cs, u) == FirstCommitment(prefix, u) {
      FirstCommitmentExtends(prefix, c, u);
    }
    if c.userId !in prev {
      FirstCommitmentExtends(prefix, c, c.userId);
      var r := prev + [c.userId];
      forall a, b | 0 <= a < b < |r| ensures FirstCommitment(cs, r[a]) < FirstCommitment(cs, r[b]) {
        assert r[a] == prev[a] && prev[a] in prev;
        if b < |prev| {
          assert r[b] == prev[b] && prev[b] in prev;
        }
      }
    }
  }

  lemma {:induction false} FirstCommitmentExtends(cs: seq<Commitment>, c: Commitment, u: Id)
    ensures HasCommitted(cs, u) ==> FirstCommitment(cs + [c], u) == FirstCommitment(cs, u) < |cs|
    ensures !HasCommitted(cs, u) && c.userId == u ==> FirstCommitment(cs + [c], u) == |cs|
  {
    if cs != [] {
      assert (cs + [c])[1..] == cs[1..] + [c];
      FirstCommitmentExtends(cs[1..], c, u);
      if cs[0].userId != u {
        assert HasCommitted(cs, u) ==> HasCommitted(cs[1..], u) by {
          if HasCommitted(cs, u) {
            var i :| 0 <= i < |cs| && cs[i].userId == u;
            assert cs[1..][i - 1] == cs[i];
          }
        }
        assert HasCommitted(cs[1..], u) ==> HasCommitted(cs, u) by {
          if HasCommitted(cs[1..], u) {
            var i :| 0 <= i < |cs[1..]| && cs[1..][i].userId == u;
            assert cs[i + 1] == cs[1..][i];
          }
        }
      } else {
        assert cs[0].userId == u;
      }
    } else {
      assert [c][0] == c;
    }
  }

  /** `Math.max(goal - total, 0)` with a missing goal counting as 0. */
  function Remaining(goal: Option<int>, total: int): (r: int)
    ensures r >= 0 && r >= goal.GetOr(0) - total
    ensures r == 0 || r == goal.GetOr(0) - total
  {
    var goalAmount := goal.GetOr(0);
    if goalAmount - total > 0 then goalAmount - total else 0
  }

  /** `goal > 0 ? total / goal * 100 : 0`, computed exactly. */
  function Progress(goal: Option<int>, total: int): (r: real)
    ensures goal.GetOr(0) <= 0 ==> r == 0.0
    ensures goal.GetOr(0) > 0 ==> r * (goal.GetOr(0) as real) == (total as real) * 100.0
  {
    var goalAmount := goal.GetOr(0);
    if goalAmount > 0 then (total as real) / (goalAmount as real) * 100.0 else 0.0
  }

  /** With a positive goal, nothing remains exactly when progress has reached 100. */
  lemma ReachedGoal(goal: Option<int>, total: int)
    requires goal.GetOr(0) > 0
    ensures Remaining(goal, total) == 0 <==> Progress(goal, total) >= 100.0
  {
    var g := goal.GetOr(0) as real;
    var p := Progress(goal, total);
    assert p * g == (total as real) * 100.0;
    if p >= 100.0 {
      assert p * g >= 100.0 * g;
    } else {
      assert p * g < 100.0 * g;
    }
  }

  /** What `handleCommitment`'s checks decide. */
  datatype CommitmentCheck = NoUser | BadAmount | Accepted(commitments: seq<Commitment>)

  /** The commitments to save: none without a signed-in user or with an amount that is
      not a positive number; otherwise the existing ones with one more, by the user. */
  function CommitmentList(existing: seq<Commitment>, user: Option<User>, amount: Option<int>, now: int): (r: CommitmentCheck)
    ensures r.NoUser? <==> user.None?
    ensures r.BadAmount? <==> user.Some? && (amount.None? || amount.value <= 0)
    ensures r.Accepted? ==> |r.commitments| == |existing| + 1 && r.commitments[..|existing|] == existing
    ensures r.Accepted? ==>
              r.commitments[|existing|] == Commitment(user.value.id, Some(user.value.username), amount.value, now)
    ensures r.Accepted? ==> TotalAmount(r.commitments) == TotalAmount(existing) + amount.value
    ensures r.Accepted? ==> CommittedBy(r.commitments, user.value.id) == CommittedBy(existing, user.value.id) + amount.value
    ensures r.Accepted? ==> forall u :: u != user.value.id ==> CommittedBy(r.commitments, u) == CommittedBy(existing, u)
  {
    if user.None? then NoUser
    else if amount.None? || amount.value <= 0 then BadAmount
    else
      var c := Commitment(user.value.id, Some(user.value.username), amount.value, now);
      assert (existing + [c])[..|existing|] == existing;
      Accepted(existing + [c])
  }

  /** How a handler ends. */
  datatype HandlerResult = NotSignedIn | NotAllowed | InvalidAmount | Saved | SaveFailed

  /** Once the edited project is written, `updateProject` with the panel's own copy
      overwrites every project with that id, so the copy is what the store ends with. */
  lemma {:induction false} ReplaceAfterEdit(projects: seq<Project>, i: nat, edited: Project, copy: Project)
    requires i < |projects| && projects[i].id == copy.id && edited.id == copy.id
    ensures ReplaceProject(projects[i := edited], copy) == ReplaceProject(projects, copy)
  {
    var a := ReplaceProject(projects[i := edited], copy);
    var b := ReplaceProject(projects, copy);
    assert forall j :: 0 <= j < |a| ==> a[j] == b[j];
  }

  /** `handleCommitment`: validate, then `editProject` with the new list and, when that
      succeeds, `updateProject` with the panel's copy of the project carrying it. */
  method HandleCommitment(store: DataProvider, project: Project, user: Option<User>, amount: Option<int>, now: int)
    returns (r: HandlerResult)
    modifies store`projects, store`userProjects
    ensures r.NotSignedIn? <==> user.None?
    ensures r.InvalidAmount? <==> user.Some? && (amount.None? || amount.value <= 0)
    ensures r.NotSignedIn? || r.InvalidAmount? || r.SaveFailed? ==>
              store.projects == old(store.projects) && store.userProjects == old(store.userProjects)
    ensures r.SaveFailed? <==> CommitmentList(project.commitments, user, amount, now).Accepted?
                               && forall p :: p in old(store.projects) ==> p.id != project.id
    ensures r.Saved? ==> store.projects == ReplaceProject(old(store.projects),
              project.(commitments := CommitmentList(project.commitments, user, amount, now).commitments))
    ensures r.Saved? ==> store.userProjects == RecordEditedProject(old(store.userProjects), store.currentUser,
              FindProject(old(store.projects), project.id).value.creatorId, project.id)
    ensures !r.NotAllowed?
  {
    var check := CommitmentList(project.commitments, user, amount, now);
    if check.NoUser? {
      return NotSignedIn;
    }
    if check.BadAmount? {
      return InvalidAmount;
    }
    var copy := project.(commitments := check.commitments);
    var patch := ProjectPatch(None, None, None, None, None, None, None, None, None, None, None, None, None,
                              Some(check.commitments));
    ghost var before := store.projects;
    var edited := store.EditProject(project.id, patch);
    if edited.Fail? {
      return SaveFailed;
    }
    ghost var i :| 0 <= i < |before| && before[i].id == project.id
                   && (forall j :: 0 <= j < i ==> before[j].id != project.id)
                   && edited.value == EditedProject(before[i], patch)
                   && store.projects == before[i := edited.value];
    FirstMatchIsFound(before, project.id, i);
    store.UpdateProject(copy);
    ReplaceAfterEdit(before, i, edited.value, copy);
    r := Saved;
  }

  lemma {:induction false} FirstMatchIsFound(projects: seq<Project>, id: Id, i: nat)
    requires i < |projects| && projects[i].id == id
    requires forall j :: 0 <= j < i ==> projects[j].id != id
    ensures FindProject(projects, id) == Some(projects[i])
  {
    var found := FindIndex(projects, ProjectIdIs(id));
    assert ProjectIdIs(id)(projects[i]);
    assert found.Some?;
    assert ProjectIdIs(id)(projects[found.value]);
    assert found.value == i;
  }

  /** `Number.parseFloat(input) || 0`: an unparseable goal is 0. */
  function GoalFromInput(parsed: Option<int>): (goal: int)
    ensures parsed.None? ==> goal == 0
    ensures parsed.Some? ==> goal == parsed.value
  {
    parsed.GetOr(0)
  }

  /** `handleSaveFundraisingGoal`: only the creator may save. The goal is written with
      `editProject` and the panel's copy with `updateProject`; the store's goal map is
      not touched. */
  method HandleSaveFundraisingGoal(store: DataProvider, project: Project, user: Option<User>, parsed: Option<int>)
    returns (r: HandlerResult)
    modifies store`projects, store`userProjects
    ensures r.NotAllowed? <==> !(user.Some? && user.value.id == project.creatorId)
    ensures r.NotAllowed? || r.SaveFailed? ==>
              store.projects == old(store.projects) && store.userProjects == old(store.userProjects)
    ensures r.SaveFailed? <==> user.Some? && user.value.id == project.creatorId
                               && forall p :: p in old(store.projects) ==> p.id != project.id
    ensures r.Saved? ==>
              store.projects == ReplaceProject(old(store.projects), project.(fundraisingGoal := Some(GoalFromInput(parsed))))
    ensures r.Saved? ==> store.userProjects == RecordEditedProject(old(store.userProjects), store.currentUser,
              FindProject(old(store.projects), project.id).value.creatorId, project.id)
    ensures r.NotAllowed? || r.Saved? || r.SaveFailed?
  {
    if !(user.Some? && user.value.id == project.creatorId) {
      return NotAllowed;
    }
    var newGoal := GoalFromInput(parsed);
    var copy := project.(fundraisingGoal := Some(newGoal));
    var patch := ProjectPatch(None, None, None, None, None, None, None, None, None, None, None, None,
                              Some(newGoal), None);
    ghost var before := store.projects;
    var edited := store.EditProject(project.id, patch);
    if edited.Fail? {
      return SaveFailed;
    }
    ghost var i :| 0 <= i < |before| && before[i].id == project.id
                   && (forall j :: 0 <= j < i ==> before[j].id != project.id)
                   && edited.value == EditedProject(before[i], patch)
                   && store.projects == before[i := edited.value];
    FirstMatchIsFound(before, project.id, i);
    store.UpdateProject(copy);
    ReplaceAfterEdit(before, i, edited.value, copy);
    r := Saved;
  }
}
