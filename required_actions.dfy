/**
 * The required-action preserver. Before the host's structural import, every
 * user's required-action list is saved, keyed by the user (its position in
 * the bundle) and emptied, because the host would push each tag through its
 * closed enumeration and refuse custom tags. After the import, the saved
 * tags are added back to the imported users one by one, as raw strings.
 */
module RequiredActions {
  import opened Wrappers
  import opened Keycloak
  import opened Representations
  import Directory

  /** A user after detaching: a present list becomes empty, a null one stays null. */
  function Detached(u: UserRep): UserRep {
    if u.requiredActions.Some? then u.(requiredActions := Some([])) else u
  }

  /** The saved tags, keyed by the position of the user in the bundle. */
  function Saved(users: seq<UserRep>): map<nat, seq<string>> {
    map k | 0 <= k < |users| && users[k].requiredActions.Some? :: users[k].requiredActions.value
  }

  /** The user at position `k` with its saved tags put back. */
  function Restored(u: UserRep, saved: map<nat, seq<string>>, k: nat): UserRep {
    if k in saved then u.(requiredActions := Some(saved[k])) else u
  }

  /**
   * The detach loop: every present list is saved and replaced by an empty
   * one; users whose list is null are neither saved nor changed.
   */
  method DetachActions(users: seq<UserRep>) returns (cleared: seq<UserRep>, saved: map<nat, seq<string>>)
    ensures |cleared| == |users|
    ensures forall k :: 0 <= k < |users| ==> cleared[k] == Detached(users[k])
    ensures saved == Saved(users)
  {
    cleared, saved := [], map[];
    var k := 0;
    while k < |users|
      invariant 0 <= k <= |users|
      invariant |cleared| == k
      invariant forall j :: 0 <= j < k ==> cleared[j] == Detached(users[j])
      invariant saved == map j | 0 <= j < k && users[j].requiredActions.Some? :: users[j].requiredActions.value
    {
      var u := users[k];
      if u.requiredActions.Some? {
        saved := saved[k := u.requiredActions.value];
        u := u.(requiredActions := Some([]));
      }
      cleared := cleared + [u];
      k := k + 1;
    }
  }

  /** Nothing is lost by detaching: restoring the saved tags gives back every user. */
  lemma DetachIsUndone(users: seq<UserRep>, k: nat)
    requires k < |users|
    ensures Restored(Detached(users[k]), Saved(users), k) == users[k]
  {
  }

  /** After detaching, no user carries a tag the host's enumeration could refuse. */
  lemma {:induction false} DetachedAreAccepted(cleared: seq<UserRep>)
    requires forall k :: 0 <= k < |cleared| ==> cleared[k].requiredActions.None? || cleared[k].requiredActions == Some([])
    ensures Directory.UnknownAction(cleared).None?
  {
    if |cleared| > 0 {
      DetachedAreAccepted(cleared[1..]);
    }
  }

  /** The host's `addRequiredAction`: a tag already present is not added twice. */
  function AddRequiredAction(actions: seq<string>, tag: string): seq<string> {
    if tag in actions then actions else actions + [tag]
  }

  /** The actions after adding `tags` one after the other. */
  function AddAll(actions: seq<string>, tags: seq<string>): seq<string>
    decreases |tags|
  {
    if |tags| == 0 then actions else AddAll(AddRequiredAction(actions, tags[0]), tags[1..])
  }

  /** Adding one more tag at the end of the list. */
  lemma {:induction false} AddAllSnoc(actions: seq<string>, tags: seq<string>, tag: string)
    ensures AddAll(actions, tags + [tag]) == AddRequiredAction(AddAll(actions, tags), tag)
    decreases |tags|
  {
    if |tags| > 0 {
      assert (tags + [tag])[1..] == tags[1..] + [tag];
      AddAllSnoc(AddRequiredAction(actions, tags[0]), tags[1..], tag);
    }
  }

  /** Tags are added verbatim: the result holds exactly the old actions and the added tags. */
  lemma {:induction false} AddAllContents(actions: seq<string>, tags: seq<string>)
    ensures forall t :: t in AddAll(actions, tags) <==> t in actions || t in tags
    decreases |tags|
  {
    if |tags| > 0 {
      AddAllContents(AddRequiredAction(actions, tags[0]), tags[1..]);
      assert forall t :: t in tags <==> t == tags[0] || t in tags[1..];
    }
  }

  /** Tags are added in order: distinct new tags are appended exactly as given. */
  lemma {:induction false} AddAllAppends(actions: seq<string>, tags: seq<string>)
    requires forall i, j :: 0 <= i < j < |tags| ==> tags[i] != tags[j]
    requires forall t :: t in tags ==> t !in actions
    ensures AddAll(actions, tags) == actions + tags
    decreases |tags|
  {
    if |tags| > 0 {
      assert tags[0] !in actions;
      AddAllAppends(actions + [tags[0]], tags[1..]);
      assert actions + [tags[0]] + tags[1..] == actions + tags;
    }
  }

  /**
   * One entry of the reattach loop: the user found by the pre-import id of
   * user `k` gets the saved tags; a null id or a missing user is the
   * NullPointerException of `getUserById(...).addRequiredAction`.
   */
  function ReattachOne(m: map<string, Directory.User>, reps: seq<UserRep>, saved: map<nat, seq<string>>, k: nat)
    : Result<map<string, Directory.User>, Error>
    requires k < |reps|
  {
    if k !in saved then Success(m)
    else if reps[k].id.None? || reps[k].id.value !in m then Failure(NullReference)
    else
      var id := reps[k].id.value;
      Success(m[id := m[id].(requiredActions := AddAll(m[id].requiredActions, saved[k]))])
  }

  /** The users after the reattach loop has handled the first `n` users of the bundle. */
  function Reattached(m: map<string, Directory.User>, reps: seq<UserRep>, saved: map<nat, seq<string>>, n: nat)
    : Result<map<string, Directory.User>, Error>
    requires n <= |reps|
  {
    if n == 0 then Success(m)
    else
      match Reattached(m, reps, saved, n - 1)
      case Failure(e) => Failure(e)
      case Success(m') => ReattachOne(m', reps, saved, n - 1)
  }

  /**
   * The reattach loop over the imported users (`users`, keyed by id): for
   * every saved entry, each tag is added to the user with the pre-import id.
   */
  method Reattach(users: map<string, Directory.User>, reps: seq<UserRep>, saved: map<nat, seq<string>>)
    returns (r: Result<map<string, Directory.User>, Error>)
    ensures r == Reattached(users, reps, saved, |reps|)
  {
    var m := users;
    var k := 0;
    while k < |reps|
      invariant 0 <= k <= |reps|
      invariant Reattached(users, reps, saved, k) == Success(m)
    {
      if k in saved {
        if reps[k].id.None? || reps[k].id.value !in m {
          r := Failure(NullReference);
          assert Reattached(users, reps, saved, k + 1) == r;
          FailureSticks(users, reps, saved, k + 1, |reps|);
          return;
        }
        var id := reps[k].id.value;
        var tags := saved[k];
        var j := 0;
        while j < |tags|
          invariant 0 <= j <= |tags|
          invariant id in m
          invariant m == Reattached(users, reps, saved, k).value[id :=
                      Reattached(users, reps, saved, k).value[id].(requiredActions :=
                        AddAll(Reattached(users, reps, saved, k).value[id].requiredActions, tags[..j]))]
        {
          AddAllSnoc(Reattached(users, reps, saved, k).value[id].requiredActions, tags[..j], tags[j]);
          assert tags[..j + 1] == tags[..j] + [tags[j]];
          m := m[id := m[id].(requiredActions := AddRequiredAction(m[id].requiredActions, tags[j]))];
          j := j + 1;
        }
        assert tags[..j] == tags;
      }
      k := k + 1;
    }
    r := Success(m);
  }

  /** Once an entry fails, the loop's result stays that failure. */
  lemma {:induction false} FailureSticks(m: map<string, Directory.User>, reps: seq<UserRep>, saved: map<nat, seq<string>>, n: nat, n': nat)
    requires n <= n' <= |reps|
    requires Reattached(m, reps, saved, n).Failure?
    ensures Reattached(m, reps, saved, n') == Reattached(m, reps, saved, n)
    decreases n' - n
  {
    if n < n' {
      FailureSticks(m, reps, saved, n, n' - 1);
    }
  }

  /** Whether some user among the first `n` with saved tags has pre-import id `id`. */
  predicate Targeted(reps: seq<UserRep>, saved: map<nat, seq<string>>, n: nat, id: string)
    requires n <= |reps|
  {
    exists k :: 0 <= k < n && k in saved && reps[k].id == Some(id)
  }

  /** One entry of the reattach loop changes at most the user with that entry's id. */
  lemma ReattachOneEffect(m: map<string, Directory.User>, reps: seq<UserRep>, saved: map<nat, seq<string>>, k: nat)
    requires k < |reps|
    requires k in saved ==> reps[k].id.Some? && reps[k].id.value in m
    ensures ReattachOne(m, reps, saved, k).Success?
    ensures var r := ReattachOne(m, reps, saved, k).value;
      && r.Keys == m.Keys
      && (forall id :: id in m && (k !in saved || id != reps[k].id.value) ==> r[id] == m[id])
      && (k in saved ==>
            r[reps[k].id.value] == m[reps[k].id.value].(requiredActions := AddAll(m[reps[k].id.value].requiredActions, saved[k])))
  {
  }

  /**
   * When the users of the bundle have distinct ids and every user with saved
   * tags was imported under its id, the reattach loop succeeds: each such
   * user gets its own tags added, and every other imported user is left as
   * it was.
   */
  lemma {:induction false} ReattachRestoresTags(m: map<string, Directory.User>, reps: seq<UserRep>, saved: map<nat, seq<string>>, n: nat)
    requires n <= |reps|
    requires Directory.DistinctUserIds(reps)
    requires forall k :: 0 <= k < |reps| && k in saved ==> reps[k].id.Some? && reps[k].id.value in m
    ensures Reattached(m, reps, saved, n).Success?
    ensures Reattached(m, reps, saved, n).value.Keys == m.Keys
    ensures forall k :: 0 <= k < n && k in saved ==>
              Reattached(m, reps, saved, n).value[reps[k].id.value] ==
                m[reps[k].id.value].(requiredActions := AddAll(m[reps[k].id.value].requiredActions, saved[k]))
    ensures forall id :: id in m && !Targeted(reps, saved, n, id) ==> Reattached(m, reps, saved, n).value[id] == m[id]
  {
    if n > 0 {
      ReattachRestoresTags(m, reps, saved, n - 1);
      var prev := Reattached(m, reps, saved, n - 1).value;
      var r := Reattached(m, reps, saved, n).value;
      var k := n - 1;
      ReattachOneEffect(prev, reps, saved, k);
      assert r == ReattachOne(prev, reps, saved, k).value;
      if k in saved {
        var id := reps[k].id.value;
        assert !Targeted(reps, saved, n - 1, id);
        assert prev[id] == m[id];
      }
      forall j | 0 <= j < k && j in saved
        ensures r[reps[j].id.value] == prev[reps[j].id.value]
      {
        assert reps[j].id != reps[k].id;
      }
      forall id | id in m && !Targeted(reps, saved, n, id)
        ensures r[id] == m[id]
      {
        assert !Targeted(reps, saved, n - 1, id);
      }
    }
  }
}
