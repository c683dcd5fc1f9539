/**
 * `importRealm` of the keycloak-export variant: a conflict step driven by
 * the import strategy (skip an existing realm, or remove it first), then the
 * required-action preserver around the host's structural import. Credentials
 * are left to the host in this variant.
 */
module ConflictImport {
  import opened Wrappers
  import opened Keycloak
  import opened Representations
  import opened Directory
  import RequiredActions

  /** Every realm of the listing with its management client link cleared. */
  function ClientsCleared(realms: seq<Realm>): (r: seq<Realm>)
    ensures |r| == |realms|
    ensures forall i :: 0 <= i < |r| ==> r[i] == realms[i].(masterAdminClient := None)
  {
    seq(|realms|, i requires 0 <= i < |realms| => realms[i].(masterAdminClient := None))
  }

  /**
   * The listing after the conflict step, or `None` when the import is
   * skipped. An existing realm of that name is skipped under
   * IGNORE_EXISTING and removed under OVERWRITE_EXISTING (after clearing
   * every management client link when it is the administration realm); any
   * other strategy leaves it in place.
   */
  function Prepared(realms: seq<Realm>, rep: RealmRep, strategy: Option<Strategy>, adminRealm: string): (r: Option<seq<Realm>>)
    ensures r.None? <==> IndexOfName(realms, rep.realm).Some? && strategy == Some(IgnoreExisting)
    ensures IndexOfName(realms, rep.realm).None? || strategy.None? ==> r == Some(realms)
    ensures IndexOfName(realms, rep.realm).Some? && strategy == Some(OverwriteExisting) ==>
              var gone := realms[IndexOfName(realms, rep.realm).value];
              && r.Some?
              && !HasId(r.value, gone.id)
              && (gone.id == adminRealm ==> forall x :: x in r.value <==> x in ClientsCleared(realms) && x.id != gone.id)
              && (gone.id == adminRealm ==> forall x :: x in r.value ==> x.masterAdminClient.None?)
              && (gone.id != adminRealm ==> forall x :: x in r.value <==> x in realms && x.id != gone.id)
  {
    match IndexOfName(realms, rep.realm)
    case None => Some(realms)
    case Some(j) =>
      if strategy == Some(IgnoreExisting) then None
      else if strategy == Some(OverwriteExisting) then
        var id := realms[j].id;
        assert realms[j] in realms;
        Some(WithoutId(if adminRealm == id then ClientsCleared(realms) else realms, id))
      else Some(realms)
  }

  /** The users as handed to the host: every present action list emptied. */
  function DetachedUsers(users: seq<UserRep>): (r: seq<UserRep>)
    ensures |r| == |users|
    ensures forall k :: 0 <= k < |r| ==> r[k] == RequiredActions.Detached(users[k])
  {
    seq(|users|, k requires 0 <= k < |users| => RequiredActions.Detached(users[k]))
  }

  /** The bundle as handed to the host. */
  function DetachedBundle(rep: RealmRep): RealmRep {
    if rep.users.Some? then rep.(users := Some(DetachedUsers(rep.users.value))) else rep
  }

  /**
   * What `importRealm` does to the listing: the conflict step, the host's
   * import of the detached bundle, then the saved tags added back to the new
   * realm's users. `Success(None)` is the skipped import (a null result).
   */
  function Outcome(realms: seq<Realm>, rep: RealmRep, strategy: Option<Strategy>, adminRealm: string)
    : Result<Option<seq<Realm>>, Error>
  {
    match Prepared(realms, rep, strategy, adminRealm)
    case None => Success(None)
    case Some(prepared) =>
      match HostImport(prepared, DetachedBundle(rep))
      case Failure(e) => Failure(e)
      case Success(imported) =>
        var users := rep.users.GetOr([]);
        var i := |prepared|;
        match RequiredActions.Reattached(imported[i].users, users, RequiredActions.Saved(users), |users|)
        case Failure(e) => Failure(e)
        case Success(m) => Success(Some(imported[i := imported[i].(users := m)]))
  }

  /**
   * The import is skipped exactly when the name exists under
   * IGNORE_EXISTING, and a performed import ends with the bundle's realm,
   * under its name and id, last in the listing.
   */
  lemma OutcomeSkipsOrAppends(realms: seq<Realm>, rep: RealmRep, strategy: Option<Strategy>, adminRealm: string)
    ensures var r := Outcome(realms, rep, strategy, adminRealm);
      && (r == Success(None) <==> IndexOfName(realms, rep.realm).Some? && strategy == Some(IgnoreExisting))
      && (r.Success? && r.value.Some? ==>
            && |r.value.value| > 0
            && r.value.value[|r.value.value| - 1].name == rep.realm
            && r.value.value[|r.value.value| - 1].id == RealmIdOf(rep))
  {
  }

  /** The loop that clears every realm's management client link before the administration realm is removed. */
  method ClearAdminClients(store: Store)
    modifies store`realms
    ensures store.realms == ClientsCleared(old(store.realms))
  {
    ghost var realms0 := store.realms;
    var i := 0;
    while i < |store.realms|
      invariant |store.realms| == |realms0|
      invariant 0 <= i <= |realms0|
      invariant forall k :: 0 <= k < i ==> store.realms[k] == realms0[k].(masterAdminClient := None)
      invariant forall k :: i <= k < |realms0| ==> store.realms[k] == realms0[k]
    {
      store.SetMasterAdminClient(i, None);
      i := i + 1;
    }
    assert store.realms == ClientsCleared(realms0);
  }

  /**
   * `importRealm(session, keycloak, rep, strategy, skipUserDependent)`: the
   * result is the index of the imported realm, or `None` when the import was
   * skipped. On an error the store is left for the caller's transaction to
   * roll back.
   */
  method ImportRealm(store: Store, rep: RealmRep, strategy: Option<Strategy>, adminRealm: string)
    returns (r: Result<Option<nat>, Error>)
    modifies store`realms
    ensures var o := Outcome(old(store.realms), rep, strategy, adminRealm);
      && (r.Failure? <==> o.Failure?)
      && (r.Failure? ==> r.error == o.error)
      && (r.Success? ==> (r.value.Some? <==> o.value.Some?))
      && (r.Success? && r.value.None? ==> store.realms == old(store.realms))
      && (r.Success? && r.value.Some? ==> store.realms == o.value.value && r.value.value + 1 == |store.realms|)
  {
    var j := IndexOfName(store.realms, rep.realm);
    if j.Some? {
      if strategy == Some(IgnoreExisting) {
        return Success(None);
      } else if strategy == Some(OverwriteExisting) {
        var id := store.realms[j.value].id;
        if adminRealm == id {
          ClearAdminClients(store);
        }
        store.RemoveRealm(id);
      }
    }
    ghost var prepared := store.realms;
    assert Prepared(old(store.realms), rep, strategy, adminRealm) == Some(prepared);
    var users := rep.users.GetOr([]);
    var cleared, saved := RequiredActions.DetachActions(users);
    var bundle := if rep.users.Some? then rep.(users := Some(cleared)) else rep;
    assert cleared == DetachedUsers(users);
    var imported := store.BasicImport(bundle);
    if imported.Failure? {
      return Failure(imported.error);
    }
    var i := imported.value;
    var reattached := RequiredActions.Reattach(store.realms[i].users, users, saved);
    if reattached.Failure? {
      return Failure(reattached.error);
    }
    store.SetUsers(i, reattached.value);
    r := Success(Some(i));
  }

  /** With no strategy (the HTTP endpoint's case) an existing realm name is a duplicate-model error, and nothing is removed. */
  lemma ExistingWithoutStrategyConflicts(realms: seq<Realm>, rep: RealmRep, adminRealm: string)
    requires IndexOfName(realms, rep.realm).Some?
    ensures Prepared(realms, rep, None, adminRealm) == Some(realms)
    ensures Outcome(realms, rep, None, adminRealm) == Failure(ModelDuplicate)
  {
  }

  /** In a store whose names and ids are unique, overwriting frees the name for the import. */
  lemma OverwriteFreesName(realms: seq<Realm>, rep: RealmRep, adminRealm: string)
    requires Unique(realms)
    requires IndexOfName(realms, rep.realm).Some?
    ensures Prepared(realms, rep, Some(OverwriteExisting), adminRealm).Some?
    ensures IndexOfName(Prepared(realms, rep, Some(OverwriteExisting), adminRealm).value, rep.realm).None?
  {
    var j := IndexOfName(realms, rep.realm).value;
    var id := realms[j].id;
    var prepared := Prepared(realms, rep, Some(OverwriteExisting), adminRealm).value;
    var source := if adminRealm == id then ClientsCleared(realms) else realms;
    assert prepared == WithoutId(source, id);
    forall k | 0 <= k < |prepared|
      ensures prepared[k].name != rep.realm
    {
      assert prepared[k] in source && prepared[k].id != id;
      var x :| 0 <= x < |source| && source[x] == prepared[k];
      assert realms[x].name == source[x].name && realms[x].id == source[x].id;
      if x != j {
        assert realms[x].name != realms[j].name by {
          if x < j {
            assert realms[x].name != realms[j].name;
          } else {
            assert realms[j].name != realms[x].name;
          }
        }
      }
    }
  }

  /**
   * The host accepts a detached bundle whose name and id are free and whose
   * users have distinct ids, whatever tags the users carried, and creates
   * every user with an id without tags or credentials.
   */
  lemma DetachedBundleImported(realms: seq<Realm>, rep: RealmRep)
    requires IndexOfName(realms, rep.realm).None? && !HasId(realms, RealmIdOf(rep))
    requires rep.users.Some? && DistinctUserIds(rep.users.value)
    ensures DistinctUserIds(DetachedBundle(rep).users.value)
    ensures HostImport(realms, DetachedBundle(rep)) == Success(realms + [NewRealm(DetachedBundle(rep))])
    ensures forall k :: 0 <= k < |rep.users.value| && rep.users.value[k].id.Some? ==>
              && rep.users.value[k].id.value in NewRealm(DetachedBundle(rep)).users
              && NewRealm(DetachedBundle(rep)).users[rep.users.value[k].id.value] == User(rep.users.value[k].username, [], [])
  {
    DetachedBundleAccepted(realms, rep);
    DetachedUsersBlank(rep);
  }

  /** The host accepts a detached bundle whose name and id are free and whose users have distinct ids. */
  lemma DetachedBundleAccepted(realms: seq<Realm>, rep: RealmRep)
    requires IndexOfName(realms, rep.realm).None? && !HasId(realms, RealmIdOf(rep))
    requires rep.users.Some? && DistinctUserIds(rep.users.value)
    ensures DistinctUserIds(DetachedBundle(rep).users.value)
    ensures HostImport(realms, DetachedBundle(rep)) == Success(realms + [NewRealm(DetachedBundle(rep))])
  {
    var users := rep.users.value;
    var cleared := DetachedUsers(users);
    assert forall k :: 0 <= k < |cleared| ==> cleared[k].id == users[k].id;
    RequiredActions.DetachedAreAccepted(cleared);
  }

  /** The host creates every detached user with an id without tags or credentials. */
  lemma DetachedUsersBlank(rep: RealmRep)
    requires rep.users.Some? && DistinctUserIds(DetachedBundle(rep).users.value)
    ensures forall k :: 0 <= k < |rep.users.value| && rep.users.value[k].id.Some? ==>
              && rep.users.value[k].id.value in NewRealm(DetachedBundle(rep)).users
              && NewRealm(DetachedBundle(rep)).users[rep.users.value[k].id.value] == User(rep.users.value[k].username, [], [])
  {
    var users := rep.users.value;
    var cleared := DetachedUsers(users);
    assert forall k :: 0 <= k < |cleared| ==> cleared[k].id == users[k].id;
  }

  /** The user the host creates for bundle user `u` once its tags are back. */
  function ImportedUser(u: UserRep): Directory.User {
    User(u.username, if u.requiredActions.Some? then RequiredActions.AddAll([], u.requiredActions.value) else [], [])
  }

  /**
   * Adding back the saved tags to users created without tags gives each
   * bundle user with an id exactly its own tags.
   */
  lemma ReattachedUsers(m0: map<string, User>, users: seq<UserRep>)
    requires DistinctUserIds(users)
    requires forall k :: 0 <= k < |users| && users[k].requiredActions.Some? ==> users[k].id.Some?
    requires forall k :: 0 <= k < |users| && users[k].id.Some? ==>
               users[k].id.value in m0 && m0[users[k].id.value] == User(users[k].username, [], [])
    ensures RequiredActions.Reattached(m0, users, RequiredActions.Saved(users), |users|).Success?
    ensures var m := RequiredActions.Reattached(m0, users, RequiredActions.Saved(users), |users|).value;
      forall k :: 0 <= k < |users| && users[k].id.Some? ==> users[k].id.value in m && m[users[k].id.value] == ImportedUser(users[k])
  {
    var saved := RequiredActions.Saved(users);
    RequiredActions.ReattachRestoresTags(m0, users, saved, |users|);
    var m := RequiredActions.Reattached(m0, users, saved, |users|).value;
    forall k | 0 <= k < |users| && users[k].id.Some?
      ensures users[k].id.value in m && m[users[k].id.value] == ImportedUser(users[k])
    {
      var id := users[k].id.value;
      if k !in saved {
        assert !RequiredActions.Targeted(users, saved, |users|, id) by {
          forall k' | 0 <= k' < |users| && users[k'].id == Some(id) ensures k' == k { }
        }
      }
    }
  }

  /** The outcome of importing a bundle whose name and id are free, when the tags go back without error. */
  lemma FreshOutcome(realms: seq<Realm>, rep: RealmRep, strategy: Option<Strategy>, adminRealm: string)
    requires IndexOfName(realms, rep.realm).None? && !HasId(realms, RealmIdOf(rep))
    requires rep.users.Some? && DistinctUserIds(rep.users.value)
    requires RequiredActions.Reattached(NewRealm(DetachedBundle(rep)).users, rep.users.value,
                                        RequiredActions.Saved(rep.users.value), |rep.users.value|).Success?
    ensures Outcome(realms, rep, strategy, adminRealm) ==
              Success(Some(realms + [NewRealm(DetachedBundle(rep)).(users := RequiredActions.Reattached(
                NewRealm(DetachedBundle(rep)).users, rep.users.value, RequiredActions.Saved(rep.users.value), |rep.users.value|).value)]))
  {
    var added := NewRealm(DetachedBundle(rep));
    DetachedBundleImported(realms, rep);
    assert Prepared(realms, rep, strategy, adminRealm) == Some(realms);
    assert (realms + [added])[|realms|] == added;
    var m := RequiredActions.Reattached(added.users, rep.users.value, RequiredActions.Saved(rep.users.value), |rep.users.value|).value;
    assert (realms + [added])[|realms| := added.(users := m)] == realms + [added.(users := m)];
  }

  /**
   * Custom tags survive: when the name and id are free and the users have
   * distinct ids, with an id on every user that carries tags, the import
   * succeeds whatever the tags are, appends the realm, and gives each user
   * its own tags, in order, with repeats dropped.
   */
  lemma TagsSurvive(realms: seq<Realm>, rep: RealmRep, strategy: Option<Strategy>, adminRealm: string)
    requires IndexOfName(realms, rep.realm).None? && !HasId(realms, RealmIdOf(rep))
    requires rep.users.Some? && DistinctUserIds(rep.users.value)
    requires forall k :: 0 <= k < |rep.users.value| && rep.users.value[k].requiredActions.Some? ==> rep.users.value[k].id.Some?
    ensures var o := Outcome(realms, rep, strategy, adminRealm);
      && o.Success? && o.value.Some?
      && |o.value.value| == |realms| + 1
      && o.value.value[..|realms|] == realms
      && o.value.value[|realms|].name == rep.realm
      && o.value.value[|realms|].id == RealmIdOf(rep)
      && forall k :: 0 <= k < |rep.users.value| && rep.users.value[k].id.Some? ==>
           && rep.users.value[k].id.value in o.value.value[|realms|].users
           && o.value.value[|realms|].users[rep.users.value[k].id.value] == ImportedUser(rep.users.value[k])
  {
    var added := NewRealm(DetachedBundle(rep));
    DetachedBundleImported(realms, rep);
    ReattachedUsers(added.users, rep.users.value);
    FreshOutcome(realms, rep, strategy, adminRealm);
    var m := RequiredActions.Reattached(added.users, rep.users.value, RequiredActions.Saved(rep.users.value), |rep.users.value|).value;
    assert (realms + [added.(users := m)])[..|realms|] == realms;
  }
}
