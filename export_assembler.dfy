/**
 * The export side: the structural export of a realm comes from the host,
 * and `setCorrectCredentials` then rewrites each exported user's credential
 * list from the store, ids included. Two variants: the legacy one (legacy
 * credential fields, Base64 salt) and the current one (opaque credential and
 * secret data).
 */
module ExportAssembler {
  import opened Wrappers
  import opened Keycloak
  import opened Representations
  import CredentialCodec

  /** A user of the host's listing (`getUsers`), with its stored credentials in storage order. */
  datatype Listed<C> = Listed(id: string, credentials: seq<C>)

  /** The listing's user ids are distinct, as the store keeps them. */
  predicate DistinctListed<C>(listed: seq<Listed<C>>) {
    forall i, j :: 0 <= i < j < |listed| ==> listed[i].id != listed[j].id
  }

  /** The last exported position holding `id`: a later `put` of the same key replaces an earlier one. */
  function LastWithId(ids: seq<Option<string>>, id: Option<string>): (r: Option<nat>)
    ensures r.Some? ==> r.value < |ids| && ids[r.value] == id
    ensures r.Some? ==> forall k :: r.value < k < |ids| ==> ids[k] != id
    ensures r.None? ==> forall k :: 0 <= k < |ids| ==> ids[k] != id
  {
    if |ids| == 0 then None
    else if ids[|ids| - 1] == id then Some(|ids| - 1)
    else LastWithId(ids[..|ids| - 1], id)
  }

  /** The lookup table after putting the first `n` exported users under their ids. */
  function Table(ids: seq<Option<string>>, n: nat): map<Option<string>, nat>
    requires n <= |ids|
  {
    if n == 0 then map[] else Table(ids, n - 1)[ids[n - 1] := n - 1]
  }

  /** The table finds, for every id, the last exported user holding it. */
  lemma {:induction false} TableIsLastWins(ids: seq<Option<string>>, n: nat)
    requires n <= |ids|
    ensures forall id :: id in Table(ids, n) <==> LastWithId(ids[..n], id).Some?
    ensures forall id :: id in Table(ids, n) ==> Table(ids, n)[id] == LastWithId(ids[..n], id).value
  {
    if n > 0 {
      TableIsLastWins(ids, n - 1);
      assert ids[..n][..n - 1] == ids[..n - 1];
    }
  }

  /**
   * The credential lists written so far, by exported position, once the
   * first `n` listed users were handled: each listed user's stored list goes
   * to the last exported user with its id, if any.
   */
  function Written<C>(ids: seq<Option<string>>, listed: seq<Listed<C>>, n: nat): map<nat, seq<C>>
    requires n <= |listed|
  {
    if n == 0 then map[]
    else
      var prev := Written(ids, listed, n - 1);
      match LastWithId(ids, Some(listed[n - 1].id))
      case None => prev
      case Some(k) => prev[k := listed[n - 1].credentials]
  }

  /**
   * Only the last exported user holding a listed id is written; with
   * distinct listed ids it gets exactly that listed user's credentials.
   */
  lemma {:induction false} WrittenTargets<C>(ids: seq<Option<string>>, listed: seq<Listed<C>>, n: nat)
    requires n <= |listed|
    requires DistinctListed(listed)
    ensures forall k :: k in Written(ids, listed, n) ==>
              exists j :: 0 <= j < n && LastWithId(ids, Some(listed[j].id)) == Some(k)
    ensures forall j :: 0 <= j < n && LastWithId(ids, Some(listed[j].id)).Some? ==>
              && LastWithId(ids, Some(listed[j].id)).value in Written(ids, listed, n)
              && Written(ids, listed, n)[LastWithId(ids, Some(listed[j].id)).value] == listed[j].credentials
  {
    if n > 0 {
      WrittenTargets(ids, listed, n - 1);
      var target := LastWithId(ids, Some(listed[n - 1].id));
      forall j | 0 <= j < n - 1 && LastWithId(ids, Some(listed[j].id)).Some?
        ensures target != LastWithId(ids, Some(listed[j].id))
      {
        assert listed[j].id != listed[n - 1].id;
      }
    }
  }

  // ---------------------------------------------------------------------------
  // Legacy variant

  /** The ids of the exported users, in order. */
  function IdsOf(users: seq<UserRep>): (r: seq<Option<string>>)
    ensures |r| == |users| && forall k :: 0 <= k < |users| ==> r[k] == users[k].id
  {
    seq(|users|, k requires 0 <= k < |users| => users[k].id)
  }

  /** The exported form of a stored credential list, one entry per credential, in order. */
  function ExportAll(cs: seq<CredentialCodec.StorageCredential>): (r: seq<WireCredential>)
    ensures |r| == |cs|
  {
    seq(|cs|, j requires 0 <= j < |cs| => CredentialCodec.ExportCredential(cs[j]))
  }

  /** Every exported credential list imports back, by the pre-hashed path, to the stored list (config aside). */
  lemma ExportAllImports(cs: seq<CredentialCodec.StorageCredential>)
    ensures forall j :: 0 <= j < |cs| ==>
              CredentialCodec.DecodeHashed(ExportAll(cs)[j]) ==
                Success(cs[j].(config := None, algorithm := CredentialCodec.ResolveAlgorithm(cs[j].credType, cs[j].algorithm)))
  {
    forall j | 0 <= j < |cs|
      ensures CredentialCodec.DecodeHashed(ExportAll(cs)[j]) ==
                Success(cs[j].(config := None, algorithm := CredentialCodec.ResolveAlgorithm(cs[j].credType, cs[j].algorithm)))
    {
      CredentialCodec.ExportThenImport(cs[j]);
    }
  }

  /** The exported users with the written credential lists in place. */
  function CorrectedUsers(users: seq<UserRep>, written: map<nat, seq<CredentialCodec.StorageCredential>>): seq<UserRep> {
    seq(|users|, k requires 0 <= k < |users| =>
      if k in written then users[k].(credentials := Some(ExportAll(written[k]))) else users[k])
  }

  /**
   * After the legacy `setCorrectCredentials`, every field but the credentials
   * is as exported; the last exported user holding a listed id carries
   * exactly that user's stored credentials, in order; every other exported
   * user is unchanged.
   */
  lemma CorrectedCredentials(users: seq<UserRep>, listed: seq<Listed<CredentialCodec.StorageCredential>>)
    requires DistinctListed(listed)
    ensures var r := CorrectedUsers(users, Written(IdsOf(users), listed, |listed|));
      && |r| == |users|
      && (forall k :: 0 <= k < |r| ==> r[k] == users[k].(credentials := r[k].credentials))
      && (forall j :: 0 <= j < |listed| && LastWithId(IdsOf(users), Some(listed[j].id)).Some? ==>
            r[LastWithId(IdsOf(users), Some(listed[j].id)).value].credentials == Some(ExportAll(listed[j].credentials)))
      && (forall k :: 0 <= k < |r| && (forall j :: 0 <= j < |listed| ==> LastWithId(IdsOf(users), Some(listed[j].id)) != Some(k)) ==>
            r[k] == users[k])
  {
    WrittenTargets(IdsOf(users), listed, |listed|);
  }

  /** Handling one more listed user writes its exported credentials to the last exported user with its id, if any. */
  lemma CorrectedStep(users0: seq<UserRep>, listed: seq<Listed<CredentialCodec.StorageCredential>>, n: nat)
    requires n < |listed|
    ensures var ids := IdsOf(users0);
      var prev := CorrectedUsers(users0, Written(ids, listed, n));
      var next := CorrectedUsers(users0, Written(ids, listed, n + 1));
      match LastWithId(ids, Some(listed[n].id))
      case None => next == prev
      case Some(t) => t < |prev| && next == prev[t := prev[t].(credentials := Some(ExportAll(listed[n].credentials)))]
  {
  }

  /** The exported form of a stored credential list, built one credential at a time. */
  method ExportStored(stored: seq<CredentialCodec.StorageCredential>) returns (credReps: seq<WireCredential>)
    ensures credReps == ExportAll(stored)
  {
    credReps := [];
    var j := 0;
    while j < |stored|
      invariant 0 <= j <= |stored|
      invariant credReps == ExportAll(stored[..j])
    {
      assert ExportAll(stored[..j + 1]) == ExportAll(stored[..j]) + [CredentialCodec.ExportCredential(stored[j])];
      credReps := credReps + [CredentialCodec.ExportCredential(stored[j])];
      j := j + 1;
    }
    assert stored[..j] == stored;
  }

  /** The legacy `setCorrectCredentials`, updating the exported users in place. */
  method SetCorrectCredentials(users: array<UserRep>, listed: seq<Listed<CredentialCodec.StorageCredential>>)
    modifies users
    ensures users[..] == CorrectedUsers(old(users[..]), Written(IdsOf(old(users[..])), listed, |listed|))
  {
    ghost var users0 := users[..];
    ghost var ids := IdsOf(users0);
    var userRepMap: map<Option<string>, nat> := map[];
    var k := 0;
    while k < users.Length
      invariant 0 <= k <= users.Length
      invariant userRepMap == Table(ids, k)
    {
      userRepMap := userRepMap[users[k].id := k];
      k := k + 1;
    }
    TableIsLastWins(ids, |ids|);
    assert ids[..|ids|] == ids;
    var n := 0;
    while n < |listed|
      invariant 0 <= n <= |listed|
      invariant users[..] == CorrectedUsers(users0, Written(ids, listed, n))
    {
      var credReps := ExportStored(listed[n].credentials);
      CorrectedStep(users0, listed, n);
      if Some(listed[n].id) in userRepMap {
        var target := userRepMap[Some(listed[n].id)];
        users[target] := users[target].(credentials := Some(credReps));
      }
      n := n + 1;
    }
  }

  /** The realm the legacy export returns: the host's export with its users corrected, when it has users. */
  function CorrectedRealm(exported: RealmRep, listed: seq<Listed<CredentialCodec.StorageCredential>>): RealmRep {
    if exported.users.None? then exported
    else exported.(users := Some(CorrectedUsers(exported.users.value,
                                                Written(IdsOf(exported.users.value), listed, |listed|))))
  }

  /**
   * The legacy `exportRealm` after authentication: the export gate, then the
   * host's structural export (`exported`) with corrected credentials.
   */
  method ExportRealm(auth: AdminAuth, adminRealm: string, exported: RealmRep,
                     listed: seq<Listed<CredentialCodec.StorageCredential>>) returns (r: Result<RealmRep, Error>)
    ensures r.Success? <==> ExportAllowed(auth, adminRealm)
    ensures r.Failure? ==> r.error == Forbidden
    ensures r.Success? ==> r.value == CorrectedRealm(exported, listed)
  {
    if !ExportAllowed(auth, adminRealm) {
      return Failure(Forbidden);
    }
    if exported.users.None? {
      return Success(exported);
    }
    var us := exported.users.value;
    var arr := new UserRep[|us|](i requires 0 <= i < |us| => us[i]);
    assert arr[..] == us;
    SetCorrectCredentials(arr, listed);
    r := Success(exported.(users := Some(arr[..])));
  }

  // ---------------------------------------------------------------------------
  // Current variant

  /** A stored credential of the current host API. */
  datatype CredentialModel = CredentialModel(
    id: Option<string>, credType: Option<string>, createdDate: Option<int>,
    credentialData: Option<string>, secretData: Option<string>, userLabel: Option<string>)

  /** Its exported form. */
  datatype CredentialRep = CredentialRep(
    id: Option<string>, credType: Option<string>, createdDate: Option<int>,
    credentialData: Option<string>, secretData: Option<string>, userLabel: Option<string>)

  /** An exported user of the current variant. */
  datatype ExportedUser = ExportedUser(id: Option<string>, username: string, credentials: Option<seq<CredentialRep>>)

  /** An exported realm of the current variant. */
  datatype ExportedRealm = ExportedRealm(realm: string, users: Option<seq<ExportedUser>>)

  /** `exportCredential` of the current variant: a field-by-field copy. */
  function ExportCurrent(c: CredentialModel): CredentialRep {
    CredentialRep(c.id, c.credType, c.createdDate, c.credentialData, c.secretData, c.userLabel)
  }

  /** The current `exportCredential` drops nothing, the id included: it is injective and keeps every field. */
  lemma ExportCurrentKeepsAll(a: CredentialModel, b: CredentialModel)
    ensures ExportCurrent(a) == ExportCurrent(b) <==> a == b
    ensures ExportCurrent(a).id == a.id && ExportCurrent(a).secretData == a.secretData
  {
  }

  function ExportCurrentAll(cs: seq<CredentialModel>): (r: seq<CredentialRep>)
    ensures |r| == |cs|
  {
    seq(|cs|, j requires 0 <= j < |cs| => ExportCurrent(cs[j]))
  }

  function CurrentIdsOf(users: seq<ExportedUser>): (r: seq<Option<string>>)
    ensures |r| == |users| && forall k :: 0 <= k < |users| ==> r[k] == users[k].id
  {
    seq(|users|, k requires 0 <= k < |users| => users[k].id)
  }

  /** No two exported users share an id (two null ids count as the same key). */
  predicate DistinctIds(ids: seq<Option<string>>) {
    forall i, j :: 0 <= i < j < |ids| ==> ids[i] != ids[j]
  }

  /**
   * `users.stream().collect(Collectors.toMap(UserRepresentation::getId, u -> u))`:
   * the table of exported users by id, or the duplicate-key error.
   */
  method CollectById(users: array<ExportedUser>) returns (r: Result<map<Option<string>, nat>, Error>)
    ensures r.Failure? <==> !DistinctIds(CurrentIdsOf(users[..]))
    ensures r.Failure? ==> r.error == DuplicateKey
    ensures r.Success? ==> r.value == Table(CurrentIdsOf(users[..]), users.Length)
  {
    ghost var ids := CurrentIdsOf(users[..]);
    var m: map<Option<string>, nat> := map[];
    var k := 0;
    while k < users.Length
      invariant 0 <= k <= users.Length
      invariant DistinctIds(ids[..k])
      invariant m == Table(ids, k)
      invariant forall id :: id in m <==> id in ids[..k]
    {
      if users[k].id in m {
        assert !DistinctIds(ids) by {
          var i :| 0 <= i < k && ids[i] == ids[k];
        }
        return Failure(DuplicateKey);
      }
      assert ids[..k + 1] == ids[..k] + [ids[k]];
      m := m[users[k].id := k];
      k := k + 1;
    }
    assert ids[..k] == ids;
    r := Success(m);
  }

  /** The exported users with the written credential lists in place. */
  function CorrectedCurrentUsers(users: seq<ExportedUser>, written: map<nat, seq<CredentialModel>>): seq<ExportedUser> {
    seq(|users|, k requires 0 <= k < |users| =>
      if k in written then users[k].(credentials := Some(ExportCurrentAll(written[k]))) else users[k])
  }

  /** Handling one more listed user writes its exported credentials to the last exported user with its id, if any. */
  lemma CorrectedCurrentStep(users0: seq<ExportedUser>, listed: seq<Listed<CredentialModel>>, n: nat)
    requires n < |listed|
    ensures var ids := CurrentIdsOf(users0);
      var prev := CorrectedCurrentUsers(users0, Written(ids, listed, n));
      var next := CorrectedCurrentUsers(users0, Written(ids, listed, n + 1));
      match LastWithId(ids, Some(listed[n].id))
      case None => next == prev
      case Some(t) => t < |prev| && next == prev[t := prev[t].(credentials := Some(ExportCurrentAll(listed[n].credentials)))]
  {
  }

  /** The body of the `forEach`: a listed user found in the table has its exported user's credentials replaced. */
  method Overwrite(users: array<ExportedUser>, userRepMap: map<Option<string>, nat>, user: Listed<CredentialModel>)
    requires forall id :: id in userRepMap ==> userRepMap[id] < users.Length
    modifies users
    ensures Some(user.id) !in userRepMap ==> users[..] == old(users[..])
    ensures Some(user.id) in userRepMap ==>
              users[..] == old(users[..])[userRepMap[Some(user.id)] :=
                old(users[userRepMap[Some(user.id)]]).(credentials := Some(ExportCurrentAll(user.credentials)))]
  {
    if Some(user.id) in userRepMap {
      var target := userRepMap[Some(user.id)];
      users[target] := users[target].(credentials := Some(ExportCurrentAll(user.credentials)));
    }
  }

  /**
   * The current `setCorrectCredentials` as written: the lookup table is
   * created empty and the table built by `collect` is thrown away, so no
   * exported user is ever found. The only effect is the duplicate-key error.
   */
  method SetCorrectCredentialsAsWritten(users: array<ExportedUser>, listed: seq<Listed<CredentialModel>>)
    returns (r: Result<(), Error>)
    modifies users
    ensures users[..] == old(users[..])
    ensures r.Failure? <==> !DistinctIds(CurrentIdsOf(old(users[..])))
    ensures r.Failure? ==> r.error == DuplicateKey
  {
    var userRepMap: map<Option<string>, nat> := map[];
    var collected := CollectById(users);
    if collected.Failure? {
      return Failure(collected.error);
    }
    var n := 0;
    while n < |listed|
      invariant 0 <= n <= |listed|
      invariant users[..] == old(users[..])
    {
      Overwrite(users, userRepMap, listed[n]);
      n := n + 1;
    }
    r := Success(());
  }

  /** What the current `setCorrectCredentials` as written leaves: the exported users unchanged, or the duplicate-key error. */
  function AsWrittenUsers(users: seq<ExportedUser>): Result<seq<ExportedUser>, Error> {
    if DistinctIds(CurrentIdsOf(users)) then Success(users) else Failure(DuplicateKey)
  }

  /**
   * The current `setCorrectCredentials` with the table that `collect`
   * builds used for the lookups: the intended behaviour.
   */
  method SetCorrectCredentialsCurrent(users: array<ExportedUser>, listed: seq<Listed<CredentialModel>>)
    returns (r: Result<(), Error>)
    modifies users
    ensures r.Failure? <==> !DistinctIds(CurrentIdsOf(old(users[..])))
    ensures r.Failure? ==> r.error == DuplicateKey && users[..] == old(users[..])
    ensures r.Success? ==>
              users[..] == CorrectedCurrentUsers(old(users[..]), Written(CurrentIdsOf(old(users[..])), listed, |listed|))
  {
    ghost var users0 := users[..];
    ghost var ids := CurrentIdsOf(users0);
    var collected := CollectById(users);
    if collected.Failure? {
      return Failure(collected.error);
    }
    var userRepMap := collected.value;
    TableIsLastWins(ids, |ids|);
    assert ids[..|ids|] == ids;
    var n := 0;
    while n < |listed|
      invariant 0 <= n <= |listed|
      invariant users[..] == CorrectedCurrentUsers(users0, Written(ids, listed, n))
    {
      CorrectedCurrentStep(users0, listed, n);
      Overwrite(users, userRepMap, listed[n]);
      n := n + 1;
    }
    r := Success(());
  }

  /**
   * With distinct exported ids, the intended `setCorrectCredentials` gives
   * each exported user found in the listing exactly its stored credentials,
   * in order, and leaves every other user unchanged.
   */
  lemma CorrectedCurrentCredentials(users: seq<ExportedUser>, listed: seq<Listed<CredentialModel>>)
    requires DistinctListed(listed)
    requires DistinctIds(CurrentIdsOf(users))
    ensures var r := CorrectedCurrentUsers(users, Written(CurrentIdsOf(users), listed, |listed|));
      && |r| == |users|
      && (forall k :: 0 <= k < |r| ==> r[k] == users[k].(credentials := r[k].credentials))
      && (forall j, k :: 0 <= j < |listed| && 0 <= k < |users| && users[k].id == Some(listed[j].id) ==>
            r[k].credentials == Some(ExportCurrentAll(listed[j].credentials)))
      && (forall k :: 0 <= k < |r| && (forall j :: 0 <= j < |listed| ==> users[k].id != Some(listed[j].id)) ==>
            r[k] == users[k])
  {
    var ids := CurrentIdsOf(users);
    WrittenTargets(ids, listed, |listed|);
    forall j, k | 0 <= j < |listed| && 0 <= k < |users| && users[k].id == Some(listed[j].id)
      ensures LastWithId(ids, Some(listed[j].id)) == Some(k)
    {
      assert ids[k] == Some(listed[j].id);
    }
  }

  /**
   * A concrete export where the two differ: one exported user and the same
   * user in the store with one credential. As written, the user keeps the
   * host's credential list (none here); as intended, it gets the stored
   * credential with its id.
   */
  lemma AsWrittenDropsCredentials()
    ensures var cred := CredentialModel(Some("c1"), Some(PASSWORD), None, None, None, None);
      var users := [ExportedUser(Some("u1"), "alice", None)];
      var listed := [Listed("u1", [cred])];
      && AsWrittenUsers(users) == Success(users)
      && CorrectedCurrentUsers(users, Written(CurrentIdsOf(users), listed, |listed|))[0].credentials ==
           Some([CredentialRep(Some("c1"), Some(PASSWORD), None, None, None, None)])
  {
    var cred := CredentialModel(Some("c1"), Some(PASSWORD), None, None, None, None);
    var users := [ExportedUser(Some("u1"), "alice", None)];
    var listed := [Listed("u1", [cred])];
    var ids := CurrentIdsOf(users);
    assert ids == [Some("u1")];
    assert LastWithId(ids, Some("u1")) == Some(0);
    assert Written(ids, listed, 1) == map[0 := [cred]];
    assert ExportCurrentAll([cred]) == [ExportCurrent(cred)];
  }

  /** The realm the current export returns once its users are corrected. */
  function CorrectedCurrentRealm(exported: ExportedRealm, listed: seq<Listed<CredentialModel>>): ExportedRealm
    requires exported.users.Some? ==> DistinctIds(CurrentIdsOf(exported.users.value))
  {
    if exported.users.None? then exported
    else exported.(users := Some(CorrectedCurrentUsers(exported.users.value,
                                                       Written(CurrentIdsOf(exported.users.value), listed, |listed|))))
  }

  /**
   * The current `exportRealm` after authentication, as written: the export
   * gate, then the host's structural export (`exported`) passed through the
   * `setCorrectCredentials` that rewrites nothing. The export comes back as
   * the host produced it, or fails with the duplicate-key error when two
   * exported users share an id.
   */
  method ExportCurrentRealm(auth: AdminAuth, adminRealm: string, exported: ExportedRealm,
                            listed: seq<Listed<CredentialModel>>) returns (r: Result<ExportedRealm, Error>)
    ensures !ExportAllowed(auth, adminRealm) ==> r == Failure(Forbidden)
    ensures ExportAllowed(auth, adminRealm) && exported.users.None? ==> r == Success(exported)
    ensures ExportAllowed(auth, adminRealm) && exported.users.Some? ==>
              && (r.Failure? <==> !DistinctIds(CurrentIdsOf(exported.users.value)))
              && (r.Failure? ==> r.error == DuplicateKey)
              && (r.Success? ==> r.value == exported)
  {
    if !ExportAllowed(auth, adminRealm) {
      return Failure(Forbidden);
    }
    if exported.users.None? {
      return Success(exported);
    }
    var us := exported.users.value;
    var arr := new ExportedUser[|us|](i requires 0 <= i < |us| => us[i]);
    assert arr[..] == us;
    var corrected := SetCorrectCredentialsAsWritten(arr, listed);
    if corrected.Failure? {
      return Failure(corrected.error);
    }
    r := Success(exported.(users := Some(arr[..])));
  }

  /**
   * The current `exportRealm` as evidently intended: the export gate, then
   * the host's structural export (`exported`) with the credentials rewritten
   * through the collected table; a duplicate exported id is the duplicate-key
   * error.
   */
  method ExportCurrentRealmIntended(auth: AdminAuth, adminRealm: string, exported: ExportedRealm,
                            listed: seq<Listed<CredentialModel>>) returns (r: Result<ExportedRealm, Error>)
    ensures !ExportAllowed(auth, adminRealm) ==> r == Failure(Forbidden)
    ensures ExportAllowed(auth, adminRealm) && exported.users.None? ==> r == Success(exported)
    ensures ExportAllowed(auth, adminRealm) && exported.users.Some? ==>
              && (r.Failure? <==> !DistinctIds(CurrentIdsOf(exported.users.value)))
              && (r.Failure? ==> r.error == DuplicateKey)
              && (r.Success? ==> r.value == CorrectedCurrentRealm(exported, listed))
  {
    if !ExportAllowed(auth, adminRealm) {
      return Failure(Forbidden);
    }
    if exported.users.None? {
      return Success(exported);
    }
    var us := exported.users.value;
    var arr := new ExportedUser[|us|](i requires 0 <= i < |us| => us[i]);
    assert arr[..] == us;
    var corrected := SetCorrectCredentialsCurrent(arr, listed);
    if corrected.Failure? {
      return Failure(corrected.error);
    }
    r := Success(exported.(users := Some(arr[..])));
  }
}
