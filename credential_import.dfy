/**
 * The realm import of the credential-preserving variant: credentials and
 * required actions are taken off every user before the host's structural
 * import, then each saved credential is created for the imported user, by
 * the plaintext path (hashed by the host under the new realm's password
 * policy) or by the pre-hashed path (stored field by field), and the saved
 * required actions are added back.
 */
module CredentialImport {
  import opened Wrappers
  import opened Keycloak
  import opened Representations
  import opened CredentialCodec
  import opened Directory
  import RequiredActions

  /** The credential the store ends up with for one wire credential, under password policy `policy`. */
  function Imported(w: WireCredential, username: string, policy: string -> bool): Result<StoredCredential, Error> {
    match PathOf(w)
    case Plaintext =>
      if policy(w.value.value) then Success(HashedByHost(w.credType, w.value.value))
      else Failure(PasswordPolicyNotMet(username))
    case Hashed =>
      match DecodeHashed(w)
      case Failure(e) => Failure(e)
      case Success(s) => Success(Stored(s))
  }

  /** The credentials stored for a list of wire credentials, in list order, up to the first failure. */
  function ImportedAll(ws: seq<WireCredential>, username: string, policy: string -> bool)
    : Result<seq<StoredCredential>, Error>
  {
    if |ws| == 0 then Success([])
    else
      match ImportedAll(ws[..|ws| - 1], username, policy)
      case Failure(e) => Failure(e)
      case Success(cs) =>
        match Imported(ws[|ws| - 1], username, policy)
        case Failure(e) => Failure(e)
        case Success(c) => Success(cs + [c])
  }

  /** One stored credential per wire credential, in the same order. */
  lemma {:induction false} ImportedAllShape(ws: seq<WireCredential>, username: string, policy: string -> bool)
    requires ImportedAll(ws, username, policy).Success?
    ensures |ImportedAll(ws, username, policy).value| == |ws|
    ensures forall j :: 0 <= j < |ws| ==> Imported(ws[j], username, policy) == Success(ImportedAll(ws, username, policy).value[j])
  {
    if |ws| > 0 {
      ImportedAllShape(ws[..|ws| - 1], username, policy);
      assert forall j :: 0 <= j < |ws| - 1 ==> ws[..|ws| - 1][j] == ws[j];
    }
  }

  /** A failure at some credential is the failure of the whole list. */
  lemma {:induction false} ImportedAllFailure(ws: seq<WireCredential>, n: nat, username: string, policy: string -> bool)
    requires n <= |ws|
    requires ImportedAll(ws[..n], username, policy).Failure?
    ensures ImportedAll(ws, username, policy) == ImportedAll(ws[..n], username, policy)
    decreases |ws| - n
  {
    if n < |ws| {
      assert ws[..n + 1][..n] == ws[..n];
      ImportedAllFailure(ws, n + 1, username, policy);
    } else {
      assert ws[..n] == ws;
    }
  }

  /** The realm `i` of `realms` with its users replaced. */
  function WithUsers(realms: seq<Realm>, i: nat, m: map<string, User>): seq<Realm>
    requires i < |realms|
  {
    realms[i := realms[i].(users := m)]
  }

  /** Replacing the users of the last realm of a list. */
  lemma WithUsersOfLast(realms: seq<Realm>, x: Realm, m: map<string, User>)
    ensures WithUsers(realms + [x], |realms|, m) == realms + [x.(users := m)]
  {
  }

  /** Importing one more credential at the end of the list. */
  lemma ImportedAllSnoc(ws: seq<WireCredential>, w: WireCredential, username: string, policy: string -> bool)
    requires ImportedAll(ws, username, policy).Success?
    ensures Imported(w, username, policy).Failure? ==>
              ImportedAll(ws + [w], username, policy) == Failure(Imported(w, username, policy).error)
    ensures Imported(w, username, policy).Success? ==>
              ImportedAll(ws + [w], username, policy) ==
                Success(ImportedAll(ws, username, policy).value + [Imported(w, username, policy).value])
  {
    assert (ws + [w])[..|ws|] == ws;
  }

  /**
   * The plaintext path: the session's context realm is switched to the
   * realm being imported, so that the host applies that realm's password
   * policy, and is switched back whatever the outcome; the host's model
   * exception becomes a password-policy error naming the user.
   */
  method UpdateCredentialPlainText(store: Store, i: nat, userId: string, w: WireCredential) returns (r: Result<(), Error>)
    requires i < |store.realms| && userId in store.realms[i].users
    requires w.value.Some?
    modifies store`realms, store`contextRealm
    ensures store.contextRealm == old(store.contextRealm)
    ensures var policy := PolicyFor(store.policies, old(store.realms)[i].id);
            var u := old(store.realms)[i].users[userId];
      && (r.Success? <==> policy(w.value.value))
      && (r.Failure? ==> r.error == PasswordPolicyNotMet(u.username) && store.realms == old(store.realms))
      && (r.Success? ==> store.realms == old(store.realms)[i := old(store.realms)[i].(users :=
            old(store.realms)[i].users[userId := u.(credentials := u.credentials + [HashedByHost(w.credType, w.value.value)])])])
  {
    var username := store.realms[i].users[userId].username;
    var origRealm := store.contextRealm;
    store.contextRealm := Some(store.realms[i].id);
    var ok := store.UpdateCredential(i, userId, w.credType, w.value.value);
    store.contextRealm := origRealm;
    if ok {
      r := Success(());
    } else {
      r := Failure(PasswordPolicyNotMet(username));
    }
  }

  /** The pre-hashed path: the decoded credential is created as it is; a malformed salt is an error. */
  method UpdateCredentialHashed(store: Store, i: nat, userId: string, w: WireCredential) returns (r: Result<(), Error>)
    requires i < |store.realms| && userId in store.realms[i].users
    modifies store`realms
    ensures var u := old(store.realms)[i].users[userId];
      match DecodeHashed(w)
      case Failure(e) => r == Failure(e) && store.realms == old(store.realms)
      case Success(s) => r.Success? && store.realms == old(store.realms)[i := old(store.realms)[i].(users :=
                           old(store.realms)[i].users[userId := u.(credentials := u.credentials + [Stored(s)])])]
  {
    match DecodeHashed(w)
    case Failure(e) =>
      r := Failure(e);
    case Success(s) =>
      store.CreateCredential(i, userId, Stored(s));
      r := Success(());
  }

  /**
   * `updateCredential`: a credential with a plaintext value takes the
   * plaintext path even when hashed fields are set; any other takes the
   * pre-hashed path. Either way the context realm is as it was.
   */
  method UpdateCredential(store: Store, i: nat, userId: string, w: WireCredential) returns (r: Result<(), Error>)
    requires i < |store.realms| && userId in store.realms[i].users
    modifies store`realms, store`contextRealm
    ensures store.contextRealm == old(store.contextRealm)
    ensures var u := old(store.realms)[i].users[userId];
            var imported := Imported(w, u.username, PolicyFor(store.policies, old(store.realms)[i].id));
      && (r.Failure? <==> imported.Failure?)
      && (r.Failure? ==> r.error == imported.error && store.realms == old(store.realms))
      && (r.Success? ==> store.realms == WithUsers(old(store.realms), i,
                           old(store.realms)[i].users[userId := u.(credentials := u.credentials + [imported.value])]))
  {
    if w.value.Some? {
      r := UpdateCredentialPlainText(store, i, userId, w);
    } else {
      r := UpdateCredentialHashed(store, i, userId, w);
    }
  }

  /** A user after detaching: its credential list is replaced by an empty one. */
  function CredentialsDetached(u: UserRep): UserRep {
    u.(credentials := Some([]))
  }

  /**
   * The credential half of the detach loop: every user's list (null
   * included) is saved by position and replaced by an empty list.
   */
  method DetachCredentials(users: seq<UserRep>) returns (cleared: seq<UserRep>, saved: seq<Option<seq<WireCredential>>>)
    ensures |cleared| == |users| && |saved| == |users|
    ensures forall k :: 0 <= k < |users| ==> cleared[k] == CredentialsDetached(users[k]) && saved[k] == users[k].credentials
  {
    cleared, saved := [], [];
    var k := 0;
    while k < |users|
      invariant 0 <= k <= |users|
      invariant |cleared| == k && |saved| == k
      invariant forall j :: 0 <= j < k ==> cleared[j] == CredentialsDetached(users[j]) && saved[j] == users[j].credentials
    {
      saved := saved + [users[k].credentials];
      cleared := cleared + [users[k].(credentials := Some([]))];
      k := k + 1;
    }
  }

  /**
   * One entry of the credential loop: the imported user with the pre-import
   * id of user `k` gets its saved credentials in order. A null list, a null
   * id, or a missing user with credentials to create is a NullPointerException.
   */
  function ApplyOne(m: map<string, User>, users: seq<UserRep>, saved: seq<Option<seq<WireCredential>>>,
                    policy: string -> bool, k: nat): Result<map<string, User>, Error>
    requires k < |users| && k < |saved|
  {
    if saved[k].None? || users[k].id.None? then Failure(NullReference)
    else if |saved[k].value| == 0 then Success(m)
    else if users[k].id.value !in m then Failure(NullReference)
    else
      var id := users[k].id.value;
      match ImportedAll(saved[k].value, m[id].username, policy)
      case Failure(e) => Failure(e)
      case Success(cs) => Success(m[id := m[id].(credentials := m[id].credentials + cs)])
  }

  /** The imported users after the credential loop has handled the first `n` users. */
  function CredentialsApplied(m: map<string, User>, users: seq<UserRep>, saved: seq<Option<seq<WireCredential>>>,
                              policy: string -> bool, n: nat): Result<map<string, User>, Error>
    requires n <= |users| && n <= |saved|
  {
    if n == 0 then Success(m)
    else
      match CredentialsApplied(m, users, saved, policy, n - 1)
      case Failure(e) => Failure(e)
      case Success(m') => ApplyOne(m', users, saved, policy, n - 1)
  }

  /** Once an entry fails, the credential loop's result stays that failure. */
  lemma {:induction false} AppliedFailureSticks(m: map<string, User>, users: seq<UserRep>, saved: seq<Option<seq<WireCredential>>>,
                                                policy: string -> bool, n: nat, n': nat)
    requires n <= n' <= |users| && n' <= |saved|
    requires CredentialsApplied(m, users, saved, policy, n).Failure?
    ensures CredentialsApplied(m, users, saved, policy, n') == CredentialsApplied(m, users, saved, policy, n)
    decreases n' - n
  {
    if n < n' {
      AppliedFailureSticks(m, users, saved, policy, n, n' - 1);
    }
  }

  /**
   * The inner credential loop: the credentials of one user are created in
   * list order; the first failure stops the loop.
   */
  method CreateCredentials(store: Store, i: nat, id: string, creds: seq<WireCredential>) returns (r: Result<(), Error>)
    requires i < |store.realms| && id in store.realms[i].users
    modifies store`realms, store`contextRealm
    ensures store.contextRealm == old(store.contextRealm)
    ensures var u := old(store.realms)[i].users[id];
            var all := ImportedAll(creds, u.username, PolicyFor(store.policies, old(store.realms)[i].id));
      && (r.Failure? <==> all.Failure?)
      && (r.Failure? ==> r.error == all.error)
      && (r.Success? ==> store.realms == WithUsers(old(store.realms), i,
                           old(store.realms)[i].users[id := u.(credentials := u.credentials + all.value)]))
  {
    ghost var realms0 := store.realms;
    ghost var m := store.realms[i].users;
    ghost var u := m[id];
    ghost var policy := PolicyFor(store.policies, store.realms[i].id);
    var j := 0;
    assert creds[..0] == [];
    assert u.(credentials := u.credentials + []) == u;
    assert m[id := u] == m;
    while j < |creds|
      invariant 0 <= j <= |creds|
      invariant store.contextRealm == old(store.contextRealm)
      invariant ImportedAll(creds[..j], u.username, policy).Success?
      invariant store.realms == WithUsers(realms0, i, m[id := u.(credentials :=
                  u.credentials + ImportedAll(creds[..j], u.username, policy).value)])
    {
      ghost var done := ImportedAll(creds[..j], u.username, policy).value;
      assert creds[..j + 1] == creds[..j] + [creds[j]];
      ImportedAllSnoc(creds[..j], creds[j], u.username, policy);
      ghost var cur := store.realms;
      assert cur[i].users[id] == u.(credentials := u.credentials + done);
      r := UpdateCredential(store, i, id, creds[j]);
      if r.Failure? {
        ImportedAllFailure(creds, j + 1, u.username, policy);
        return;
      }
      ghost var c := Imported(creds[j], u.username, policy).value;
      assert cur[i].id == realms0[i].id && cur[i].users == m[id := u.(credentials := u.credentials + done)];
      assert store.realms == WithUsers(cur, i, cur[i].users[id := u.(credentials := u.credentials + done + [c])]);
      assert u.credentials + done + [c] == u.credentials + (done + [c]);
      assert cur[i].users[id := u.(credentials := u.credentials + done + [c])] ==
             m[id := u.(credentials := u.credentials + (done + [c]))];
      j := j + 1;
    }
    assert creds[..j] == creds;
    r := Success(());
  }

  /**
   * The credential loop: for each user, in bundle order, each saved
   * credential is created, in list order, for the imported user with the
   * same id. The context realm is as it was afterwards.
   */
  method ApplyCredentials(store: Store, i: nat, users: seq<UserRep>, saved: seq<Option<seq<WireCredential>>>)
    returns (r: Result<(), Error>)
    requires i < |store.realms| && |saved| == |users|
    modifies store`realms, store`contextRealm
    ensures store.contextRealm == old(store.contextRealm)
    ensures var applied := CredentialsApplied(old(store.realms)[i].users, users, saved,
                                              PolicyFor(store.policies, old(store.realms)[i].id), |users|);
      && (r.Failure? <==> applied.Failure?)
      && (r.Failure? ==> r.error == applied.error)
      && (r.Success? ==> store.realms == WithUsers(old(store.realms), i, applied.value))
  {
    ghost var realms0 := store.realms;
    ghost var m0 := store.realms[i].users;
    ghost var policy := PolicyFor(store.policies, store.realms[i].id);
    var k := 0;
    while k < |users|
      invariant 0 <= k <= |users|
      invariant store.contextRealm == old(store.contextRealm)
      invariant CredentialsApplied(m0, users, saved, policy, k).Success?
      invariant store.realms == WithUsers(realms0, i, CredentialsApplied(m0, users, saved, policy, k).value)
    {
      if saved[k].None? || users[k].id.None? {
        r := Failure(NullReference);
        AppliedFailureSticks(m0, users, saved, policy, k + 1, |users|);
        return;
      }
      if |saved[k].value| > 0 {
        if users[k].id.value !in store.realms[i].users {
          r := Failure(NullReference);
          AppliedFailureSticks(m0, users, saved, policy, k + 1, |users|);
          return;
        }
        r := CreateCredentials(store, i, users[k].id.value, saved[k].value);
        if r.Failure? {
          AppliedFailureSticks(m0, users, saved, policy, k + 1, |users|);
          return;
        }
      }
      k := k + 1;
    }
    r := Success(());
  }

  /** Whether some user among the first `n` has pre-import id `id` and credentials to create. */
  predicate GetsCredentials(users: seq<UserRep>, saved: seq<Option<seq<WireCredential>>>, n: nat, id: string)
    requires n <= |users| && n <= |saved|
  {
    exists k :: 0 <= k < n && users[k].id == Some(id) && saved[k].Some? && |saved[k].value| > 0
  }

  /** Two user maps with the same ids, usernames and required actions. */
  predicate SameProfiles(m: map<string, User>, r: map<string, User>) {
    && r.Keys == m.Keys
    && forall id :: id in m ==> r[id].username == m[id].username && r[id].requiredActions == m[id].requiredActions
  }

  /** One step of the credential loop, when it succeeds, changes only the credentials of that step's user. */
  lemma ApplyOneEffect(m: map<string, User>, users: seq<UserRep>, saved: seq<Option<seq<WireCredential>>>,
                       policy: string -> bool, k: nat)
    requires k < |users| && k < |saved|
    requires ApplyOne(m, users, saved, policy, k).Success?
    ensures var r := ApplyOne(m, users, saved, policy, k).value;
      && users[k].id.Some? && saved[k].Some?
      && SameProfiles(m, r)
      && (forall id :: id in m && (|saved[k].value| == 0 || id != users[k].id.value) ==> r[id] == m[id])
      && (|saved[k].value| > 0 ==>
            && users[k].id.value in m
            && ImportedAll(saved[k].value, m[users[k].id.value].username, policy).Success?
            && r[users[k].id.value].credentials == m[users[k].id.value].credentials +
                 ImportedAll(saved[k].value, m[users[k].id.value].username, policy).value)
  {
  }

  /**
   * The credential loop, when it succeeds, keeps every imported user's id,
   * username and required actions, and every bundle user it handled had an
   * id and a (possibly empty) credential list.
   */
  lemma {:induction false} AppliedKeepsProfiles(m: map<string, User>, users: seq<UserRep>, saved: seq<Option<seq<WireCredential>>>,
                                                policy: string -> bool, n: nat)
    requires n <= |users| && n <= |saved|
    requires CredentialsApplied(m, users, saved, policy, n).Success?
    ensures SameProfiles(m, CredentialsApplied(m, users, saved, policy, n).value)
    ensures forall k :: 0 <= k < n ==> users[k].id.Some? && saved[k].Some?
  {
    if n > 0 {
      AppliedKeepsProfiles(m, users, saved, policy, n - 1);
      var prev := CredentialsApplied(m, users, saved, policy, n - 1).value;
      ApplyOneEffect(prev, users, saved, policy, n - 1);
    }
  }

  /** The credential loop leaves a user alone when no handled bundle user with that id had credentials. */
  lemma {:induction false} AppliedLeavesOthers(m: map<string, User>, users: seq<UserRep>, saved: seq<Option<seq<WireCredential>>>,
                                               policy: string -> bool, n: nat)
    requires n <= |users| && n <= |saved|
    requires CredentialsApplied(m, users, saved, policy, n).Success?
    ensures forall id :: id in m && !GetsCredentials(users, saved, n, id) ==>
              id in CredentialsApplied(m, users, saved, policy, n).value &&
              CredentialsApplied(m, users, saved, policy, n).value[id] == m[id]
  {
    if n > 0 {
      AppliedLeavesOthers(m, users, saved, policy, n - 1);
      var prev := CredentialsApplied(m, users, saved, policy, n - 1).value;
      ApplyOneEffect(prev, users, saved, policy, n - 1);
      forall id | id in m && !GetsCredentials(users, saved, n, id)
        ensures id in CredentialsApplied(m, users, saved, policy, n).value
        ensures CredentialsApplied(m, users, saved, policy, n).value[id] == m[id]
      {
        assert !GetsCredentials(users, saved, n - 1, id);
      }
    }
  }

  /**
   * When the credential loop succeeds on users with distinct ids, each user
   * with credentials to create gets exactly its own credentials, in order,
   * after the ones it had.
   */
  lemma {:induction false} CredentialsRestored(m: map<string, User>, users: seq<UserRep>, saved: seq<Option<seq<WireCredential>>>,
                                               policy: string -> bool, n: nat)
    requires n <= |users| && n <= |saved|
    requires DistinctUserIds(users)
    requires CredentialsApplied(m, users, saved, policy, n).Success?
    ensures forall k :: 0 <= k < n ==> users[k].id.Some? && saved[k].Some?
    ensures var r := CredentialsApplied(m, users, saved, policy, n).value;
      forall k :: 0 <= k < n && |saved[k].value| > 0 ==>
        && users[k].id.value in m
        && users[k].id.value in r
        && ImportedAll(saved[k].value, m[users[k].id.value].username, policy).Success?
        && r[users[k].id.value].credentials ==
             m[users[k].id.value].credentials + ImportedAll(saved[k].value, m[users[k].id.value].username, policy).value
  {
    AppliedKeepsProfiles(m, users, saved, policy, n);
    if n > 0 {
      CredentialsRestored(m, users, saved, policy, n - 1);
      AppliedKeepsProfiles(m, users, saved, policy, n - 1);
      var prev := CredentialsApplied(m, users, saved, policy, n - 1).value;
      var r := CredentialsApplied(m, users, saved, policy, n).value;
      var k := n - 1;
      ApplyOneEffect(prev, users, saved, policy, k);
      if |saved[k].value| > 0 {
        var id := users[k].id.value;
        AppliedLeavesOthers(m, users, saved, policy, n - 1);
        assert !GetsCredentials(users, saved, n - 1, id);
        assert prev[id] == m[id];
      }
      forall j | 0 <= j < k && |saved[j].value| > 0
        ensures r[users[j].id.value] == prev[users[j].id.value]
      {
        assert users[j].id != users[k].id;
      }
    }
  }

  /** The imported user for bundle user `u`, as the credential-preserving import promises it. */
  ghost predicate ImportedAsPromised(stored: User, u: UserRep, policy: string -> bool) {
    && u.credentials.Some?
    && ImportedAll(u.credentials.value, u.username, policy).Success?
    && stored.username == u.username
    && stored.credentials == ImportedAll(u.credentials.value, u.username, policy).value
    && stored.requiredActions == (if u.requiredActions.Some? then RequiredActions.AddAll([], u.requiredActions.value) else [])
  }

  /** Every user of the bundle was imported under its id as promised. */
  ghost predicate AllImportedAsPromised(m: map<string, User>, users: seq<UserRep>, policy: string -> bool) {
    forall k :: 0 <= k < |users| ==>
      && users[k].id.Some?
      && users[k].id.value in m
      && ImportedAsPromised(m[users[k].id.value], users[k], policy)
  }

  /**
   * The credential loop and then the reattach loop, run on the users the
   * host created from the detached bundle, give every user its own
   * credentials and tags, when the credential loop succeeds.
   */
  lemma ImportComposition(m0: map<string, User>, users: seq<UserRep>, savedCreds: seq<Option<seq<WireCredential>>>,
                          savedActions: map<nat, seq<string>>, policy: string -> bool)
    requires |savedCreds| == |users|
    requires forall k :: 0 <= k < |users| ==> savedCreds[k] == users[k].credentials
    requires savedActions == RequiredActions.Saved(users)
    requires DistinctUserIds(users)
    requires forall k :: 0 <= k < |users| && users[k].id.Some? ==>
               users[k].id.value in m0 && m0[users[k].id.value] == User(users[k].username, [], [])
    requires CredentialsApplied(m0, users, savedCreds, policy, |users|).Success?
    ensures var m1 := CredentialsApplied(m0, users, savedCreds, policy, |users|).value;
      && RequiredActions.Reattached(m1, users, savedActions, |users|).Success?
      && AllImportedAsPromised(RequiredActions.Reattached(m1, users, savedActions, |users|).value, users, policy)
  {
    CredentialsRestored(m0, users, savedCreds, policy, |users|);
    AppliedKeepsProfiles(m0, users, savedCreds, policy, |users|);
    AppliedLeavesOthers(m0, users, savedCreds, policy, |users|);
    var m1 := CredentialsApplied(m0, users, savedCreds, policy, |users|).value;
    RequiredActions.ReattachRestoresTags(m1, users, savedActions, |users|);
    var m2 := RequiredActions.Reattached(m1, users, savedActions, |users|).value;
    forall k | 0 <= k < |users|
      ensures users[k].id.Some? && users[k].id.value in m2 && ImportedAsPromised(m2[users[k].id.value], users[k], policy)
    {
      var id := users[k].id.value;
      if |savedCreds[k].value| == 0 {
        assert !GetsCredentials(users, savedCreds, |users|, id) by {
          forall k' | 0 <= k' < |users| && users[k'].id == Some(id) ensures k' == k { }
        }
      }
      if k !in savedActions {
        assert !RequiredActions.Targeted(users, savedActions, |users|, id) by {
          forall k' | 0 <= k' < |users| && users[k'].id == Some(id) ensures k' == k { }
        }
      }
    }
  }

  /**
   * The second half of the import: the credential loop, then the reattach
   * loop, on the users the host created in realm `i` from the detached
   * bundle.
   */
  method RestoreUsers(store: Store, i: nat, users: seq<UserRep>, savedCreds: seq<Option<seq<WireCredential>>>,
                      savedActions: map<nat, seq<string>>) returns (r: Result<(), Error>, ghost m: map<string, User>)
    requires i < |store.realms|
    requires |savedCreds| == |users|
    requires forall k :: 0 <= k < |users| ==> savedCreds[k] == users[k].credentials
    requires savedActions == RequiredActions.Saved(users)
    requires DistinctUserIds(users)
    requires forall k :: 0 <= k < |users| && users[k].id.Some? ==>
               users[k].id.value in store.realms[i].users &&
               store.realms[i].users[users[k].id.value] == User(users[k].username, [], [])
    modifies store`realms, store`contextRealm
    ensures store.contextRealm == old(store.contextRealm)
    ensures var applied := CredentialsApplied(old(store.realms)[i].users, users, savedCreds,
                                              PolicyFor(store.policies, old(store.realms)[i].id), |users|);
      && (r.Failure? <==> applied.Failure?)
      && (r.Failure? ==> r.error == applied.error)
      && (r.Success? ==> applied.Success? && RequiredActions.Reattached(applied.value, users, savedActions, |users|) == Success(m))
    ensures r.Success? ==>
              && store.realms == WithUsers(old(store.realms), i, m)
              && AllImportedAsPromised(m, users, PolicyFor(store.policies, old(store.realms)[i].id))
  {
    ghost var m0 := store.realms[i].users;
    ghost var policy := PolicyFor(store.policies, store.realms[i].id);
    r := ApplyCredentials(store, i, users, savedCreds);
    if r.Failure? {
      m := map[];
      return;
    }
    ImportComposition(m0, users, savedCreds, savedActions, policy);
    ghost var realms1 := store.realms;
    var reattached := RequiredActions.Reattach(store.realms[i].users, users, savedActions);
    store.SetUsers(i, reattached.value);
    m := reattached.value;
    assert store.realms == WithUsers(realms1, i, m);
  }

  /** The detach loop of `importRealm`: credentials and required actions are saved and emptied. */
  method Detach(users: seq<UserRep>)
    returns (cleared: seq<UserRep>, savedCreds: seq<Option<seq<WireCredential>>>, savedActions: map<nat, seq<string>>)
    ensures |cleared| == |users| && |savedCreds| == |users|
    ensures forall k :: 0 <= k < |users| ==>
              && cleared[k] == RequiredActions.Detached(CredentialsDetached(users[k]))
              && savedCreds[k] == users[k].credentials
    ensures savedActions == RequiredActions.Saved(users)
  {
    var noCreds;
    noCreds, savedCreds := DetachCredentials(users);
    cleared, savedActions := RequiredActions.DetachActions(noCreds);
    assert RequiredActions.Saved(noCreds) == RequiredActions.Saved(users);
  }

  /** The users the host creates from a detached bundle have no credentials and no required actions. */
  lemma DetachedUsersImported(users: seq<UserRep>, cleared: seq<UserRep>)
    requires |cleared| == |users|
    requires forall k :: 0 <= k < |users| ==> cleared[k] == RequiredActions.Detached(CredentialsDetached(users[k]))
    requires DistinctUserIds(cleared)
    ensures DistinctUserIds(users)
    ensures forall k :: 0 <= k < |users| && users[k].id.Some? ==>
              users[k].id.value in UsersOf(cleared) && UsersOf(cleared)[users[k].id.value] == User(users[k].username, [], [])
  {
    assert forall k :: 0 <= k < |users| ==> cleared[k].id == users[k].id;
  }

  /** The users as handed to the host: credentials and required actions detached. */
  function HostUsers(users: seq<UserRep>): seq<UserRep> {
    seq(|users|, k requires 0 <= k < |users| => RequiredActions.Detached(CredentialsDetached(users[k])))
  }

  /** The credential lists saved by the detach loop, by position. */
  function SavedCredentials(users: seq<UserRep>): seq<Option<seq<WireCredential>>> {
    seq(|users|, k requires 0 <= k < |users| => users[k].credentials)
  }

  /**
   * What `importRealm` of the credential-preserving variant does to the
   * listing: a null user list fails at once; otherwise the host imports the
   * detached bundle, the saved credentials are created for the new realm's
   * users under that realm's password policy, and the saved tags are added
   * back. The first error is the outcome.
   */
  function LegacyOutcome(realms: seq<Realm>, rep: RealmRep, policies: map<string, string -> bool>): Result<seq<Realm>, Error> {
    if rep.users.None? then Failure(NullReference)
    else
      var users := rep.users.value;
      match HostImport(realms, rep.(users := Some(HostUsers(users))))
      case Failure(e) => Failure(e)
      case Success(imported) =>
        var i := |realms|;
        match CredentialsApplied(imported[i].users, users, SavedCredentials(users), PolicyFor(policies, imported[i].id), |users|)
        case Failure(e) => Failure(e)
        case Success(m1) =>
          match RequiredActions.Reattached(m1, users, RequiredActions.Saved(users), |users|)
          case Failure(e) => Failure(e)
          case Success(m2) => Success(imported[i := imported[i].(users := m2)])
  }

  /** The outcome once the host has imported the detached bundle: the credential loop's error, or the reattached users. */
  lemma LegacyOutcomeAfterHost(realms: seq<Realm>, rep: RealmRep, policies: map<string, string -> bool>, imported: seq<Realm>)
    requires rep.users.Some?
    requires HostImport(realms, rep.(users := Some(HostUsers(rep.users.value)))) == Success(imported)
    ensures |imported| == |realms| + 1
    ensures var users := rep.users.value;
      var applied := CredentialsApplied(imported[|realms|].users, users, SavedCredentials(users),
                                        PolicyFor(policies, imported[|realms|].id), |users|);
      && (applied.Failure? ==> LegacyOutcome(realms, rep, policies) == Failure(applied.error))
      && (applied.Success? && RequiredActions.Reattached(applied.value, users, RequiredActions.Saved(users), |users|).Success? ==>
            LegacyOutcome(realms, rep, policies) ==
              Success(WithUsers(imported, |realms|, RequiredActions.Reattached(applied.value, users, RequiredActions.Saved(users), |users|).value)))
  {
  }

  /**
   * `importRealm` of the credential-preserving variant: detach credentials
   * and required actions, let the host import the realm, then create every
   * saved credential for its user and add back every saved tag. On success
   * the new realm is appended to the store and each user holds exactly its
   * own credentials, in order, and its own tags, verbatim; other realms are
   * unchanged. The context realm is as it was on every outcome.
   */
  method ImportRealm(store: Store, rep: RealmRep) returns (r: Result<nat, Error>)
    modifies store`realms, store`contextRealm
    ensures store.contextRealm == old(store.contextRealm)
    ensures rep.users.None? ==> r == Failure(NullReference) && store.realms == old(store.realms)
    ensures rep.users.Some? && IndexOfName(old(store.realms), rep.realm).Some? ==>
              r == Failure(ModelDuplicate) && store.realms == old(store.realms)
    ensures var o := LegacyOutcome(old(store.realms), rep, store.policies);
      && (r.Failure? <==> o.Failure?)
      && (r.Failure? ==> r.error == o.error)
      && (r.Success? ==> store.realms == o.value)
    ensures r.Success? ==>
              && rep.users.Some?
              && r.value == |old(store.realms)| == |store.realms| - 1
              && store.realms[..r.value] == old(store.realms)
              && store.realms[r.value].name == rep.realm
              && store.realms[r.value].id == RealmIdOf(rep)
              && AllImportedAsPromised(store.realms[r.value].users, rep.users.value, PolicyFor(store.policies, RealmIdOf(rep)))
  {
    if rep.users.None? {
      return Failure(NullReference);
    }
    var users := rep.users.value;
    var cleared, savedCreds, savedActions := Detach(users);
    assert cleared == HostUsers(users);
    assert savedCreds == SavedCredentials(users);
    var imported := store.BasicImport(rep.(users := Some(cleared)));
    if imported.Failure? {
      return Failure(imported.error);
    }
    var i := imported.value;
    ghost var added := store.realms[i];
    LegacyOutcomeAfterHost(old(store.realms), rep, store.policies, store.realms);
    DetachedUsersImported(users, cleared);
    var restored, m := RestoreUsers(store, i, users, savedCreds, savedActions);
    if restored.Failure? {
      return Failure(restored.error);
    }
    r := Success(i);
    WithUsersOfLast(old(store.realms), added, m);
  }
}
