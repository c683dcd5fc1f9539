/**
 * The host's directory store, reduced to what the import/export code reads
 * and writes: realms in listing order with their ids, names, management
 * client links and users; the session's context realm; and the password
 * policy of each realm. Its operations are stand-ins for Keycloak internals
 * (realm import, realm removal, management client setup, credential
 * creation) with the simple contracts the rest of the model relies on.
 */
module Directory {
  import opened Wrappers
  import opened Keycloak
  import opened Representations
  import CredentialCodec

  /**
   * A credential held by the store: created field by field from a pre-hashed
   * import, or hashed by the host itself from a plaintext value.
   */
  datatype StoredCredential =
    | Stored(model: CredentialCodec.StorageCredential)
    | HashedByHost(credType: Option<string>, plaintext: string)

  datatype User = User(username: string, requiredActions: seq<string>, credentials: seq<StoredCredential>)

  /** A realm; `masterAdminClient` is its management client in the administration realm. */
  datatype Realm = Realm(id: string, name: string, masterAdminClient: Option<string>, users: map<string, User>)

  /** The host's closed enumeration of required actions. */
  const KNOWN_REQUIRED_ACTIONS: set<string> :=
    {"VERIFY_EMAIL", "UPDATE_PROFILE", "CONFIGURE_TOTP", "UPDATE_PASSWORD", "TERMS_AND_CONDITIONS"}

  /** The first realm with the given name (`getRealmByName`). */
  function IndexOfName(realms: seq<Realm>, name: string): (r: Option<nat>)
    ensures r.Some? ==> r.value < |realms| && realms[r.value].name == name
    ensures r.Some? ==> forall j :: 0 <= j < r.value ==> realms[j].name != name
    ensures r.None? ==> forall j :: 0 <= j < |realms| ==> realms[j].name != name
  {
    if |realms| == 0 then None
    else if realms[0].name == name then Some(0)
    else
      match IndexOfName(realms[1..], name)
      case None => None
      case Some(k) => Some(k + 1)
  }

  /** Whether some realm has the given id. */
  predicate HasId(realms: seq<Realm>, id: string) {
    exists j :: 0 <= j < |realms| && realms[j].id == id
  }

  /** The store keeps realm names and ids unique. */
  predicate Unique(realms: seq<Realm>) {
    forall i, j :: 0 <= i < j < |realms| ==> realms[i].name != realms[j].name && realms[i].id != realms[j].id
  }

  /** The realms left after `removeRealm(id)`, in their order. */
  function WithoutId(realms: seq<Realm>, id: string): (r: seq<Realm>)
    ensures forall j :: 0 <= j < |r| ==> r[j].id != id
    ensures forall x :: x in r <==> x in realms && x.id != id
    ensures |r| <= |realms|
  {
    if |realms| == 0 then []
    else if realms[0].id == id then WithoutId(realms[1..], id)
    else [realms[0]] + WithoutId(realms[1..], id)
  }

  /** No two users of a bundle share an id; users without one get a fresh id from the host. */
  predicate DistinctUserIds(us: seq<UserRep>) {
    forall i, j :: 0 <= i < j < |us| && us[i].id.Some? ==> us[i].id != us[j].id
  }

  /** The first tag of a list outside the host's enumeration, if any. */
  function UnknownTag(tags: seq<string>): (r: Option<string>)
    ensures r.Some? ==> r.value in tags && r.value !in KNOWN_REQUIRED_ACTIONS
    ensures r.None? ==> forall t :: t in tags ==> t in KNOWN_REQUIRED_ACTIONS
  {
    if |tags| == 0 then None
    else if tags[0] !in KNOWN_REQUIRED_ACTIONS then Some(tags[0])
    else UnknownTag(tags[1..])
  }

  /** A required-action tag of the bundle's users outside the host's enumeration, if any. */
  function UnknownAction(us: seq<UserRep>): (r: Option<string>)
    ensures r.Some? ==> r.value !in KNOWN_REQUIRED_ACTIONS
    ensures r.None? ==> forall k, t :: 0 <= k < |us| && us[k].requiredActions.Some? && t in us[k].requiredActions.value ==>
                          t in KNOWN_REQUIRED_ACTIONS
  {
    if |us| == 0 then None
    else
      var first := UnknownTag(us[0].requiredActions.GetOr([]));
      if first.Some? then first
      else
        var rest := UnknownAction(us[1..]);
        assert rest.None? ==> forall k :: 1 <= k < |us| ==> us[k] == us[1..][k - 1];
        rest
  }

  /**
   * The users the host creates for a bundle, keyed by id, with the required
   * actions they carry and no credentials. Users without an id receive an id
   * from the host that the model does not track, and are left out.
   */
  function UsersOf(us: seq<UserRep>): (m: map<string, User>)
    requires DistinctUserIds(us)
    ensures forall k :: 0 <= k < |us| && us[k].id.Some? ==>
              us[k].id.value in m && m[us[k].id.value] == User(us[k].username, us[k].requiredActions.GetOr([]), [])
    ensures forall id :: id in m ==> exists k :: 0 <= k < |us| && us[k].id == Some(id)
  {
    map k | 0 <= k < |us| && us[k].id.Some? :: us[k].id.value := User(us[k].username, us[k].requiredActions.GetOr([]), [])
  }

  /** The id the host gives an imported realm: the bundle's, or else its name. */
  function RealmIdOf(rep: RealmRep): string {
    rep.id.GetOr(rep.realm)
  }

  /** The realm the host creates for a bundle whose users have distinct ids. */
  function NewRealm(rep: RealmRep): Realm
    requires rep.users.Some? ==> DistinctUserIds(rep.users.value)
  {
    Realm(RealmIdOf(rep), rep.realm, Some(AdminClientName(rep.realm)),
          if rep.users.Some? then UsersOf(rep.users.value) else map[])
  }

  /**
   * The host's structural import of a bundle (`RealmManager.importRealm`):
   * it refuses a name or id already taken and users sharing an id, converts
   * every required action through its closed enumeration (failing on a tag
   * outside it), and otherwise appends the new realm, with its management
   * client, to the listing.
   */
  function HostImport(realms: seq<Realm>, rep: RealmRep): (r: Result<seq<Realm>, Error>)
    ensures IndexOfName(realms, rep.realm).Some? ==> r == Failure(ModelDuplicate)
    ensures rep.users.Some? && UnknownAction(rep.users.value).Some? ==> r.Failure?
    ensures r.Success? ==>
              && IndexOfName(realms, rep.realm).None?
              && !HasId(realms, RealmIdOf(rep))
              && (rep.users.Some? ==> DistinctUserIds(rep.users.value))
              && r.value == realms + [NewRealm(rep)]
  {
    var us := rep.users.GetOr([]);
    if IndexOfName(realms, rep.realm).Some? || HasId(realms, RealmIdOf(rep)) || !DistinctUserIds(us) then
      Failure(ModelDuplicate)
    else if UnknownAction(us).Some? then
      Failure(UnknownRequiredAction(UnknownAction(us).value))
    else
      Success(realms + [NewRealm(rep)])
  }

  /** The name of the management client that the administration realm keeps for a realm. */
  function AdminClientName(realmName: string): string {
    realmName + "-realm"
  }

  /** The password policy of a realm; a realm without one accepts every password. */
  function PolicyFor(policies: map<string, string -> bool>, realmId: string): string -> bool {
    if realmId in policies then policies[realmId] else _ => true
  }

  class Store {
    var realms: seq<Realm>
    /** The realm (by id) that the session context points at. */
    var contextRealm: Option<string>
    /** The password policy of each realm, by realm id; a realm without one accepts every password. */
    var policies: map<string, string -> bool>

    /** `realm.setMasterAdminClient(client)` */
    method SetMasterAdminClient(i: nat, client: Option<string>)
      requires i < |realms|
      modifies this`realms
      ensures realms == old(realms)[i := old(realms)[i].(masterAdminClient := client)]
    {
      realms := realms[i := realms[i].(masterAdminClient := client)];
    }

    /** `setupMasterAdminManagement(realm)`: the realm gets its management client. */
    method SetupMasterAdminManagement(i: nat)
      requires i < |realms|
      modifies this`realms
      ensures realms == old(realms)[i := old(realms)[i].(masterAdminClient := Some(AdminClientName(old(realms)[i].name)))]
    {
      realms := realms[i := realms[i].(masterAdminClient := Some(AdminClientName(realms[i].name)))];
    }

    /** `removeRealm(id)` */
    method RemoveRealm(id: string)
      modifies this`realms
      ensures realms == WithoutId(old(realms), id)
    {
      realms := WithoutId(realms, id);
    }

    /** The host's structural import of a bundle (`RealmManager.importRealm`), as specified by `HostImport`. */
    method BasicImport(rep: RealmRep) returns (r: Result<nat, Error>)
      modifies this`realms
      ensures var h := HostImport(old(realms), rep);
        && (r.Failure? <==> h.Failure?)
        && (r.Failure? ==> r.error == h.error && realms == old(realms))
        && (r.Success? ==> r.value == |old(realms)| && realms == h.value)
    {
      var us := rep.users.GetOr([]);
      if IndexOfName(realms, rep.realm).Some? || HasId(realms, RealmIdOf(rep)) || !DistinctUserIds(us) {
        return Failure(ModelDuplicate);
      }
      var unknown := UnknownAction(us);
      if unknown.Some? {
        return Failure(UnknownRequiredAction(unknown.value));
      }
      r := Success(|realms|);
      realms := realms + [NewRealm(rep)];
    }

    /** `createCredential(realm, user, credential)`: appended to the user's credentials. */
    method CreateCredential(i: nat, userId: string, c: StoredCredential)
      requires i < |realms| && userId in realms[i].users
      modifies this`realms
      ensures realms == old(realms)[i := old(realms)[i].(users := old(realms)[i].users[userId :=
                old(realms)[i].users[userId].(credentials := old(realms)[i].users[userId].credentials + [c])])]
    {
      var u := realms[i].users[userId];
      realms := realms[i := realms[i].(users := realms[i].users[userId := u.(credentials := u.credentials + [c])])];
    }

    /** The password policy the host applies: the one of the context realm. */
    function ContextPolicy(): (string -> bool)
      reads this
    {
      if contextRealm.Some? then PolicyFor(policies, contextRealm.value) else _ => true
    }

    /**
     * The host's policy-enforcing credential update
     * (`userCredentialManager().updateCredential`): the plaintext is checked
     * against the context realm's policy, and on success the host hashes it
     * and stores it; on failure it raises a model exception.
     */
    method UpdateCredential(i: nat, userId: string, credType: Option<string>, plaintext: string) returns (ok: bool)
      requires i < |realms| && userId in realms[i].users
      modifies this`realms
      ensures ok == ContextPolicy()(plaintext)
      ensures ok ==> realms == old(realms)[i := old(realms)[i].(users := old(realms)[i].users[userId :=
                old(realms)[i].users[userId].(credentials :=
                  old(realms)[i].users[userId].credentials + [HashedByHost(credType, plaintext)])])]
      ensures !ok ==> realms == old(realms)
    {
      ok := ContextPolicy()(plaintext);
      if ok {
        CreateCredential(i, userId, HashedByHost(credType, plaintext));
      }
    }

    /** Replaces the users of a realm, for operations computed on a copy of its user map. */
    method SetUsers(i: nat, users: map<string, User>)
      requires i < |realms|
      modifies this`realms
      ensures realms == old(realms)[i := old(realms)[i].(users := users)]
    {
      realms := realms[i := realms[i].(users := users)];
    }
  }
}
