/**
 * The REST endpoints around the import and export code: who may call them,
 * which realm a bearer token names, and how the import endpoint turns the
 * import's errors into responses. Authentication itself (the token's
 * signature, the host's bearer-token check) is an input: `None` for a
 * rejected token, otherwise the facts `AdminAuth` carries.
 */
module Endpoints {
  import opened Wrappers
  import opened Keycloak
  import opened Representations
  import opened Directory
  import ConflictImport

  // ---------------------------------------------------------------------------
  // The realm named by a token

  /** `s.lastIndexOf(c)`: the last position holding `c`, or -1. */
  function LastIndexOf(s: string, c: char): (r: int)
    ensures -1 <= r < |s|
    ensures r >= 0 ==> s[r] == c
    ensures forall k :: r < k < |s| ==> s[k] != c
  {
    if |s| == 0 then -1
    else if s[|s| - 1] == c then |s| - 1
    else LastIndexOf(s[..|s| - 1], c)
  }

  /**
   * The realm name of a token's issuer: the text after its last '/', or the
   * whole issuer when it has none. It is the longest suffix free of '/'.
   */
  function IssuerRealmName(issuer: string): (r: string)
    ensures '/' !in r
    ensures |r| <= |issuer| && issuer[|issuer| - |r|..] == r
    ensures |r| < |issuer| ==> issuer[|issuer| - |r| - 1] == '/'
  {
    var cut := LastIndexOf(issuer, '/') + 1;
    var r := issuer[cut..];
    assert forall j :: 0 <= j < |r| ==> r[j] == issuer[cut + j];
    r
  }

  /** An issuer URL ending in `/<name>` names the realm `name`; an issuer without '/' names itself. */
  lemma IssuerOfRealmUrl(base: string, name: string)
    requires '/' !in name
    ensures IssuerRealmName(base + "/" + name) == name
    ensures IssuerRealmName(name) == name
  {
    var issuer := base + "/" + name;
    assert issuer[|base|] == '/';
    assert issuer[|base| + 1..] == name;
  }

  /** The authenticated token's realm, looked up by the issuer's realm name; an unknown realm is rejected. */
  function TokenRealm(realms: seq<Realm>, issuer: string): (r: Result<nat, Error>)
    ensures r.Failure? <==> IndexOfName(realms, IssuerRealmName(issuer)).None?
    ensures r.Failure? ==> r.error == Unauthorized
    ensures r.Success? ==> r.value < |realms| && realms[r.value].name == IssuerRealmName(issuer)
  {
    match IndexOfName(realms, IssuerRealmName(issuer))
    case None => Failure(Unauthorized)
    case Some(i) => Success(i)
  }

  // ---------------------------------------------------------------------------
  // The import/export resource of the legacy module

  /** `isMasterAdmin`: a token of the administration realm whose holder has the realm `admin` role. */
  predicate IsMasterAdmin(auth: AdminAuth, adminRealm: string) {
    auth.realmName == adminRealm && auth.HasRealmRole(ADMIN)
  }

  /**
   * The four-way export gate is strictly stronger than `isMasterAdmin`: a
   * master admin who may not manage the target realm passes one and not
   * the other.
   */
  lemma ExportGateStricter(auth: AdminAuth, adminRealm: string)
    ensures ExportAllowed(auth, adminRealm) ==> IsMasterAdmin(auth, adminRealm)
    ensures var cannotManage := AdminAuth("id", adminRealm, true, {ADMIN}, false);
      IsMasterAdmin(cannotManage, adminRealm) && !ExportAllowed(cannotManage, adminRealm)
  {
  }

  /**
   * `canImportRealm`: importing over an existing realm needs a master admin
   * calling through that realm's own URL; creating a new realm needs the
   * `create-realm` role in the administration realm, whatever the URL.
   */
  function CanImportRealm(realms: seq<Realm>, auth: AdminAuth, rep: RealmRep, urlRealmName: string, adminRealm: string)
    : (r: bool)
    ensures r ==> auth.realmName == adminRealm
    ensures r && IndexOfName(realms, rep.realm).Some? ==> auth.HasRealmRole(ADMIN) && urlRealmName == rep.realm
    ensures r && IndexOfName(realms, rep.realm).None? ==> auth.HasRealmRole(CREATE_REALM)
    ensures IsMasterAdmin(auth, adminRealm) && auth.HasRealmRole(CREATE_REALM) && urlRealmName == rep.realm ==> r
  {
    if IndexOfName(realms, rep.realm).Some? then
      IsMasterAdmin(auth, adminRealm) && urlRealmName == rep.realm
    else
      adminRealm == auth.realmName && auth.HasRealmRole(CREATE_REALM)
  }

  /** Whether a new realm may be created does not depend on the URL it is posted to. */
  lemma NewRealmIgnoresUrl(realms: seq<Realm>, auth: AdminAuth, rep: RealmRep, url1: string, url2: string, adminRealm: string)
    requires IndexOfName(realms, rep.realm).None?
    ensures CanImportRealm(realms, auth, rep, url1, adminRealm) == CanImportRealm(realms, auth, rep, url2, adminRealm)
  {
  }

  /**
   * `exportRealm` of the import/export resource: a missing URL realm is not
   * found before the token is even looked at; then a rejected token, then
   * anyone but a master admin is refused.
   */
  function ExportDecision(realms: seq<Realm>, urlRealmName: string, auth: Option<AdminAuth>, adminRealm: string)
    : (r: Result<nat, Error>)
    ensures IndexOfName(realms, urlRealmName).None? ==> r == Failure(NotFound)
    ensures r.Success? <==> IndexOfName(realms, urlRealmName).Some? && auth.Some? && IsMasterAdmin(auth.value, adminRealm)
    ensures r.Success? ==> r.value < |realms| && realms[r.value].name == urlRealmName
    ensures r.Failure? && IndexOfName(realms, urlRealmName).Some? ==>
              r.error == (if auth.None? then Unauthorized else Forbidden)
  {
    match IndexOfName(realms, urlRealmName)
    case None => Failure(NotFound)
    case Some(i) =>
      if auth.None? then Failure(Unauthorized)
      else if IsMasterAdmin(auth.value, adminRealm) then Success(i)
      else Failure(Forbidden)
  }

  /**
   * `importRealm` of the import/export resource: a missing URL realm is not
   * found, a rejected token unauthorized, and an import `canImportRealm`
   * refuses forbidden. Otherwise the host's import runs with the configured
   * strategy, which is the success value.
   */
  function ImportDecision(realms: seq<Realm>, urlRealmName: string, auth: Option<AdminAuth>, rep: RealmRep,
                          adminRealm: string, configured: Strategy): (r: Result<Strategy, Error>)
    ensures IndexOfName(realms, urlRealmName).None? ==> r == Failure(NotFound)
    ensures r.Success? <==>
              IndexOfName(realms, urlRealmName).Some? && auth.Some? &&
              CanImportRealm(realms, auth.value, rep, urlRealmName, adminRealm)
    ensures r.Success? ==> r.value == configured
    ensures r.Failure? && IndexOfName(realms, urlRealmName).Some? ==>
              r.error == (if auth.None? then Unauthorized else Forbidden)
  {
    if IndexOfName(realms, urlRealmName).None? then Failure(NotFound)
    else if auth.None? then Failure(Unauthorized)
    else if CanImportRealm(realms, auth.value, rep, urlRealmName, adminRealm) then Success(configured)
    else Failure(Forbidden)
  }

  // ---------------------------------------------------------------------------
  // The import endpoint of the current module

  /** The responses the import endpoint builds itself. */
  datatype Response =
    | Created(location: string)   // 201 with the new realm's admin URL
    | Conflict(message: string)   // `ErrorResponse.exists`, 409
    | BadRequest(message: string) // `ErrorResponse.error(..., BAD_REQUEST)`, 400

  const CONFLICT_DETECTED := "Conflict detected. See logs for details"
  const POLICY_NOT_MET := "Password policy not met. See logs for details"

  /** The session's transaction, as far as the endpoint touches it. */
  class Transaction {
    var active: bool
    var rollbackOnly: bool

    constructor(active: bool)
      ensures this.active == active && !rollbackOnly
    {
      this.active := active;
      rollbackOnly := false;
    }
  }

  /** A role of a client granted to a user. */
  datatype Grant = Grant(client: string, role: string)

  /** The authenticated user, with the client roles granted to it in order. */
  class Caller {
    var granted: seq<Grant>

    constructor()
      ensures granted == []
    {
      granted := [];
    }
  }

  /** Every role of the list, from one client, in list order. */
  function Grants(client: string, roles: seq<string>): (r: seq<Grant>)
    ensures |r| == |roles|
    ensures forall i :: 0 <= i < |roles| ==> r[i] == Grant(client, roles[i])
  {
    seq(|roles|, i requires 0 <= i < |roles| => Grant(client, roles[i]))
  }

  /**
   * `grantPermissionsToRealmCreator`: a caller holding the realm `admin`
   * role is granted nothing; anyone else gets every role of
   * `ALL_REALM_ROLES` from the new realm's management client. A missing
   * client fails on the first role.
   */
  method GrantPermissionsToRealmCreator(caller: Caller, auth: AdminAuth, masterAdminClient: Option<string>,
                                        allRealmRoles: seq<string>) returns (r: Result<(), Error>)
    modifies caller`granted
    ensures auth.HasRealmRole(ADMIN) ==> r.Success? && caller.granted == old(caller.granted)
    ensures !auth.HasRealmRole(ADMIN) && masterAdminClient.Some? ==>
              r.Success? && caller.granted == old(caller.granted) + Grants(masterAdminClient.value, allRealmRoles)
    ensures !auth.HasRealmRole(ADMIN) && masterAdminClient.None? ==>
              && (r.Failure? <==> |allRealmRoles| > 0)
              && (r.Failure? ==> r.error == NullReference)
              && caller.granted == old(caller.granted)
  {
    if auth.HasRealmRole(ADMIN) {
      return Success(());
    }
    var k := 0;
    while k < |allRealmRoles|
      invariant 0 <= k <= |allRealmRoles|
      invariant masterAdminClient.Some? ==>
                  caller.granted == old(caller.granted) + Grants(masterAdminClient.value, allRealmRoles[..k])
      invariant masterAdminClient.None? ==> k == 0 && caller.granted == old(caller.granted)
    {
      if masterAdminClient.None? {
        return Failure(NullReference);
      }
      assert Grants(masterAdminClient.value, allRealmRoles[..k + 1]) ==
             Grants(masterAdminClient.value, allRealmRoles[..k]) + [Grant(masterAdminClient.value, allRealmRoles[k])];
      caller.granted := caller.granted + [Grant(masterAdminClient.value, allRealmRoles[k])];
      k := k + 1;
    }
    assert allRealmRoles[..k] == allRealmRoles;
    r := Success(());
  }

  /**
   * The `catch` clauses of the import endpoint: a duplicate becomes a
   * conflict response; a password-policy failure marks an active
   * transaction rollback-only and becomes a bad request; any other error
   * propagates.
   */
  method Respond(tx: Transaction, e: Error) returns (r: Result<Response, Error>)
    modifies tx`rollbackOnly
    ensures e == ModelDuplicate ==> r == Success(Conflict(CONFLICT_DETECTED)) && tx.rollbackOnly == old(tx.rollbackOnly)
    ensures e.PasswordPolicyNotMet? ==>
              r == Success(BadRequest(POLICY_NOT_MET)) && tx.rollbackOnly == (old(tx.rollbackOnly) || tx.active)
    ensures e != ModelDuplicate && !e.PasswordPolicyNotMet? ==>
              r == Failure(e) && tx.rollbackOnly == old(tx.rollbackOnly)
  {
    if e == ModelDuplicate {
      r := Success(Conflict(CONFLICT_DETECTED));
    } else if e.PasswordPolicyNotMet? {
      if tx.active {
        tx.rollbackOnly := true;
      }
      r := Success(BadRequest(POLICY_NOT_MET));
    } else {
      r := Failure(e);
    }
  }

  /**
   * With no strategy, a successful import always creates a realm: it is
   * appended, carries the requested name and has its management client.
   */
  lemma CreatedOutcome(realms: seq<Realm>, rep: RealmRep, adminRealm: string)
    ensures var o := ConflictImport.Outcome(realms, rep, None, adminRealm);
      o.Success? ==>
        && o.value.Some?
        && |o.value.value| == |realms| + 1
        && o.value.value[|realms|].name == rep.realm
        && o.value.value[|realms|].masterAdminClient == Some(AdminClientName(rep.realm))
  {
    var bundle := ConflictImport.DetachedBundle(rep);
    assert ConflictImport.Prepared(realms, rep, None, adminRealm) == Some(realms);
    assert bundle.realm == rep.realm;
    var h := HostImport(realms, bundle);
    if h.Success? {
      assert h.value[|realms|] == NewRealm(bundle);
    }
  }

  /**
   * `importRealm` of the current export resource, after authentication
   * (`auth`, `None` for a rejected token) and the host's `requireCreateRealm`
   * check (`mayCreateRealm`). The realm is imported with no strategy, the
   * creator gets the new realm's roles, and the answer is `201 Created` at
   * the realm's admin URL under `realmsUrl`.
   */
  method ImportRealm(store: Store, tx: Transaction, caller: Caller, auth: Option<AdminAuth>, mayCreateRealm: bool,
                     rep: RealmRep, adminRealm: string, allRealmRoles: seq<string>, realmsUrl: string)
    returns (r: Result<Response, Error>)
    modifies store`realms, tx`rollbackOnly, caller`granted
    ensures auth.None? ==> r == Failure(Unauthorized)
    ensures auth.Some? && !mayCreateRealm ==> r == Failure(Forbidden)
    ensures auth.None? || !mayCreateRealm ==>
              store.realms == old(store.realms) && caller.granted == old(caller.granted) &&
              tx.rollbackOnly == old(tx.rollbackOnly)
    ensures auth.Some? && mayCreateRealm ==>
              var o := ConflictImport.Outcome(old(store.realms), rep, None, adminRealm);
              && (o.Failure? && o.error == ModelDuplicate ==> r == Success(Conflict(CONFLICT_DETECTED)))
              && (o.Failure? && o.error.PasswordPolicyNotMet? ==> r == Success(BadRequest(POLICY_NOT_MET)))
              && (o.Failure? && o.error != ModelDuplicate && !o.error.PasswordPolicyNotMet? ==> r == Failure(o.error))
              && (o.Failure? ==> caller.granted == old(caller.granted))
              && tx.rollbackOnly == (old(tx.rollbackOnly) || (o.Failure? && o.error.PasswordPolicyNotMet? && tx.active))
              && (o.Success? ==>
                    && store.realms == o.value.value
                    && r == Success(Created(realmsUrl + "/" + rep.realm))
                    && caller.granted == old(caller.granted) +
                         (if auth.value.HasRealmRole(ADMIN) then [] else Grants(AdminClientName(rep.realm), allRealmRoles)))
  {
    if auth.None? {
      return Failure(Unauthorized);
    }
    if !mayCreateRealm {
      return Failure(Forbidden);
    }
    ghost var realms0 := store.realms;
    CreatedOutcome(realms0, rep, adminRealm);
    var imported := ConflictImport.ImportRealm(store, rep, None, adminRealm);
    if imported.Failure? {
      r := Respond(tx, imported.error);
      return;
    }
    var i := imported.value.value;
    // The new realm always has its management client here, so the grant cannot fail.
    var granted := GrantPermissionsToRealmCreator(caller, auth.value, store.realms[i].masterAdminClient, allRealmRoles);
    r := Success(Created(realmsUrl + "/" + store.realms[i].name));
  }
}
