/**
 * Names and facts from the Keycloak host that the import/export code relies
 * on: credential type tags, role names, the conflict strategy, the
 * authenticated caller, and the exceptions the code raises or catches.
 */
module Keycloak {
  import opened Wrappers

  // Credential type tags and algorithm names (UserCredentialModel, HmacOTP).
  const PASSWORD := "password"
  const PASSWORD_HISTORY := "password-history"
  const TOTP := "totp"
  const HOTP := "hotp"
  const HMAC_SHA1 := "HmacSHA1"
  /** The password-hash algorithm name that the import writes for password types. */
  const PBKDF2 := "pbkdf2"

  // Realm roles (AdminRoles).
  const ADMIN := "admin"
  const CREATE_REALM := "create-realm"

  /** `PASSWORD.equals(type) || PASSWORD_HISTORY.equals(type)`; a null type is neither. */
  predicate IsPasswordLike(t: Option<string>) {
    t == Some(PASSWORD) || t == Some(PASSWORD_HISTORY)
  }

  /** `UserCredentialModel.isOtp(type)`: time-based or counter-based one-time password. */
  predicate IsOtp(t: Option<string>) {
    t == Some(TOTP) || t == Some(HOTP)
  }

  /** The import strategy; a caller may also pass null, modelled as `None`. */
  datatype Strategy = IgnoreExisting | OverwriteExisting

  /**
   * What `AdminAuth` tells about the authenticated caller once the bearer
   * token has been checked: the realm that issued the token (its id and its
   * name), the realm roles the caller holds, whether that realm defines an
   * `admin` role, and whether the permission evaluator lets the caller
   * manage the realm named in the URL.
   */
  datatype AdminAuth = AdminAuth(
    realmId: string,
    realmName: string,
    realmDefinesAdmin: bool,
    realmRoles: set<string>,
    canManageTarget: bool)
  {
    /** `auth.hasRealmRole(role)` */
    predicate HasRealmRole(role: string) {
      role in realmRoles
    }
  }

  /**
   * The export gate of both export endpoints: the token's realm defines an
   * `admin` role, the caller holds it, the token's realm is the
   * administration realm, and the caller may manage the realm being exported.
   */
  predicate ExportAllowed(auth: AdminAuth, adminRealm: string) {
    && auth.realmDefinesAdmin
    && auth.HasRealmRole(ADMIN)
    && auth.realmName == adminRealm
    && auth.canManageTarget
  }

  /** The exceptions raised or caught by the import/export code. */
  datatype Error =
    | ModelDuplicate                       // ModelDuplicateException from the store
    | PasswordPolicyNotMet(username: string)
    | MalformedSalt                        // RuntimeException wrapping Base64's IOException
    | NullReference                        // NullPointerException on a missing user, list or client
    | UnknownRequiredAction(tag: string)   // the host's enum conversion of a required action
    | DuplicateKey                         // IllegalStateException from Collectors.toMap
    | Forbidden                            // ForbiddenException
    | NotFound                             // NotFoundException
    | Unauthorized                         // a missing, malformed or rejected bearer token
}
