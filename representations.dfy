/**
 * The JSON transfer objects of a realm bundle, as the import/export code sees
 * them after decoding: a realm, its users, and their credentials. Java nulls
 * are `None`. Every credential of a user decodes as the extended credential
 * representation, so one datatype covers both.
 */
module Representations {
  import opened Wrappers

  /** A credential's `config` multimap. */
  type Config = map<string, seq<string>>

  /**
   * A credential on the wire: either a plaintext `value` to be hashed by the
   * host, or a pre-hashed payload (`hashedSaltedValue`, a Base64 `salt`, and
   * the hashing and one-time-password parameters).
   */
  datatype WireCredential = WireCredential(
    id: Option<string>,
    credType: Option<string>,
    device: Option<string>,
    value: Option<string>,
    hashedSaltedValue: Option<string>,
    salt: Option<string>,
    hashIterations: Option<int>,
    counter: Option<int>,
    algorithm: Option<string>,
    digits: Option<int>,
    period: Option<int>,
    createdDate: Option<int>,
    config: Option<Config>)

  /** A user of a realm bundle; `requiredActions` are free-form tags. */
  datatype UserRep = UserRep(
    id: Option<string>,
    username: string,
    credentials: Option<seq<WireCredential>>,
    requiredActions: Option<seq<string>>)

  /** A realm bundle: the realm's id and name and its users. */
  datatype RealmRep = RealmRep(
    id: Option<string>,
    realm: string,
    users: Option<seq<UserRep>>)
}
