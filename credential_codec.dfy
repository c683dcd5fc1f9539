/**
 * The credential codec of the legacy credential model: how a wire credential
 * becomes a stored credential on import (the pre-hashed path) and how a stored
 * credential becomes a wire credential on export, with the algorithm
 * migration fix-up and the one-time-password defaults.
 */
module CredentialCodec {
  import opened Wrappers
  import opened Keycloak
  import opened Representations
  import Base64

  /**
   * The host's stored credential. Its numeric parameters are primitive ints
   * that default to 0 when never set; the other fields may be null.
   */
  datatype StorageCredential = StorageCredential(
    id: Option<string>,
    credType: Option<string>,
    device: Option<string>,
    value: Option<string>,
    salt: Option<Base64.Bytes>,
    hashIterations: int,
    counter: int,
    algorithm: Option<string>,
    digits: int,
    period: int,
    createdDate: Option<int>,
    config: Option<Config>)

  /** The two import paths of a credential. */
  datatype Path = Plaintext | Hashed

  /** A credential with a plaintext value is hashed by the host, whatever else it carries. */
  function PathOf(w: WireCredential): Path {
    if w.value.Some? then Plaintext else Hashed
  }

  /**
   * The algorithm stored for a pre-hashed credential: a supplied one is kept,
   * except that a password type carrying the legacy one-time-password
   * algorithm is migrated to pbkdf2; an absent one defaults by type.
   */
  function ResolveAlgorithm(t: Option<string>, supplied: Option<string>): Option<string> {
    if supplied.Some? then
      if IsPasswordLike(t) && supplied.value == HMAC_SHA1 then Some(PBKDF2) else supplied
    else if IsPasswordLike(t) then Some(PBKDF2)
    else if IsOtp(t) then Some(HMAC_SHA1)
    else None
  }

  /**
   * The stored credential that the pre-hashed import path creates, or the
   * error raised when the salt is not valid Base64. Optional parameters are
   * copied only when present; `config` is not imported.
   */
  function DecodeHashed(w: WireCredential): (r: Result<StorageCredential, Error>)
    ensures r.Failure? <==> w.salt.Some? && !Base64.WellFormed(w.salt.value)
    ensures r.Failure? ==> r.error == MalformedSalt
  {
    if w.salt.Some? && Base64.Decode(w.salt.value).None? then Failure(MalformedSalt)
    else
      Success(StorageCredential(
        id := w.id,
        credType := w.credType,
        device := w.device,
        value := w.hashedSaltedValue,
        salt := if w.salt.Some? then Base64.Decode(w.salt.value) else None,
        hashIterations := w.hashIterations.GetOr(0),
        counter := w.counter.GetOr(0),
        algorithm := ResolveAlgorithm(w.credType, w.algorithm),
        digits := if w.digits.Some? then w.digits.value else if IsOtp(w.credType) then 6 else 0,
        period := if w.period.Some? then w.period.value else if w.credType == Some(TOTP) then 30 else 0,
        createdDate := w.createdDate,
        config := None))
  }

  /**
   * The wire credential exported for a stored one: the stored value goes to
   * `hashedSaltedValue`, the salt is Base64-encoded when present, and every
   * other field, the id included, is copied.
   */
  function ExportCredential(c: StorageCredential): WireCredential {
    WireCredential(
      id := c.id,
      credType := c.credType,
      device := c.device,
      value := None,
      hashedSaltedValue := c.value,
      salt := if c.salt.Some? then Some(Base64.Encode(c.salt.value)) else None,
      hashIterations := Some(c.hashIterations),
      counter := Some(c.counter),
      algorithm := c.algorithm,
      digits := Some(c.digits),
      period := Some(c.period),
      createdDate := c.createdDate,
      config := c.config)
  }

  /** A stored credential whose algorithm the import would leave as it is. */
  predicate AlgorithmStable(c: StorageCredential) {
    ResolveAlgorithm(c.credType, c.algorithm) == c.algorithm
  }

  /**
   * The migration fix-up and the defaults, as promised: a password type
   * never ends up with the legacy algorithm, a one-time-password type always
   * gets an algorithm, a supplied algorithm is otherwise kept, and resolving
   * twice changes nothing.
   */
  lemma ResolveAlgorithmProperties(t: Option<string>, supplied: Option<string>)
    ensures IsPasswordLike(t) ==> ResolveAlgorithm(t, supplied) != Some(HMAC_SHA1)
    ensures IsPasswordLike(t) && supplied.None? ==> ResolveAlgorithm(t, supplied) == Some(PBKDF2)
    ensures IsOtp(t) && supplied.None? ==> ResolveAlgorithm(t, supplied) == Some(HMAC_SHA1)
    ensures !IsPasswordLike(t) && !IsOtp(t) && supplied.None? ==> ResolveAlgorithm(t, supplied).None?
    ensures supplied.Some? && !(IsPasswordLike(t) && supplied.value == HMAC_SHA1) ==>
              ResolveAlgorithm(t, supplied) == supplied
    ensures ResolveAlgorithm(t, ResolveAlgorithm(t, supplied)) == ResolveAlgorithm(t, supplied)
  {
  }

  /**
   * The defaults of the pre-hashed path: a one-time-password credential
   * without digits gets 6, a time-based one without a period gets 30, and
   * a password without an algorithm gets pbkdf2.
   */
  lemma DecodeHashedDefaults(w: WireCredential)
    requires DecodeHashed(w).Success?
    ensures IsOtp(w.credType) && w.digits.None? ==> DecodeHashed(w).value.digits == 6
    ensures w.credType == Some(TOTP) && w.period.None? ==> DecodeHashed(w).value.period == 30
    ensures IsPasswordLike(w.credType) && w.algorithm.None? ==> DecodeHashed(w).value.algorithm == Some(PBKDF2)
    ensures w.salt.None? ==> DecodeHashed(w).value.salt.None?
  {
  }

  /**
   * Export then pre-hashed import gives back the stored credential except
   * for `config`, which is exported but not imported, exactly when the
   * algorithm is one the import keeps; otherwise only the algorithm differs.
   */
  lemma ExportThenImport(c: StorageCredential)
    ensures PathOf(ExportCredential(c)) == Hashed
    ensures DecodeHashed(ExportCredential(c)) ==
              Success(c.(config := None, algorithm := ResolveAlgorithm(c.credType, c.algorithm)))
    ensures DecodeHashed(ExportCredential(c)) == Success(c.(config := None)) <==> AlgorithmStable(c)
  {
    if c.salt.Some? {
      Base64.DecodeEncode(c.salt.value);
    }
  }

  /** Whatever the pre-hashed import stores survives another export and import unchanged. */
  lemma ImportIsStable(w: WireCredential)
    requires DecodeHashed(w).Success?
    ensures DecodeHashed(ExportCredential(DecodeHashed(w).value)) == DecodeHashed(w)
  {
    var c := DecodeHashed(w).value;
    ResolveAlgorithmProperties(w.credType, w.algorithm);
    assert AlgorithmStable(c);
    ExportThenImport(c);
  }

  /**
   * Import then export keeps the identity, the hashed value, the salt bytes,
   * every numeric parameter that was supplied and every supplied algorithm
   * that is not migrated.
   */
  lemma ImportThenExport(w: WireCredential)
    requires DecodeHashed(w).Success?
    ensures var e := ExportCredential(DecodeHashed(w).value);
      && e.id == w.id && e.credType == w.credType && e.device == w.device
      && e.value.None? && e.hashedSaltedValue == w.hashedSaltedValue && e.createdDate == w.createdDate
      && (e.salt.Some? <==> w.salt.Some?)
      && (w.salt.Some? ==> Base64.Decode(e.salt.value) == Base64.Decode(w.salt.value))
      && (w.hashIterations.Some? ==> e.hashIterations == w.hashIterations)
      && (w.counter.Some? ==> e.counter == w.counter)
      && (w.digits.Some? ==> e.digits == w.digits)
      && (w.period.Some? ==> e.period == w.period)
      && (w.algorithm.Some? && !(IsPasswordLike(w.credType) && w.algorithm.value == HMAC_SHA1) ==>
            e.algorithm == w.algorithm)
  {
    var c := DecodeHashed(w).value;
    if w.salt.Some? {
      Base64.DecodeEncode(c.salt.value);
    }
  }
}
