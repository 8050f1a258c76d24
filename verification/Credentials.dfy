/** pkg/common/credentials.go: key files that live from the making of credentials to their deletion. */
module Credentials {
  import opened Bytes
  import opened Wrappers

  /** The random part of a temporary file name. */
  type FileName = nat

  datatype Credentials = Credentials(userName: Str, keyFile: FileName)

  datatype CredentialsError = SecretEmpty | MissingId | MissingKey | StoreFailed

  /** The call of storeKey that fails, if one does; a name that is taken fails the first. */
  datatype Fault = NoFault | CreateFails | WriteFails | CloseFails

  const ADMIN_NAME: Str := Ascii("adminName")
  const ADMIN_SECRET_KEY: Str := Ascii("adminSecretKey")

  /** The user and key found in a secret: the user may be empty, the key may not. */
  function ReadSecret(idField: Str, keyField: Str, secrets: map<Str, Str>): Result<(Str, Str), CredentialsError> {
    if secrets == map[] then Err(SecretEmpty)
    else if idField !in secrets then Err(MissingId)
    else if keyField !in secrets || secrets[keyField] == [] then Err(MissingKey)
    else Ok((secrets[idField], secrets[keyField]))
  }

  /** Which of its errors a secret gives: it is empty, or names no user, or no key, or an empty one. */
  lemma ReadSecretIs(idField: Str, keyField: Str, secrets: map<Str, Str>)
    ensures var r := ReadSecret(idField, keyField, secrets);
            && (r.Ok? <==> idField in secrets && keyField in secrets && secrets[keyField] != [])
            && (r.Ok? ==> r.value == (secrets[idField], secrets[keyField]))
            && (r == Err(SecretEmpty) <==> |secrets| == 0)
            && (r == Err(MissingId) <==> |secrets| > 0 && idField !in secrets)
            && (r == Err(MissingKey) <==> idField in secrets && (keyField in secrets ==> secrets[keyField] == []))
  {
    assert |secrets| == 0 <==> secrets == map[];
  }

  /** A secret from which admin credentials can be made. */
  predicate UsableSecret(secrets: map<Str, Str>) {
    ADMIN_NAME in secrets && ADMIN_SECRET_KEY in secrets && secrets[ADMIN_SECRET_KEY] != []
  }

  lemma AdminIff(secrets: map<Str, Str>, file: FileName, stored: bool)
    ensures Admin(secrets, file, stored).Ok? <==> UsableSecret(secrets) && stored
    ensures Admin(secrets, file, stored).Ok? ==> Admin(secrets, file, stored).value == Credentials(secrets[ADMIN_NAME], file)
  {
    ReadSecretIs(ADMIN_NAME, ADMIN_SECRET_KEY, secrets);
  }

  /** Credentials from an admin secret, when the key is stored in the given file. */
  function Admin(secrets: map<Str, Str>, file: FileName, stored: bool): Result<Credentials, CredentialsError> {
    match ReadSecret(ADMIN_NAME, ADMIN_SECRET_KEY, secrets)
    case Err(e) => Err(e)
    case Ok(found) => if stored then Ok(Credentials(found.0, file)) else Err(StoreFailed)
  }

  class KeyFiles {
    var files: map<FileName, Str>

    constructor ()
      ensures files == map[]
    {
      files := map[];
    }

    /** storeKey: whichever call fails, no file is left behind. */
    method StoreKey(key: Str, name: FileName, fault: Fault) returns (r: Option<FileName>)
      modifies this
      ensures r == if fault == NoFault && name !in old(files) then Some(name) else None
      ensures files == if r.Some? then old(files)[name := key] else old(files)
    {
      if fault == CreateFails || name in files { return None; }
      files := files[name := []];
      if fault == WriteFails {
        files := files - {name};
        return None;
      }
      files := files[name := key];
      if fault == CloseFails {
        files := files - {name};
        return None;
      }
      return Some(name);
    }

    method NewCredentialsFromSecret(idField: Str, keyField: Str, secrets: map<Str, Str>, name: FileName, fault: Fault)
      returns (r: Result<Credentials, CredentialsError>)
      modifies this
      ensures match ReadSecret(idField, keyField, secrets)
              case Err(e) => r == Err(e) && files == old(files)
              case Ok(found) =>
                if fault == NoFault && name !in old(files)
                then r == Ok(Credentials(found.0, name)) && files == old(files)[name := found.1]
                else r == Err(StoreFailed) && files == old(files)
    {
      if secrets == map[] { return Err(SecretEmpty); }
      if idField !in secrets { return Err(MissingId); }
      var userName := secrets[idField];
      var key := if keyField in secrets then secrets[keyField] else [];
      if key == [] { return Err(MissingKey); }
      var keyFile := StoreKey(key, name, fault);
      if keyFile.None? { return Err(StoreFailed); }
      return Ok(Credentials(userName, keyFile.value));
    }

    method NewAdminCredentials(secrets: map<Str, Str>, name: FileName, fault: Fault)
      returns (r: Result<Credentials, CredentialsError>)
      modifies this
      ensures r == Admin(secrets, name, fault == NoFault && name !in old(files))
      ensures files.Keys == if r.Ok? then old(files).Keys + {name} else old(files).Keys
      ensures r.Ok? ==> files[name] == secrets[ADMIN_SECRET_KEY] && files - {name} == old(files)
    {
      r := NewCredentialsFromSecret(ADMIN_NAME, ADMIN_SECRET_KEY, secrets, name, fault);
    }

    method DeleteCredentials(cr: Credentials)
      modifies this
      ensures files == old(files) - {cr.keyFile}
    {
      files := files - {cr.keyFile};
    }
  }
}
