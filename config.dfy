/**
 * The settings validator (`Settings.set_provider_folders` in src/config.py)
 * and the masking of secret settings when they are logged (`get_settings`).
 * The environment is a record of optional strings; whether the token file
 * exists is a parameter.
 */
module Config {
  import opened Wrappers
  import opened Strings

  /** The settings read from the environment that the validator looks at. */
  datatype Env = Env(
    storageProvider: string,
    dropboxAppKey: Option<string>,
    dropboxAppSecret: Option<string>,
    dropboxRefreshTokenEnv: Option<string>,
    dropboxSourceDir: Option<string>,
    dropboxDestDir: Option<string>,
    dropboxFailedDir: Option<string>,
    gdriveCredentialsJson: Option<string>,
    gdriveTokenJson: Option<string>,
    gdriveSourceFolderId: Option<string>,
    gdriveDestFolderId: Option<string>,
    gdriveFailedFolderId: Option<string>)

  /** `SRC_FOLDER`, `DST_FOLDER`, `FAILED_FOLDER`. */
  datatype Folders = Folders(src: Option<string>, dst: Option<string>, failed: Option<string>)

  /** The `ValueError` the validator raises, one per rule. */
  datatype ConfigError =
    | MissingAppKey
    | MissingAppSecret
    | MissingSourceDir
    | MissingDestFolder
    | MissingFailedFolder
    | IncompleteGoogleDrive
    | InvalidProvider

  /** The folders the validator leaves, the error it raises, and whether it warned about the token. */
  datatype Validation = Validation(folders: Folders, error: Option<ConfigError>, tokenWarning: bool)

  predicate DropboxComplete(env: Env) {
    && Truthy(env.dropboxAppKey) && Truthy(env.dropboxAppSecret)
    && env.dropboxSourceDir.Some? && Truthy(env.dropboxDestDir) && Truthy(env.dropboxFailedDir)
  }

  predicate DriveComplete(env: Env) {
    && Truthy(env.gdriveCredentialsJson) && Truthy(env.gdriveTokenJson)
    && Truthy(env.gdriveSourceFolderId) && Truthy(env.gdriveDestFolderId) && Truthy(env.gdriveFailedFolderId)
  }

  /**
   * `set_provider_folders`: the provider's folders are copied first, then
   * checked rule by rule; `initial` are the folder settings before it runs.
   */
  function Validate(env: Env, initial: Folders, tokenFileExists: bool): (v: Validation)
    ensures v.error == None <==>
              (env.storageProvider == "dropbox" && DropboxComplete(env))
              || (env.storageProvider == "gdrive" && DriveComplete(env))
    ensures env.storageProvider == "dropbox" ==>
              v.folders == Folders(env.dropboxSourceDir, env.dropboxDestDir, env.dropboxFailedDir)
    ensures env.storageProvider == "gdrive" ==>
              v.folders == Folders(env.gdriveSourceFolderId, env.gdriveDestFolderId, env.gdriveFailedFolderId)
    ensures env.storageProvider !in {"dropbox", "gdrive"} ==>
              v.folders == initial && v.error == Some(InvalidProvider)
    ensures v.tokenWarning <==>
              env.storageProvider == "dropbox" && v.error == None
              && !(Truthy(env.dropboxRefreshTokenEnv) || tokenFileExists)
  {
    if env.storageProvider == "dropbox" then
      var folders := Folders(env.dropboxSourceDir, env.dropboxDestDir, env.dropboxFailedDir);
      var error :=
        if !Truthy(env.dropboxAppKey) then Some(MissingAppKey)
        else if !Truthy(env.dropboxAppSecret) then Some(MissingAppSecret)
        else if env.dropboxSourceDir.None? then Some(MissingSourceDir)
        else if !Truthy(folders.dst) then Some(MissingDestFolder)
        else if !Truthy(folders.failed) then Some(MissingFailedFolder)
        else None;
      Validation(folders, error, error == None && !(Truthy(env.dropboxRefreshTokenEnv) || tokenFileExists))
    else if env.storageProvider == "gdrive" then
      var folders := Folders(env.gdriveSourceFolderId, env.gdriveDestFolderId, env.gdriveFailedFolderId);
      Validation(folders, if DriveComplete(env) then None else Some(IncompleteGoogleDrive), false)
    else
      Validation(initial, Some(InvalidProvider), false)
  }

  /** The Dropbox source may be "" (the root) but not absent. */
  lemma DropboxSourceMayBeRoot(env: Env, initial: Folders, tokenFileExists: bool)
    requires env.storageProvider == "dropbox"
    requires Truthy(env.dropboxAppKey) && Truthy(env.dropboxAppSecret)
    requires Truthy(env.dropboxDestDir) && Truthy(env.dropboxFailedDir)
    ensures Validate(env.(dropboxSourceDir := Some("")), initial, tokenFileExists).error == None
    ensures Validate(env.(dropboxSourceDir := None), initial, tokenFileExists).error == Some(MissingSourceDir)
  {
  }

  /** The Dropbox rules are checked in order: the first one broken is the error raised. */
  lemma DropboxRuleOrder(env: Env, initial: Folders, tokenFileExists: bool)
    requires env.storageProvider == "dropbox"
    ensures var e := Validate(env, initial, tokenFileExists).error;
            && (!Truthy(env.dropboxAppKey) ==> e == Some(MissingAppKey))
            && (Truthy(env.dropboxAppKey) && !Truthy(env.dropboxAppSecret) ==> e == Some(MissingAppSecret))
            && ((Truthy(env.dropboxAppKey) && Truthy(env.dropboxAppSecret) && env.dropboxSourceDir.None?)
                ==> e == Some(MissingSourceDir))
            && ((Truthy(env.dropboxAppKey) && Truthy(env.dropboxAppSecret) && env.dropboxSourceDir.Some?
                 && !Truthy(env.dropboxDestDir))
                ==> e == Some(MissingDestFolder))
            && ((Truthy(env.dropboxAppKey) && Truthy(env.dropboxAppSecret) && env.dropboxSourceDir.Some?
                 && Truthy(env.dropboxDestDir) && !Truthy(env.dropboxFailedDir))
                ==> e == Some(MissingFailedFolder))
  {
  }

  /** A missing refresh token never decides acceptance; it only warns. */
  lemma TokenOnlyWarns(env: Env, initial: Folders, token: Option<string>, fileExists: bool, otherFileExists: bool)
    ensures Validate(env.(dropboxRefreshTokenEnv := token), initial, fileExists).error
            == Validate(env, initial, otherFileExists).error
    ensures Validate(env.(dropboxRefreshTokenEnv := token), initial, fileExists).folders
            == Validate(env, initial, otherFileExists).folders
  {
  }

  // ------------------------------------------------------------ masking

  const Mask := "**********"

  /** A setting whose lower-cased name contains "key", "secret" or "token" is logged masked. */
  predicate IsSecretName(name: string) {
    Contains(Lower(name), "key") || Contains(Lower(name), "secret") || Contains(Lower(name), "token")
  }

  /**
   * The Drive OAuth client settings carry the client secret, but no mask word
   * occurs in their name, so `get_settings` logs them in clear.
   */
  lemma CredentialsLoggedInClear(name: string)
    requires name == "GDRIVE_CREDENTIALS_JSON"
    ensures !IsSecretName(name)
  {
    CredentialsLackWord(name, "key", 0, 'k', 'e');
    CredentialsLackWord(name, "secret", 1, 'e', 'c');
    CredentialsLackWord(name, "token", 2, 'k', 'e');
  }

  lemma CredentialsLackWord(name: string, word: string, k: nat, a: char, b: char)
    requires name == "GDRIVE_CREDENTIALS_JSON"
    requires k + 1 < |word| && word[k] == a && word[k + 1] == b
    requires (a, b) == ('k', 'e') || (a, b) == ('e', 'c')
    ensures !Contains(Lower(name), word)
  {
    LoweredLacksPair(name, word, k, a, b);
  }

  /** A name in which a, b never stand side by side once lower-cased contains no word holding "ab". */
  lemma LoweredLacksPair(name: string, word: string, k: nat, a: char, b: char)
    requires k + 1 < |word| && word[k] == a && word[k + 1] == b
    requires forall i :: 0 <= i < |name| - 1 ==> !(LowerChar(name[i]) == a && LowerChar(name[i + 1]) == b)
    ensures !Contains(Lower(name), word)
  {
    PairAbsent(Lower(name), word, k, a, b);
  }

  /** The names `get_settings` evidently means to mask: the mask words, and the Drive client credentials. */
  predicate IsSensitiveName(name: string) {
    IsSecretName(name) || Contains(Lower(name), "credentials")
  }

  /** The corrected test masks every name the written one does, and the Drive client credentials as well. */
  lemma SensitiveNamesIncludeCredentials(name: string)
    ensures IsSecretName(name) ==> IsSensitiveName(name)
    ensures IsSensitiveName("GDRIVE_CREDENTIALS_JSON")
  {
    ContainsLowered("GDRIVE_CREDENTIALS_JSON", "credentials", 7);
  }

  /** The lines `get_settings` logs for a settings dump, as (name, shown value) pairs. */
  method LoggedSettings(dump: seq<(string, string)>) returns (lines: seq<(string, string)>)
    ensures |lines| == |dump|
    ensures forall i :: 0 <= i < |dump| ==> lines[i].0 == dump[i].0
    ensures forall i :: 0 <= i < |dump| && IsSecretName(dump[i].0) ==> lines[i].1 == Mask
    ensures forall i :: 0 <= i < |dump| && !IsSecretName(dump[i].0) ==> lines[i].1 == dump[i].1
  {
    lines := [];
    var i := 0;
    while i < |dump|
      invariant i <= |dump| && |lines| == i
      invariant forall j :: 0 <= j < i ==> lines[j].0 == dump[j].0
      invariant forall j :: 0 <= j < i ==> lines[j].1 == (if IsSecretName(dump[j].0) then Mask else dump[j].1)
    {
      var (key, value) := dump[i];
      if IsSecretName(key) {
        lines := lines + [(key, Mask)];
      } else {
        lines := lines + [(key, value)];
      }
      i := i + 1;
    }
  }

  /** A word spelled, case aside, at position `at` of a name occurs in the lowered name. */
  lemma ContainsLowered(name: string, word: string, at: nat)
    requires at + |word| <= |name|
    requires forall k :: 0 <= k < |word| ==> LowerChar(name[at + k]) == word[k]
    ensures Contains(Lower(name), word)
  {
    var l := Lower(name);
    assert l[at..at + |word|] == word;
    OccurrenceContains(l, word, at);
  }

  /** The API key, the app secret and the two tokens are logged masked. */
  lemma SecretSettingsAreMasked(name: string)
    requires name == "OPENAI_API_KEY" || name == "DROPBOX_APP_SECRET"
             || name == "DROPBOX_REFRESH_TOKEN_ENV" || name == "GDRIVE_TOKEN_JSON"
    ensures IsSecretName(name)
  {
    if name == "OPENAI_API_KEY" {
      ContainsLowered(name, "key", 11);
    } else if name == "DROPBOX_APP_SECRET" {
      ContainsLowered(name, "secret", 12);
    } else if name == "DROPBOX_REFRESH_TOKEN_ENV" {
      ContainsLowered(name, "token", 16);
    } else {
      ContainsLowered(name, "token", 7);
    }
  }

  // ------------------------------------------------------------ the settings object

  class Settings {
    const env: Env
    var srcFolder: Option<string>
    var dstFolder: Option<string>
    var failedFolder: Option<string>

    constructor(env: Env, initial: Folders)
      ensures this.env == env && Folders(srcFolder, dstFolder, failedFolder) == initial
    {
      this.env := env;
      srcFolder, dstFolder, failedFolder := initial.src, initial.dst, initial.failed;
    }

    /** `set_provider_folders`: assigns the three folders, then checks them; the folders stay set when it raises. */
    method SetProviderFolders(tokenFileExists: bool) returns (err: Option<ConfigError>, warned: bool)
      modifies this
      ensures var v := Validate(env, old(Folders(srcFolder, dstFolder, failedFolder)), tokenFileExists);
              Folders(srcFolder, dstFolder, failedFolder) == v.folders && err == v.error && warned == v.tokenWarning
    {
      warned := false;
      if env.storageProvider == "dropbox" {
        srcFolder := env.dropboxSourceDir;
        dstFolder := env.dropboxDestDir;
        failedFolder := env.dropboxFailedDir;
        if !Truthy(env.dropboxAppKey) {
          return Some(MissingAppKey), false;
        }
        if !Truthy(env.dropboxAppSecret) {
          return Some(MissingAppSecret), false;
        }
        if env.dropboxSourceDir.None? {
          return Some(MissingSourceDir), false;
        }
        if !Truthy(dstFolder) {
          return Some(MissingDestFolder), false;
        }
        if !Truthy(failedFolder) {
          return Some(MissingFailedFolder), false;
        }
        if !(Truthy(env.dropboxRefreshTokenEnv) || tokenFileExists) {
          warned := true;
        }
        err := None;
      } else if env.storageProvider == "gdrive" {
        srcFolder := env.gdriveSourceFolderId;
        dstFolder := env.gdriveDestFolderId;
        failedFolder := env.gdriveFailedFolderId;
        if !(Truthy(env.gdriveCredentialsJson) && Truthy(env.gdriveTokenJson)
             && Truthy(srcFolder) && Truthy(dstFolder) && Truthy(failedFolder)) {
          return Some(IncompleteGoogleDrive), false;
        }
        err := None;
      } else {
        err := Some(InvalidProvider);
      }
    }
  }
}
