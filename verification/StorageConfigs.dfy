/** Storage configurations: validation, redaction, and merging an edit. */
module StorageConfigs {
  import opened Wrappers

  datatype Kind = Local | S3 | Webdav | GoogleDrive

  datatype S3Config = S3Config(endpoint: string, region: string, bucket: string, accessKeyId: string,
                               secretAccessKey: string, isPathStyle: bool)
  datatype WebdavConfig = WebdavConfig(url: string, username: string, password: string, rootPath: string)
  datatype DriveConfig = DriveConfig(clientId: string, clientSecret: string, rootFolderId: string, refreshToken: string)

  datatype Config = Config(s3: Option<S3Config>, webdav: Option<WebdavConfig>, drive: Option<DriveConfig>)

  const NoConfig := Config(None, None, None)

  function KindOfConfig(c: Config): Option<Kind> {
    var kinds := (if c.s3.Some? then [S3] else []) + (if c.webdav.Some? then [Webdav] else [])
               + (if c.drive.Some? then [GoogleDrive] else []);
    if |kinds| != 1 then None else Some(kinds[0])
  }

  function Validate(c: Config): (r: Option<Kind>)
    ensures r.Some? ==> r == KindOfConfig(c)
  {
    match KindOfConfig(c)
    case None => None
    case Some(kind) =>
      var valid :=
        match kind
        case Local => false
        case S3 =>
          && c.s3.value.endpoint != "" && c.s3.value.bucket != "" && c.s3.value.accessKeyId != ""
          && c.s3.value.secretAccessKey != ""
        case Webdav => c.webdav.value.url != ""
        case GoogleDrive => c.drive.value.clientId != "" && c.drive.value.clientSecret != "";
      if valid then Some(kind) else None
  }

  predicate Connected(kind: Kind, c: Config) {
    kind != GoogleDrive || (c.drive.Some? && c.drive.value.refreshToken != "")
  }

  function Redact(c: Config): Config {
    Config(if c.s3.Some? then Some(c.s3.value.(secretAccessKey := "")) else None,
           if c.webdav.Some? then Some(c.webdav.value.(password := "")) else None,
           if c.drive.Some? then Some(c.drive.value.(clientSecret := "", refreshToken := "")) else None)
  }

  function MergeDrive(stored: Option<DriveConfig>, incoming: DriveConfig): DriveConfig {
    if stored.None? then incoming.(refreshToken := "")
    else if incoming.clientId != stored.value.clientId then incoming.(refreshToken := "")
    else
      var secret := if incoming.clientSecret == "" then stored.value.clientSecret else incoming.clientSecret;
      incoming.(clientSecret := secret, refreshToken := stored.value.refreshToken)
  }

  function Merge(kind: Kind, stored: Config, incoming: Config): Option<Config> {
    if KindOfConfig(incoming) != Some(kind) then None
    else
      var merged :=
        match kind
        case Local => NoConfig
        case S3 =>
          var c := incoming.s3.value;
          var keep := c.secretAccessKey == "" && stored.s3.Some?;
          NoConfig.(s3 := Some(if keep then c.(secretAccessKey := stored.s3.value.secretAccessKey) else c))
        case Webdav =>
          var c := incoming.webdav.value;
          var keep := c.password == "" && stored.webdav.Some?;
          NoConfig.(webdav := Some(if keep then c.(password := stored.webdav.value.password) else c))
        case GoogleDrive => NoConfig.(drive := Some(MergeDrive(stored.drive, incoming.drive.value)));
      if Validate(merged).Some? then Some(merged) else None
  }

  // ---- Properties --------------------------------------------------------------

  /** Exactly this kind's part is there. */
  predicate HasOnly(c: Config, kind: Kind) {
    && kind != Local
    && (c.s3.Some? <==> kind == S3) && (c.webdav.Some? <==> kind == Webdav) && (c.drive.Some? <==> kind == GoogleDrive)
  }

  /** A valid config, and its kind, field by field. */
  lemma ValidIff(c: Config, kind: Kind)
    ensures Validate(c) == Some(kind) <==>
              && HasOnly(c, kind)
              && (c.s3.Some? ==> && c.s3.value.endpoint != "" && c.s3.value.bucket != ""
                                 && c.s3.value.accessKeyId != "" && c.s3.value.secretAccessKey != "")
              && (c.webdav.Some? ==> c.webdav.value.url != "")
              && (c.drive.Some? ==> c.drive.value.clientId != "" && c.drive.value.clientSecret != "")
  {
  }

  /** A secret left empty in the form keeps the stored one, if there is one. */
  function SecretAfter(incoming: string, stored: Option<string>): string {
    if incoming != "" || stored.None? then incoming else stored.value
  }

  /** The stored Drive config, if it is of the same client. */
  function SameClient(stored: Config, clientId: string): Option<DriveConfig> {
    if stored.drive.Some? && stored.drive.value.clientId == clientId then stored.drive else None
  }

  function StoredSecret(kind: Kind, stored: Config, incoming: Config): Option<string>
    requires HasOnly(incoming, kind)
  {
    match kind
    case S3 => if stored.s3.Some? then Some(stored.s3.value.secretAccessKey) else None
    case Webdav => if stored.webdav.Some? then Some(stored.webdav.value.password) else None
    case GoogleDrive =>
      var same := SameClient(stored, incoming.drive.value.clientId);
      if same.Some? then Some(same.value.clientSecret) else None
  }

  /** An edit is accepted when the form has the storage's kind and its required
      fields, a secret only if none is stored. */
  predicate Editable(kind: Kind, stored: Config, incoming: Config) {
    && HasOnly(incoming, kind)
    && var secret := StoredSecret(kind, stored, incoming);
       && (kind == S3 ==>
             && incoming.s3.value.endpoint != "" && incoming.s3.value.bucket != ""
             && incoming.s3.value.accessKeyId != ""
             && (incoming.s3.value.secretAccessKey != "" || (secret.Some? && secret.value != "")))
       && (kind == Webdav ==> incoming.webdav.value.url != "")
       && (kind == GoogleDrive ==>
             && incoming.drive.value.clientId != ""
             && (incoming.drive.value.clientSecret != "" || (secret.Some? && secret.value != "")))
  }

  /** The accepted edit: everything as in the form, but for the secrets it
      leaves empty and the refresh token, which only the same client keeps. */
  predicate Edited(kind: Kind, stored: Config, incoming: Config, merged: Config)
    requires HasOnly(incoming, kind)
  {
    var secret := StoredSecret(kind, stored, incoming);
    && HasOnly(merged, kind) && SameButSecrets(merged, incoming)
    && (kind == S3 ==>
          merged.s3.value.secretAccessKey == SecretAfter(incoming.s3.value.secretAccessKey, secret))
    && (kind == Webdav ==> merged.webdav.value.password == SecretAfter(incoming.webdav.value.password, secret))
    && (kind == GoogleDrive ==>
          var same := SameClient(stored, incoming.drive.value.clientId);
          && merged.drive.value.clientSecret == SecretAfter(incoming.drive.value.clientSecret, secret)
          && merged.drive.value.refreshToken == if same.Some? then same.value.refreshToken else "")
  }

  /** An edit takes effect, for every kind; and exactly when. */
  lemma MergeEdits(kind: Kind, stored: Config, incoming: Config)
    ensures var merged := Merge(kind, stored, incoming);
            && (merged.Some? <==> Editable(kind, stored, incoming))
            && (merged.Some? ==> Edited(kind, stored, incoming, merged.value))
  {
    if HasOnly(incoming, kind) && kind == GoogleDrive && stored.drive.Some? {
      assert KindOfConfig(incoming) == Some(GoogleDrive);
    }
  }

  /** Saving what the form shows loses nothing, for every valid stored config. */
  lemma EditRedacted(kind: Kind, stored: Config)
    requires Validate(stored) == Some(kind)
    ensures Merge(kind, stored, Redact(stored)) == Some(stored)
  {
  }

  /** A merge that succeeds is valid and of the storage's kind. */
  lemma MergeValid(kind: Kind, stored: Config, incoming: Config)
    requires Merge(kind, stored, incoming).Some?
    ensures Validate(Merge(kind, stored, incoming).value) == Some(kind)
  {
  }

  /** Everything but the secrets, field by field. */
  predicate SameButSecrets(a: Config, b: Config) {
    && a.s3.Some? == b.s3.Some? && a.webdav.Some? == b.webdav.Some? && a.drive.Some? == b.drive.Some?
    && (a.s3.Some? ==> a.s3.value.endpoint == b.s3.value.endpoint && a.s3.value.region == b.s3.value.region
                       && a.s3.value.bucket == b.s3.value.bucket && a.s3.value.accessKeyId == b.s3.value.accessKeyId
                       && a.s3.value.isPathStyle == b.s3.value.isPathStyle)
    && (a.webdav.Some? ==>
          && a.webdav.value.url == b.webdav.value.url && a.webdav.value.username == b.webdav.value.username
          && a.webdav.value.rootPath == b.webdav.value.rootPath)
    && (a.drive.Some? ==>
          && a.drive.value.clientId == b.drive.value.clientId
          && a.drive.value.rootFolderId == b.drive.value.rootFolderId)
  }

  /** What a listing shows tells two configs apart exactly when more than their
      secrets differs. */
  lemma RedactShowsNoSecret(a: Config, b: Config)
    ensures Redact(a) == Redact(b) <==> SameButSecrets(a, b)
  {
  }

  /** An edit of a Google Drive storage keeps it connected exactly when it was
      and the client id stays: a new client starts without a refresh token. */
  lemma EditKeepsConnection(stored: Config, incoming: Config)
    requires Validate(stored) == Some(GoogleDrive) && Merge(GoogleDrive, stored, incoming).Some?
    ensures incoming.drive.Some? && stored.drive.Some?
    ensures Connected(GoogleDrive, Merge(GoogleDrive, stored, incoming).value)
       <==> Connected(GoogleDrive, stored) && incoming.drive.value.clientId == stored.drive.value.clientId
  {
  }
}
