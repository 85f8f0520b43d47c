// scripts/validate_env.py: the start-up check of the environment. `main`
// collects errors and warnings condition by condition, prints them and
// exits with 1 when there is an error, or a warning in strict mode. The
// settings are the record of the Config module; the filesystem lookup for
// the SQLite directory is a parameter, and the printed report is left out.
module ValidateEnv {
  import opened Wrappers
  import opened Text
  import opened Config

  /** `is_default_secret`: the stripped, lower-cased secret is one of the default values. */
  predicate IsDefaultSecret(secret: string)
    ensures IsBlank(secret) ==> IsDefaultSecret(secret)
  {
    Lower(Trim(secret)) in DefaultSecretValues
  }

  /** The script's secret test rejects exactly the keys that `has_secure_secret_key` rejects. */
  lemma SecretCheckAgreesWithSettings(secret: string)
    ensures (IsDefaultSecret(secret) || |Trim(secret)| < 32) <==> !HasSecureSecretKey(secret)
  {
  }

  /** One line of the report; `Message` gives its wording. */
  datatype Issue =
    | WeakSecret
    | MissingApiKey
    | PartialSmtp
    | SmtpRequired(env: string)
    | AdminEmailsRequired(env: string)
    | DevTokensExposed(env: string)
    | CorsEmpty
    | SqliteDirectoryMissing(directory: string)
    | SmtpDryRun
    | NoAdminEmails
    | NonSqliteDatabase

  function Message(issue: Issue): string
  {
    match issue
    case WeakSecret => "SECRET_KEY must be set to a non-default value with at least 32 characters."
    case MissingApiKey => "MOCK_MODE=false requires ANTHROPIC_API_KEY."
    case PartialSmtp => "SMTP configuration is partial. Set SMTP_HOST, SMTP_USER, and SMTP_PASSWORD together."
    case SmtpRequired(env) => "SMTP must be configured when APP_ENV=" + env + "."
    case AdminEmailsRequired(env) => "ADMIN_EMAILS must be set when APP_ENV=" + env + "."
    case DevTokensExposed(env) => "EXPOSE_DEV_AUTH_TOKENS cannot be enabled when APP_ENV=" + env + "."
    case CorsEmpty => "CORS_ORIGINS is empty."
    case SqliteDirectoryMissing(directory) => "SQLite directory does not exist: " + directory
    case SmtpDryRun => "SMTP is not configured. Reminder emails will run in dry-run mode."
    case NoAdminEmails => "ADMIN_EMAILS is empty. No automatic admin bootstrap email is configured."
    case NonSqliteDatabase => "Non-SQLite DATABASE_URL detected. Ensure credentials/network are available in your environment."
  }

  /** `has_smtp_any`: one of the four SMTP settings is non-empty. */
  predicate HasSmtpAny(s: Settings)
  {
    Truthy(s.smtpHost) || Truthy(s.smtpUser) || Truthy(s.smtpPassword) || Truthy(s.smtpFrom)
  }

  /** `has_smtp_min`: host, user and password are all non-empty. */
  predicate HasSmtpMin(s: Settings)
  {
    Truthy(s.smtpHost) && Truthy(s.smtpUser) && Truthy(s.smtpPassword)
  }

  /** A key the AI runtime would use: non-blank once stripped. */
  predicate HasKey(key: Option<string>)
  {
    key.Some? && Trim(key.value) != ""
  }

  /**
   * Live mode without a key for either configured provider: the intended
   * form of the script's API-key check. Mock mode never misses a key, and a
   * non-blank key for either provider is enough.
   */
  predicate MissingLiveKey(s: Settings)
    ensures MissingLiveKey(s) ==> !s.mockMode
    ensures HasKey(s.openaiApiKey) || HasKey(s.geminiApiKey) ==> !MissingLiveKey(s)
  {
    !s.mockMode && !HasKey(s.openaiApiKey) && !HasKey(s.geminiApiKey)
  }

  const SqlitePrefix := "sqlite:///"

  /** The filesystem facts the script looks up for a SQLite URL. */
  datatype SqliteDirectory = SqliteDirectory(path: string, exists_: bool)

  /** The conditions `main` tests, evaluated on the settings. */
  datatype Checks = Checks(
    env: string, productionLike: bool, weakSecret: bool, missingLiveKey: bool, smtpAny: bool, smtpMin: bool,
    noAdminEmails: bool, exposesDevTokens: bool, noCorsOrigins: bool, sqliteUrl: bool, directory: SqliteDirectory)

  function ChecksOf(s: Settings, dir: SqliteDirectory): (c: Checks)
    ensures c.env == AppEnvNormalized(s.appEnv) && (c.productionLike <==> IsProductionLikeEnv(s.appEnv))
    ensures c.weakSecret <==> IsDefaultSecret(s.secretKey) || |Trim(s.secretKey)| < 32
    ensures (c.missingLiveKey <==> MissingLiveKey(s)) && (c.smtpAny <==> HasSmtpAny(s)) && (c.smtpMin <==> HasSmtpMin(s))
    ensures c.noAdminEmails <==> AdminEmailList(s.adminEmails) == []
    ensures c.exposesDevTokens <==> ShouldExposeDevAuthTokens(s)
    ensures c.noCorsOrigins <==> CorsOriginsList(s.corsOrigins) == []
    ensures (c.sqliteUrl <==> StartsWith(s.databaseUrl, SqlitePrefix)) && c.directory == dir
  {
    Checks(AppEnvNormalized(s.appEnv), IsProductionLikeEnv(s.appEnv),
           IsDefaultSecret(s.secretKey) || |Trim(s.secretKey)| < 32, MissingLiveKey(s), HasSmtpAny(s), HasSmtpMin(s),
           AdminEmailList(s.adminEmails) == [], ShouldExposeDevAuthTokens(s), CorsOriginsList(s.corsOrigins) == [],
           StartsWith(s.databaseUrl, SqlitePrefix), dir)
  }

  /** `lst.append(issue)` when the condition holds. */
  function AddIf(lst: seq<Issue>, cond: bool, issue: Issue): (r: seq<Issue>)
    ensures issue in lst ==> issue in r
    ensures cond ==> issue in r
  {
    if cond then lst + [issue] else lst
  }

  /** The errors of the secret, API key, SMTP and admin email checks, in order. */
  function EarlyErrors(c: Checks): seq<Issue>
  {
    var e := AddIf([], c.weakSecret, WeakSecret);
    var e := AddIf(e, c.missingLiveKey, MissingApiKey);
    var e := AddIf(e, c.smtpAny && !c.smtpMin, PartialSmtp);
    var e := AddIf(e, !c.smtpAny && c.productionLike, SmtpRequired(c.env));
    AddIf(e, c.noAdminEmails && c.productionLike, AdminEmailsRequired(c.env))
  }

  /** The warnings of the SMTP and admin email checks, in order. */
  function EarlyWarnings(c: Checks): seq<Issue>
  {
    var w := AddIf([], !c.smtpAny && !c.productionLike, SmtpDryRun);
    AddIf(w, c.noAdminEmails && !c.productionLike, NoAdminEmails)
  }

  /** The issues `main` reports as errors, in the order it appends them. */
  function Errors(c: Checks): seq<Issue>
  {
    var e := AddIf(EarlyErrors(c), c.productionLike && c.exposesDevTokens, DevTokensExposed(c.env));
    var e := AddIf(e, c.noCorsOrigins, CorsEmpty);
    AddIf(e, c.sqliteUrl && !c.directory.exists_, SqliteDirectoryMissing(c.directory.path))
  }

  /** The issues `main` reports as warnings, in order. */
  function Warnings(c: Checks): seq<Issue>
  {
    AddIf(EarlyWarnings(c), !c.sqliteUrl, NonSqliteDatabase)
  }

  /** The process exit status: 1 with an error, or with a warning in strict mode; otherwise 0. */
  function ExitCode(errors: seq<Issue>, warnings: seq<Issue>, strict: bool): (code: int)
    ensures code == 0 || code == 1
    ensures code == 1 <==> errors != [] || (strict && warnings != [])
  {
    if errors != [] then 1 else if strict && warnings != [] then 1 else 0
  }

  /**
   * `main`: the checks run one after the other, each appending its issue;
   * the exit status follows from the two lists.
   */
  method RunChecks(s: Settings, strict: bool, dir: SqliteDirectory)
    returns (errors: seq<Issue>, warnings: seq<Issue>, exitCode: int)
    ensures errors == Errors(ChecksOf(s, dir)) && warnings == Warnings(ChecksOf(s, dir))
    ensures exitCode == ExitCode(errors, warnings, strict)
  {
    var c := ChecksOf(s, dir);
    errors, warnings, exitCode := Report(c, strict);
  }

  /** The body of `main` once the conditions are evaluated. */
  method Report(c: Checks, strict: bool) returns (errors: seq<Issue>, warnings: seq<Issue>, exitCode: int)
    ensures errors == Errors(c) && warnings == Warnings(c)
    ensures exitCode == ExitCode(errors, warnings, strict)
  {
    errors, warnings := EarlyChecks(c);
    if c.productionLike && c.exposesDevTokens {
      errors := errors + [DevTokensExposed(c.env)];
    }
    if c.noCorsOrigins {
      errors := errors + [CorsEmpty];
    }
    if c.sqliteUrl {
      if !c.directory.exists_ {
        errors := errors + [SqliteDirectoryMissing(c.directory.path)];
      }
    } else {
      warnings := warnings + [NonSqliteDatabase];
    }
    if errors != [] {
      return errors, warnings, 1;
    }
    if strict && warnings != [] {
      return errors, warnings, 1;
    }
    exitCode := 0;
  }

  /** The secret, API key, SMTP and admin email checks, each appending its issue. */
  method EarlyChecks(c: Checks) returns (errors: seq<Issue>, warnings: seq<Issue>)
    ensures errors == EarlyErrors(c) && warnings == EarlyWarnings(c)
  {
    errors, warnings := [], [];
    if c.weakSecret {
      errors := errors + [WeakSecret];
    }
    if c.missingLiveKey {
      errors := errors + [MissingApiKey];
    }
    if c.smtpAny && !c.smtpMin {
      errors := errors + [PartialSmtp];
    }
    if !c.smtpAny && c.productionLike {
      errors := errors + [SmtpRequired(c.env)];
    }
    if !c.smtpAny && !c.productionLike {
      warnings := warnings + [SmtpDryRun];
    }
    if c.noAdminEmails && c.productionLike {
      errors := errors + [AdminEmailsRequired(c.env)];
    }
    if c.noAdminEmails && !c.productionLike {
      warnings := warnings + [NoAdminEmails];
    }
  }

  /** An issue is in the early errors exactly when one of their checks appends it. */
  lemma InEarlyErrors(c: Checks, x: Issue)
    ensures x in EarlyErrors(c) <==>
      || (c.weakSecret && x == WeakSecret) || (c.missingLiveKey && x == MissingApiKey)
      || (c.smtpAny && !c.smtpMin && x == PartialSmtp) || (!c.smtpAny && c.productionLike && x == SmtpRequired(c.env))
      || (c.noAdminEmails && c.productionLike && x == AdminEmailsRequired(c.env))
  {
  }

  /** An issue is in the errors exactly when it is an early error or a later check appends it. */
  lemma InErrors(c: Checks, x: Issue)
    ensures x in Errors(c) <==>
      || x in EarlyErrors(c) || (c.productionLike && c.exposesDevTokens && x == DevTokensExposed(c.env))
      || (c.noCorsOrigins && x == CorsEmpty) || (c.sqliteUrl && !c.directory.exists_ && x == SqliteDirectoryMissing(c.directory.path))
  {
  }

  /** An issue is in the warnings exactly when one of the three warning checks appends it. */
  lemma InWarnings(c: Checks, x: Issue)
    ensures x in Warnings(c) <==>
      || (!c.smtpAny && !c.productionLike && x == SmtpDryRun)
      || (c.noAdminEmails && !c.productionLike && x == NoAdminEmails) || (!c.sqliteUrl && x == NonSqliteDatabase)
  {
  }

  /** SMTP settings: partial ones are an error; none at all are an error in a production-like environment and a warning elsewhere. */
  lemma SmtpRules(c: Checks)
    ensures PartialSmtp in Errors(c) <==> c.smtpAny && !c.smtpMin
    ensures SmtpRequired(c.env) in Errors(c) <==> !c.smtpAny && c.productionLike
    ensures SmtpDryRun in Warnings(c) <==> !c.smtpAny && !c.productionLike
  {
    InErrors(c, PartialSmtp);
    InEarlyErrors(c, PartialSmtp);
    InErrors(c, SmtpRequired(c.env));
    InEarlyErrors(c, SmtpRequired(c.env));
    InWarnings(c, SmtpDryRun);
  }

  /** Admin emails: none is an error in a production-like environment and a warning elsewhere. */
  lemma AdminEmailRules(c: Checks)
    ensures AdminEmailsRequired(c.env) in Errors(c) <==> c.noAdminEmails && c.productionLike
    ensures NoAdminEmails in Warnings(c) <==> c.noAdminEmails && !c.productionLike
  {
    InErrors(c, AdminEmailsRequired(c.env));
    InEarlyErrors(c, AdminEmailsRequired(c.env));
    InWarnings(c, NoAdminEmails);
  }

  /** Dev tokens exposed in a production-like environment fail the check, whatever the strict flag. */
  lemma ExposedTokensFail(c: Checks, strict: bool)
    requires c.productionLike && c.exposesDevTokens
    ensures DevTokensExposed(c.env) in Errors(c)
    ensures ExitCode(Errors(c), Warnings(c), strict) == 1
  {
  }

  /** A production-like environment with every required setting passes, in strict mode as well when the database is SQLite. */
  lemma ProductionReadyPasses(s: Settings, dir: SqliteDirectory, strict: bool)
    requires IsProductionLikeEnv(s.appEnv)
    requires HasSecureSecretKey(s.secretKey) && !MissingLiveKey(s) && HasSmtpMin(s)
    requires AdminEmailList(s.adminEmails) != [] && !ShouldExposeDevAuthTokens(s)
    requires CorsOriginsList(s.corsOrigins) != []
    requires StartsWith(s.databaseUrl, SqlitePrefix) && dir.exists_
    ensures Errors(ChecksOf(s, dir)) == [] && Warnings(ChecksOf(s, dir)) == []
    ensures ExitCode(Errors(ChecksOf(s, dir)), Warnings(ChecksOf(s, dir)), strict) == 0
  {
    SecretCheckAgreesWithSettings(s.secretKey);
  }

  /** Outside production, missing SMTP only warns: the exit status is 0 unless strict mode is on. */
  lemma DevelopmentWarningsOnlyFailStrict(c: Checks)
    requires !c.productionLike && !c.smtpAny
    requires Errors(c) == []
    ensures SmtpDryRun in Warnings(c)
    ensures ExitCode(Errors(c), Warnings(c), false) == 0
    ensures ExitCode(Errors(c), Warnings(c), true) == 1
  {
  }

  // ---------------------------------------------------------------------
  // The API-key check as written
  // ---------------------------------------------------------------------

  /** What evaluating `not settings.MOCK_MODE and not settings.ANTHROPIC_API_KEY` gives. */
  datatype Evaluation = Value(b: bool) | AttributeError(name: string)

  /**
   * The condition as written: `Settings` declares no `ANTHROPIC_API_KEY`
   * and ignores undeclared variables, so once `MOCK_MODE` is off the
   * attribute lookup raises instead of giving a value.
   */
  function ApiKeyCheckAsWritten(s: Settings): (e: Evaluation)
    ensures e.AttributeError? <==> !s.mockMode
    ensures e.Value? ==> !e.b
  {
    if s.mockMode then Value(false) else AttributeError("ANTHROPIC_API_KEY")
  }

  /** With `MOCK_MODE=false` the script stops with an exception, so no live configuration can pass, whatever keys it has. */
  lemma AsWrittenLiveModeCrashes(s: Settings)
    requires !s.mockMode && HasKey(s.openaiApiKey) && HasKey(s.geminiApiKey)
    ensures ApiKeyCheckAsWritten(s).AttributeError?
  {
  }

  /** The intended check reports a missing key only when neither live provider has one, and passes a configured provider. */
  lemma IntendedLiveModeWithKeyPasses(s: Settings, dir: SqliteDirectory)
    requires !s.mockMode
    ensures var c := ChecksOf(s, dir);
      MissingApiKey in Errors(c) <==> !HasKey(s.openaiApiKey) && !HasKey(s.geminiApiKey)
  {
    var c := ChecksOf(s, dir);
    MissingKeyRule(c);
  }

  lemma MissingKeyRule(c: Checks)
    ensures MissingApiKey in Errors(c) <==> c.missingLiveKey
  {
    InErrors(c, MissingApiKey);
    InEarlyErrors(c, MissingApiKey);
  }
}
