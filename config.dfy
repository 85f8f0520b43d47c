// The derived properties of `Settings` in backend/config.py: the lists
// parsed from comma-separated variables, the environment classification,
// the dev-token switch, the secret-key check and the sender address. The
// settings are a record of the environment values; reading the `.env`
// file and the type coercion of pydantic-settings are not modelled.
module Config {
  import opened Wrappers
  import opened Text

  /** The `Settings` fields these properties read. */
  datatype Settings = Settings(
    databaseUrl: string,
    secretKey: string,
    mockMode: bool,
    openaiApiKey: Option<string>,
    geminiApiKey: Option<string>,
    appEnv: string,
    exposeDevAuthTokens: Option<bool>,
    smtpHost: Option<string>,
    smtpUser: Option<string>,
    smtpPassword: Option<string>,
    smtpFrom: Option<string>,
    corsOrigins: string,
    adminEmails: string)

  const DefaultSecretKey := "your-secret-key-change-in-production"
  const DefaultCorsOrigins := "http://localhost:3000,http://127.0.0.1:3000"
  const DefaultSenderAddress := "no-reply@masters-app.local"

  const DefaultSecretValues: set<string> := {"", DefaultSecretKey, "changeme", "secret", "default"}

  /** Python truthiness of an optional string: present and not empty. */
  predicate Truthy(o: Option<string>)
  {
    o.Some? && o.value != ""
  }

  /** `cors_origins_list`: the stripped, non-blank pieces of `CORS_ORIGINS` split on commas. */
  function CorsOriginsList(corsOrigins: string): (origins: seq<string>)
    ensures forall k :: 0 <= k < |origins| ==> origins[k] != "" && ',' !in origins[k]
  {
    var pieces := Split(corsOrigins, ',');
    CleanedPointsMembers(pieces);
    var r := CleanedPoints(pieces);
    forall k | 0 <= k < |r| ensures r[k] != "" && ',' !in r[k] {
      assert r[k] in r;
      var i :| 0 <= i < |pieces| && Trim(pieces[i]) == r[k];
      TrimIsSlice(pieces[i]);
    }
    r
  }

  /** Stripping takes a contiguous part of a string, so it adds no character. */
  lemma TrimIsSlice(s: string)
    ensures forall c :: c in Trim(s) ==> c in s
  {
    var t := TrimStart(s);
    assert forall c :: c in t ==> c in s;
    assert forall c :: c in TrimEnd(t) ==> c in t;
  }

  /** An origin is listed exactly when some comma-separated piece strips to it and it is not empty. */
  lemma CorsOriginsMembers(corsOrigins: string)
    ensures forall x :: x in CorsOriginsList(corsOrigins) <==> CleanedFrom(Split(corsOrigins, ','), x)
  {
    CleanedPointsMembers(Split(corsOrigins, ','));
  }

  /** Clean entries are their own cleaning. */
  lemma {:induction false} CleanedPointsOfClean(points: seq<string>)
    requires forall k :: 0 <= k < |points| ==> points[k] != "" && Trim(points[k]) == points[k]
    ensures CleanedPoints(points) == points
    decreases |points|
  {
    if points != [] {
      CleanedPointsOfClean(points[1..]);
      assert points == [points[0]] + points[1..];
    }
  }

  /** Writing stripped, comma-free origins joined by commas reads them back unchanged. */
  lemma CorsOriginsRoundTrip(origins: seq<string>)
    requires |origins| >= 1
    requires forall k :: 0 <= k < |origins| ==> origins[k] != "" && ',' !in origins[k] && Trim(origins[k]) == origins[k]
    ensures CorsOriginsList(Join(origins, ",")) == origins
  {
    SplitJoin(origins, ',');
    CleanedPointsOfClean(origins);
  }

  /** `admin_email_list`: the cleaned comma-separated entries of `ADMIN_EMAILS`, lower-cased. */
  function AdminEmailList(adminEmails: string): (emails: seq<string>)
    ensures |emails| == |CorsOriginsList(adminEmails)|
    ensures forall k :: 0 <= k < |emails| ==> emails[k] == Lower(CorsOriginsList(adminEmails)[k])
  {
    var cleaned := CorsOriginsList(adminEmails);
    seq(|cleaned|, k requires 0 <= k < |cleaned| => Lower(cleaned[k]))
  }

  /** Every admin email is stripped and has no upper-case letter, so it compares with stored lower-cased emails. */
  lemma AdminEmailsNormalized(adminEmails: string)
    ensures forall k :: 0 <= k < |AdminEmailList(adminEmails)| ==>
      var e := AdminEmailList(adminEmails)[k];
      e != "" && Trim(e) == e && Lower(e) == e
  {
    var pieces := Split(adminEmails, ',');
    var cleaned := CorsOriginsList(adminEmails);
    CleanedPointsMembers(pieces);
    forall k | 0 <= k < |cleaned| ensures cleaned[k] != "" && Trim(Lower(cleaned[k])) == Lower(cleaned[k]) {
      assert cleaned[k] in cleaned;
      var i :| 0 <= i < |pieces| && Trim(pieces[i]) == cleaned[k];
      TrimIdempotent(pieces[i]);
      CaseKeepsTrimmed(cleaned[k]);
    }
    forall k | 0 <= k < |cleaned| ensures Lower(Lower(cleaned[k])) == Lower(cleaned[k]) {
      LowerIdempotent(cleaned[k]);
    }
  }

  /** `app_env_normalized`: `APP_ENV`, or `development` when it is empty, stripped and lower-cased. */
  function AppEnvNormalized(appEnv: string): (env: string)
    ensures appEnv != "" ==> env == Lower(Trim(appEnv))
  {
    Lower(Trim(if appEnv == "" then "development" else appEnv))
  }

  const ProductionLikeEnvs: set<string> := {"pilot", "staging", "production", "prod"}
  const DevelopmentEnvs: set<string> := {"development", "dev", "local", "test"}

  /** A production-like environment is never also a development one. */
  predicate IsProductionLikeEnv(appEnv: string)
    ensures IsProductionLikeEnv(appEnv) ==> !IsDevelopmentEnv(appEnv)
  {
    EnvClassesDisjoint(AppEnvNormalized(appEnv));
    AppEnvNormalized(appEnv) in ProductionLikeEnvs
  }

  predicate IsDevelopmentEnv(appEnv: string) { AppEnvNormalized(appEnv) in DevelopmentEnvs }

  /** No environment name is both production-like and development. */
  lemma EnvClassesDisjoint(env: string)
    ensures !(env in ProductionLikeEnvs && env in DevelopmentEnvs)
  {
    if env in DevelopmentEnvs {
      if env == "local" {
        assert env[0] == 'l';
      } else if env == "test" {
        assert env[0] == 't';
      }
    }
  }

  /** An empty `APP_ENV` is the development environment. */
  lemma EmptyAppEnvIsDevelopment()
    ensures AppEnvNormalized("") == "development"
  {
    var d := "development";
    assert forall i :: 0 <= i < |d| ==> IsLowerAlpha(d[i]);
    PlainLowerWord(d);
  }

  /** So an unset environment is classified as development and not production-like. */
  lemma EmptyAppEnvClass()
    ensures IsDevelopmentEnv("") && !IsProductionLikeEnv("")
  {
    EmptyAppEnvIsDevelopment();
    EnvClassesDisjoint("development");
  }

  /** A non-empty `APP_ENV` of only spaces normalizes to the empty name, which is in neither class. */
  lemma BlankAppEnvIsUnclassified(appEnv: string)
    requires appEnv != "" && IsBlank(appEnv)
    ensures AppEnvNormalized(appEnv) == ""
    ensures !IsDevelopmentEnv(appEnv) && !IsProductionLikeEnv(appEnv)
  {
  }

  /** The classification ignores surrounding spaces and letter case. */
  lemma {:induction false} AppEnvIgnoresCaseAndSpace(appEnv: string)
    requires Trim(appEnv) != ""
    ensures AppEnvNormalized(Upper(appEnv)) == AppEnvNormalized(appEnv)
    ensures AppEnvNormalized(" " + appEnv) == AppEnvNormalized(appEnv)
  {
    UpperTrim(appEnv);
    LowerUpper(Trim(appEnv));
    assert Upper(appEnv) != "";
    var padded := " " + appEnv;
    assert padded[1..] == appEnv;
    assert TrimStart(padded) == TrimStart(appEnv);
  }

  /** Upper-casing commutes with stripping: no letter is whitespace and no whitespace is a letter. */
  lemma {:induction false} UpperTrim(s: string)
    ensures Trim(Upper(s)) == Upper(Trim(s))
  {
    UpperTrimStart(s);
    UpperTrimEnd(TrimStart(s));
  }

  lemma {:induction false} UpperTrimStart(s: string)
    ensures TrimStart(Upper(s)) == Upper(TrimStart(s))
    decreases |s|
  {
    if s != [] {
      var u := Upper(s);
      assert u[0] == UpperChar(s[0]);
      assert IsSpace(u[0]) <==> IsSpace(s[0]);
      if IsSpace(s[0]) {
        assert u[1..] == Upper(s[1..]);
        UpperTrimStart(s[1..]);
        assert TrimStart(u) == TrimStart(u[1..]);
        assert TrimStart(s) == TrimStart(s[1..]);
      } else {
        assert TrimStart(u) == u;
        assert TrimStart(s) == s;
      }
    }
  }

  lemma {:induction false} UpperTrimEnd(s: string)
    ensures TrimEnd(Upper(s)) == Upper(TrimEnd(s))
    decreases |s|
  {
    if s != [] {
      var u := Upper(s);
      var n := |s| - 1;
      assert u[n] == UpperChar(s[n]);
      assert IsSpace(u[n]) <==> IsSpace(s[n]);
      if IsSpace(s[n]) {
        assert u[..n] == Upper(s[..n]);
        UpperTrimEnd(s[..n]);
        assert TrimEnd(u) == TrimEnd(u[..n]);
        assert TrimEnd(s) == TrimEnd(s[..n]);
      } else {
        assert TrimEnd(u) == u;
        assert TrimEnd(s) == s;
      }
    }
  }

  /** Lower-casing the upper-cased string is lower-casing the string. */
  lemma {:induction false} LowerUpper(s: string)
    ensures Lower(Upper(s)) == Lower(s)
  {
    forall i | 0 <= i < |s| ensures Lower(Upper(s))[i] == Lower(s)[i] {
      var c := s[i];
      if IsLowerAlpha(c) {
        assert UpperChar(c) == (c as int - 32) as char;
      } else if IsUpperAlpha(c) {
        assert UpperChar(c) == c;
      }
    }
  }

  /**
   * The `EXPOSE_DEV_AUTH_TOKENS` validator: a blank text value counts as
   * not set; any other raw value is kept for the boolean parser.
   */
  function NormalizeOptionalFlag(raw: Option<string>): (r: Option<string>)
    ensures r.None? <==> raw.None? || IsBlank(raw.value)
    ensures r.Some? ==> r == raw
  {
    if raw.Some? && Trim(raw.value) == "" then None else raw
  }

  /** `should_expose_dev_auth_tokens`: an explicit setting wins, otherwise only development environments expose. */
  function ShouldExposeDevAuthTokens(s: Settings): (expose: bool)
    ensures s.exposeDevAuthTokens.Some? ==> expose == s.exposeDevAuthTokens.value
    ensures s.exposeDevAuthTokens.None? ==> (expose <==> IsDevelopmentEnv(s.appEnv))
  {
    if s.exposeDevAuthTokens.Some? then s.exposeDevAuthTokens.value else IsDevelopmentEnv(s.appEnv)
  }

  /** Without an explicit setting, a production-like environment never exposes dev tokens. */
  lemma ProductionHidesTokensByDefault(s: Settings)
    requires s.exposeDevAuthTokens.None? && IsProductionLikeEnv(s.appEnv)
    ensures !ShouldExposeDevAuthTokens(s)
  {
    EnvClassesDisjoint(AppEnvNormalized(s.appEnv));
  }

  /** `has_secure_secret_key`: at least 32 characters once stripped, and no default value in any letter case. */
  predicate HasSecureSecretKey(secretKey: string)
    ensures HasSecureSecretKey(secretKey) ==> |secretKey| >= 32
  {
    |Trim(secretKey)| >= 32 && Lower(Trim(secretKey)) !in DefaultSecretValues
  }

  /** A blank key is not secure. */
  lemma BlankKeyIsInsecure(blank: string)
    requires IsBlank(blank)
    ensures !HasSecureSecretKey(blank)
  {
  }

  /** `smtp_from_address`: `SMTP_FROM`, else `SMTP_USER`, else the no-reply address, skipping empty values. */
  function SmtpFromAddress(s: Settings): (address: string)
    ensures address != ""
    ensures Truthy(s.smtpFrom) ==> address == s.smtpFrom.value
    ensures !Truthy(s.smtpFrom) && Truthy(s.smtpUser) ==> address == s.smtpUser.value
    ensures !Truthy(s.smtpFrom) && !Truthy(s.smtpUser) ==> address == DefaultSenderAddress
  {
    if Truthy(s.smtpFrom) then s.smtpFrom.value
    else if Truthy(s.smtpUser) then s.smtpUser.value
    else DefaultSenderAddress
  }
}
