/** The handlers' shared configuration (src/config/env.ts): settings read from the process
    environment with their defaults, and the check that the required ones are set. */
module Config {
  import opened Common

  datatype Config = Config(
    environment: string,
    tableName: string,
    bucketName: string,
    snsTopicArn: string,
    userPoolId: string,
    userPoolClientId: string,
    awsRegion: string)

  /** `process.env[name] || fallback`: an unset or empty variable gives the fallback. */
  function EnvOr(env: map<string, string>, name: string, fallback: string): (v: string)
    ensures name in env && env[name] != "" ==> v == env[name]
    ensures name !in env || env[name] == "" ==> v == fallback
    ensures v == "" ==> fallback == ""
  {
    if name in env && env[name] != "" then env[name] else fallback
  }

  /** The `config` object built from the process environment. */
  function Load(env: map<string, string>): (c: Config)
    ensures c.environment != "" && c.awsRegion != ""
    ensures c.environment == EnvOr(env, "ENVIRONMENT", "dev")
    ensures c.tableName == EnvOr(env, "TABLE_NAME", "")
    ensures c.bucketName == EnvOr(env, "BUCKET_NAME", "")
    ensures c.snsTopicArn == EnvOr(env, "SNS_TOPIC_ARN", "")
    ensures c.userPoolId == EnvOr(env, "USER_POOL_ID", "")
    ensures c.userPoolClientId == EnvOr(env, "USER_POOL_CLIENT_ID", "")
    ensures c.awsRegion == EnvOr(env, "AWS_REGION", "us-east-1")
  {
    Config(
      EnvOr(env, "ENVIRONMENT", "dev"),
      EnvOr(env, "TABLE_NAME", ""),
      EnvOr(env, "BUCKET_NAME", ""),
      EnvOr(env, "SNS_TOPIC_ARN", ""),
      EnvOr(env, "USER_POOL_ID", ""),
      EnvOr(env, "USER_POOL_CLIENT_ID", ""),
      EnvOr(env, "AWS_REGION", "us-east-1"))
  }

  /** With nothing in the environment every setting takes its default. */
  lemma LoadDefaults()
    ensures Load(map[]) == Config("dev", "", "", "", "", "", "us-east-1")
  {
  }

  /** The names of the `config` properties. */
  datatype Key = Environment | TableName | BucketName | SnsTopicArn | UserPoolId | UserPoolClientId | AwsRegion

  function KeyName(k: Key): string {
    match k
    case Environment => "environment"
    case TableName => "tableName"
    case BucketName => "bucketName"
    case SnsTopicArn => "snsTopicArn"
    case UserPoolId => "userPoolId"
    case UserPoolClientId => "userPoolClientId"
    case AwsRegion => "awsRegion"
  }

  /** `config[key]`. */
  function Setting(c: Config, k: Key): string {
    match k
    case Environment => c.environment
    case TableName => c.tableName
    case BucketName => c.bucketName
    case SnsTopicArn => c.snsTopicArn
    case UserPoolId => c.userPoolId
    case UserPoolClientId => c.userPoolClientId
    case AwsRegion => c.awsRegion
  }

  /** The settings `validateConfig` insists on, in the order it checks them. */
  const Required: seq<Key> := [TableName, BucketName, SnsTopicArn, UserPoolId, UserPoolClientId]

  /** `keys.filter((key) => !config[key])`: a setting is missing when it is the empty string. */
  function MissingAmong(c: Config, keys: seq<Key>): (missing: seq<Key>)
    ensures |missing| <= |keys|
    ensures forall k :: k in missing <==> k in keys && Setting(c, k) == ""
  {
    if keys == [] then []
    else (if Setting(c, keys[0]) == "" then [keys[0]] else []) + MissingAmong(c, keys[1..])
  }

  function Missing(c: Config): seq<Key> {
    MissingAmong(c, Required)
  }

  function Names(keys: seq<Key>): (names: seq<string>)
    ensures |names| == |keys|
  {
    if keys == [] then [] else [KeyName(keys[0])] + Names(keys[1..])
  }

  const MissingPrefix := "Missing required environment variables: "

  /** `validateConfig()`: the error it throws, or `None` when it returns. */
  function ValidateConfig(c: Config): (thrown: Option<Failure>)
    ensures thrown.Some? <==>
      c.tableName == "" || c.bucketName == "" || c.snsTopicArn == "" ||
      c.userPoolId == "" || c.userPoolClientId == ""
    ensures thrown.Some? ==> thrown.value.name == "Error" && thrown.value.message != ""
    ensures thrown.Some? ==>
      thrown.value == Failure("Error", MissingPrefix + Join(Names(Missing(c)), ", ")) &&
      Missing(c) != []
  {
    var missing := Missing(c);
    if |missing| > 0 then
      assert missing[0] in missing;
      Some(Failure("Error", MissingPrefix + Join(Names(missing), ", ")))
    else
      assert c.tableName == "" ==> TableName in missing;
      assert c.bucketName == "" ==> BucketName in missing;
      assert c.snsTopicArn == "" ==> SnsTopicArn in missing;
      assert c.userPoolId == "" ==> UserPoolId in missing;
      assert c.userPoolClientId == "" ==> UserPoolClientId in missing;
      None
  }

  /** The missing list holds exactly the empty required settings, in the order of `Required`. */
  lemma MissingInOrder(c: Config)
    ensures Missing(c) ==
      (if c.tableName == "" then [TableName] else []) +
      ((if c.bucketName == "" then [BucketName] else []) +
      ((if c.snsTopicArn == "" then [SnsTopicArn] else []) +
      ((if c.userPoolId == "" then [UserPoolId] else []) +
      (if c.userPoolClientId == "" then [UserPoolClientId] else []))))
  {
    var r := Required;
    assert r[1..] == [BucketName, SnsTopicArn, UserPoolId, UserPoolClientId];
    assert r[1..][1..] == [SnsTopicArn, UserPoolId, UserPoolClientId];
    assert r[1..][1..][1..] == [UserPoolId, UserPoolClientId];
    assert r[1..][1..][1..][1..] == [UserPoolClientId];
    var tail4 := MissingAmong(c, r[1..][1..][1..][1..]);
    assert tail4 == (if c.userPoolClientId == "" then [UserPoolClientId] else []);
    var tail3 := MissingAmong(c, r[1..][1..][1..]);
    assert tail3 == (if c.userPoolId == "" then [UserPoolId] else []) + tail4;
    var tail2 := MissingAmong(c, r[1..][1..]);
    assert tail2 == (if c.snsTopicArn == "" then [SnsTopicArn] else []) + tail3;
    var tail1 := MissingAmong(c, r[1..]);
    assert tail1 == (if c.bucketName == "" then [BucketName] else []) + tail2;
    assert MissingAmong(c, r) == (if c.tableName == "" then [TableName] else []) + tail1;
  }

  lemma NamesOfRequired()
    ensures Names(Required) == ["tableName", "bucketName", "snsTopicArn", "userPoolId", "userPoolClientId"]
  {
    var r := Required;
    assert Names(r[1..][1..][1..][1..]) == ["userPoolClientId"];
    assert Names(r[1..][1..][1..]) == ["userPoolId", "userPoolClientId"];
    assert Names(r[1..][1..]) == ["snsTopicArn", "userPoolId", "userPoolClientId"];
    assert Names(r[1..]) == ["bucketName", "snsTopicArn", "userPoolId", "userPoolClientId"];
  }

  /** A config whose five required settings are all empty misses every one of them, in order. */
  lemma AllMissing(c: Config)
    requires c.tableName == "" && c.bucketName == "" && c.snsTopicArn == ""
    requires c.userPoolId == "" && c.userPoolClientId == ""
    ensures Missing(c) == Required
  {
    MissingInOrder(c);
  }

  /** With an empty environment all five required settings are missing. */
  lemma EmptyEnvironmentMissesAll()
    ensures Missing(Load(map[])) == Required
  {
    LoadDefaults();
    AllMissing(Load(map[]));
  }

  /** With an empty environment the message names the five settings in order, joined by ", ",
      after the fixed prefix. */
  lemma EmptyEnvironmentMessage()
    ensures ValidateConfig(Load(map[])) == Some(Failure("Error", MissingPrefix +
      ("tableName" + ", " + ("bucketName" + ", " + ("snsTopicArn" + ", " + ("userPoolId" + ", " + "userPoolClientId"))))))
  {
    EmptyEnvironmentMissesAll();
    NamesOfRequired();
    var names := Names(Required);
    assert Join(names[1..][1..][1..][1..], ", ") == "userPoolClientId";
    assert Join(names[1..][1..][1..], ", ") == "userPoolId" + ", " + "userPoolClientId";
    assert Join(names[1..][1..], ", ") == "snsTopicArn" + ", " + Join(names[1..][1..][1..], ", ");
    assert Join(names[1..], ", ") == "bucketName" + ", " + Join(names[1..][1..], ", ");
    assert Join(names, ", ") == "tableName" + ", " + Join(names[1..], ", ");
  }

  /** Neither `environment` nor `awsRegion` is required: changing them never changes the outcome. */
  lemma RegionAndEnvironmentNotRequired(c: Config, environment: string, awsRegion: string)
    ensures ValidateConfig(c.(environment := environment, awsRegion := awsRegion)) == ValidateConfig(c)
  {
    MissingInOrder(c);
    MissingInOrder(c.(environment := environment, awsRegion := awsRegion));
  }
}
