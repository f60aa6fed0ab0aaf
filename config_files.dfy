/** Broker settings and the Avro schema, read from the package's resource
    files, with the broker password taken from the environment. */
module ConfigFiles {
  import opened JsonValue

  /** The two broker environments a run can select. */
  datatype KafkaConfig = Dev | DevLocal

  /** The enum member's value: the resource file holding its settings. */
  function FileName(config: KafkaConfig): (name: string)
    ensures KafkaConfigOf(name) == Ok(config)
  {
    match config
    case Dev => "kafka_config.json"
    case DevLocal => "kafka_config_dev.json"
  }

  /** Lookup of an enum member by value, `KafkaConfig(value)`. */
  function KafkaConfigOf(value: string): (r: Result<KafkaConfig>)
    ensures r.Err? ==> r.error == ValueError("'" + value + "' is not a valid KafkaConfig")
  {
    if value == "kafka_config.json" then Ok(Dev)
    else if value == "kafka_config_dev.json" then Ok(DevLocal)
    else Err(ValueError("'" + value + "' is not a valid KafkaConfig"))
  }

  /** Each member is found again from its value, and lookup succeeds
      exactly on the two file names, each naming one member. */
  lemma KafkaConfigValues(config: KafkaConfig, value: string)
    ensures KafkaConfigOf(FileName(config)) == Ok(config)
    ensures KafkaConfigOf(value).Ok? <==> value == "kafka_config.json" || value == "kafka_config_dev.json"
    ensures KafkaConfigOf(value).Ok? ==> FileName(KafkaConfigOf(value).value) == value
    ensures FileName(Dev) == "kafka_config.json" && FileName(DevLocal) == "kafka_config_dev.json"
  {
  }

  /** Environment variable that holds the broker password. */
  const PasswordVariable: string := "KAFKA_SASL_PASSWORD"
  const PasswordMissing: string := "KAFKA_SASL_PASSWORD environment variable not set"
  /** Settings key the password is stored under. */
  const PasswordKey: string := "sasl.password"

  /** `read_kafka_config`: load the selected settings file, require the
      password variable, then store the password under `sasl.password`,
      replacing whatever the file held there. Storing into a decoded value
      that is not a dict raises TypeError. */
  function ReadKafkaConfig(config: KafkaConfig, files: Resources, env: Environment): (r: Result<map<string, Json>>)
    ensures r.Ok? <==>
      && FileName(config) in files && files[FileName(config)].parsed.Some?
      && PasswordVariable in env
      && files[FileName(config)].parsed.value.JObject?
    ensures r.Ok? ==>
      var data := files[FileName(config)].parsed.value.fields;
      && r.value.Keys == data.Keys + {PasswordKey}
      && r.value[PasswordKey] == JStr(env[PasswordVariable])
      && forall k :: k in data && k != PasswordKey ==> r.value[k] == data[k]
    ensures FileName(config) in files && files[FileName(config)].parsed.Some? && PasswordVariable !in env ==>
      r == Err(ValueError(PasswordMissing))
    ensures FileName(config) !in files ==> r == Err(FileNotFoundError(FileName(config)))
  {
    match LoadJson(files, FileName(config))
    case Err(e) => Err(e)
    case Ok(data) =>
      if PasswordVariable !in env then Err(ValueError(PasswordMissing))
      else
        match data
        case JObject(fields) => Ok(fields[PasswordKey := JStr(env[PasswordVariable])])
        case _ => Err(TypeError)
  }

  /** A password written in the settings file never survives: the result is
      the same as for the file without that entry. */
  lemma FilePasswordOverridden(config: KafkaConfig, files: Resources, env: Environment,
                               text: string, data: map<string, Json>)
    ensures
      var withEntry := files[FileName(config) := Resource(text, Some(JObject(data)))];
      var withoutEntry := files[FileName(config) := Resource(text, Some(JObject(data - {PasswordKey})))];
      ReadKafkaConfig(config, withEntry, env) == ReadKafkaConfig(config, withoutEntry, env)
  {
    var pw := JStr(if PasswordVariable in env then env[PasswordVariable] else "");
    assert data[PasswordKey := pw] == (data - {PasswordKey})[PasswordKey := pw];
  }

  /** Reading the settings twice over, with the first result stored back in
      the file, gives the first result again. */
  lemma ReadKafkaConfigIdempotent(config: KafkaConfig, files: Resources, env: Environment, text: string)
    requires ReadKafkaConfig(config, files, env).Ok?
    ensures
      var once := ReadKafkaConfig(config, files, env).value;
      ReadKafkaConfig(config, files[FileName(config) := Resource(text, Some(JObject(once)))], env) == Ok(once)
  {
    var once := ReadKafkaConfig(config, files, env).value;
    var again := ReadKafkaConfig(config, files[FileName(config) := Resource(text, Some(JObject(once)))], env).value;
    assert again.Keys == once.Keys;
    assert forall k :: k in once ==> again[k] == once[k];
    assert again == once;
  }

  /** Extension of the Avro schema resource files. */
  const SchemaExtension: string := ".avsc"

  /** `read_schema`: the text of the resource named after the schema. */
  function ReadSchema(schemaName: string, files: Resources): (r: Result<string>)
    ensures r.Ok? <==> schemaName + SchemaExtension in files
    ensures r.Ok? ==> r.value == files[schemaName + SchemaExtension].text
    ensures r.Err? ==> r.error == FileNotFoundError(schemaName + SchemaExtension)
  {
    var path := schemaName + SchemaExtension;
    if path in files then Ok(files[path].text) else Err(FileNotFoundError(path))
  }

  /** Different schemas are read from different files. */
  lemma SchemaFileNames(a: string, b: string)
    ensures a + SchemaExtension == b + SchemaExtension ==> a == b
  {
    if a + SchemaExtension == b + SchemaExtension {
      assert a == (a + SchemaExtension)[..|a|];
      assert b == (b + SchemaExtension)[..|b|];
    }
  }
}
