# BestsellerStreaming, modelled in Dafny

BestsellerStreaming polls the New York Times bestseller-list API. It turns each
list's books into flat eight-field records, tagged with the list name, and
publishes them to a Kafka topic as Avro messages. This project models the part
of it that has behaviour worth stating:

- `NyTimes` (root/src/api/ny_times.py) covers the client configuration (API key
  from the environment, `base_url` and `lists` from a JSON resource), the
  request URL, and the extraction of `results.books` from a reply. A caught
  failure degrades to the empty list. It also covers normalisation of raw books
  into records, and `fetch_books`, which composes the three.
- `ConfigFiles` (root/src/utils/read_config.py) covers the two-member
  `KafkaConfig` enum and its file names, and `read_kafka_config`, which loads
  the selected settings file and overrides `sasl.password` from the
  environment. It also covers `read_schema`, which opens `<name>.avsc`.
- `JsonValue` holds what the two share. It has decoded JSON values and the
  Python exceptions that can come out of the core. It also models Python's
  `value[key]` (a KeyError on a dict, a TypeError on anything else) and the
  resource files.

The outside world is passed in as parameters:

- The package's resource directory is a map from file name to the file's text
  and to the value `json.load` makes of it (None when the text is not JSON).
- The environment is a map from variable name to value.
- The HTTP server is a function from URL to reply. A reply is a transport
  failure, a body that is not JSON, or a decoded JSON body.

`parse_books` builds its list with a loop, so it is the method
`NyTimes.ParseBooks`. That method is proved against the function
`NyTimes.ParsedBooks`, and the lemmas about the result are stated over that
function. `fetch_books` calls that method, so it is a method too. The rest is
pure once I/O is a parameter, so it is written as functions.

Three behaviours of the source shape the model:

- `fetch_list` catches only `RequestException` (which includes requests'
  `JSONDecodeError`) and `KeyError`. Indexing a value that is not a dict
  raises `TypeError`, which escapes, so `NyTimes.FetchList` returns
  `Err(TypeError)` in that case.
- `parse_books` copies the seven values as decoded, so the record fields are
  JSON values, and `book_list` is the given string.
- If `books` is not a list, `parse_books` still iterates over it. A dict or a
  string yields string elements, so the first `book["rank"]` raises
  `TypeError`; an empty dict or string yields no records. Other values are not
  iterable and raise `TypeError`. `NyTimes.ParsedNonArray` models this.

## Model

| member | source | states |
|---|---|---|
| `JsonValue.Lookup` | root/src/api/ny_times.py:97-103 | `value[key]` succeeds exactly on a dict holding the key and returns its entry. A dict without the key gives KeyError(key). Any other value gives TypeError. |
| `JsonValue.LoadJson` | root/src/api/ny_times.py:40-42 | Opening and decoding a resource succeeds exactly when the file exists and decodes. A missing file gives FileNotFoundError(path). An undecodable one gives JsonDecodeError. |
| `NyTimes.ReadConfig` | root/src/api/ny_times.py:26-50 | Succeeds exactly when the file loads, `NY_TIMES_API_KEY` is set, and the data is a dict with `base_url` and `lists`. It then returns the environment value and the two entries unchanged. With the file loaded but the variable unset, it fails with ValueError and its message. No partial client is returned. |
| `NyTimes.ReadConfigMissingEntry` | root/src/api/ny_times.py:48-49 | A decoded dict without `base_url` fails with KeyError("base_url"). One with `base_url` but without `lists` fails with KeyError("lists"). |
| `NyTimes.ReadConfigScenario` | root/tests/test_api.py:16-18 | The test configuration, with the key set, yields the client with base URL `https://test.com/`. |
| `NyTimes.CreateUrl` | root/src/api/ny_times.py:52-61 | The URL is the base URL, then the list name unchanged, then `.json?api-key=` and the key. |
| `NyTimes.ListNameRoundTrip` | root/src/api/ny_times.py:61 | The list name can be read back from the URL built for it. |
| `NyTimes.CreateUrlInjective` | root/src/api/ny_times.py:61 | Two list names that give the same URL are equal. |
| `NyTimes.CreateUrlScenario` | root/tests/test_api.py:21-25 | The test client builds `https://test.com/test_list1.json?api-key=mock_value` for `test_list1`. |
| `NyTimes.FetchList` | root/src/api/ny_times.py:63-80 | A reply with `results.books` gives that value unmodified. A transport failure, a non-JSON body, or a missing `results` or `books` key gives the empty list. In every other case the result is an error, and that error is TypeError. |
| `NyTimes.RepliesClassified` | root/src/api/ny_times.py:72-80 | No reply both carries books and degrades. A reply does neither exactly when it is JSON with a non-dict at the top or under `results`. |
| `NyTimes.ToDict` | root/src/api/ny_times.py:95-104 | A record's dict has exactly the eight output keys, and `book_list` holds the list name. |
| `NyTimes.FirstMissing` | root/src/api/ny_times.py:97-103 | Finds the first key, in reading order, that a dict lacks. It finds none exactly when all are present. |
| `NyTimes.ParseBook` | root/src/api/ny_times.py:94-104 | Succeeds exactly on a dict holding all seven keys. The record's dict is then exactly `book_list` set to the list name plus the seven input values. Extra input keys are dropped. A dict lacking keys fails with KeyError of the first missing key, in reading order. A value that is not a dict fails with TypeError. |
| `NyTimes.ParseBookOfRecord` | root/src/api/ny_times.py:94-104 | Normalising a record's own dict again, under any list name, gives the same record with only its list tag changed. |
| `NyTimes.ParsedBooks` | root/src/api/ny_times.py:92-106 | The reference definition of `parse_books`: the records of all books in order, or the error of the first book that cannot be normalised. On success there is one record per book, each tagged with the list name. On failure the error is that of some input book. |
| `NyTimes.ParsedBooksOk` | root/src/api/ny_times.py:92-106 | `parse_books` succeeds exactly when every book normalises. It then yields one record per book, with the same length and in the same order. |
| `NyTimes.ParsedBooksFirstError` | root/src/api/ny_times.py:92-106 | If some book fails, `parse_books` raises the error of the first book that fails. |
| `NyTimes.ParseBooks` | root/src/api/ny_times.py:82-106 | The loop succeeds exactly when every book has all seven keys. It then yields as many records as books, each tagged with the list name and equal to that book's normalisation. On failure it returns the error of the first failing book. Its result equals `ParsedBooks`. |
| `NyTimes.ParseBookScenario` | root/tests/test_api.py:35-60 | The test's raw book normalises to the expected record, field for field. |
| `NyTimes.ParsedNonArray` | root/src/api/ny_times.py:93 | A fetched value that is not a list gives no records if it is an empty dict or empty string. Otherwise it gives TypeError. |
| `NyTimes.FetchBooks` | root/src/api/ny_times.py:109-123 | The result is the normalisation of what `FetchList` returns for `CreateUrl(list name)`, or that fetch's error. A degraded reply yields the empty list. |
| `ConfigFiles.FileName` | root/src/utils/read_config.py:12-14 | A member's value, the settings file `read_kafka_config` opens for it (read_config.py:27). Looking that value up gives the same member back. |
| `ConfigFiles.KafkaConfigOf` | root/src/utils/read_config.py:12-14 | Looking up a value that names no member fails with ValueError. |
| `ConfigFiles.KafkaConfigValues` | root/src/utils/read_config.py:12-14 | `DEV` is `kafka_config.json` and `DEV_LOCAL` is `kafka_config_dev.json`. Value lookup succeeds exactly on these two names, and each member is found again from its own value. |
| `ConfigFiles.ReadKafkaConfig` | root/src/utils/read_config.py:17-35 | Succeeds exactly when the selected file loads as a dict and `KAFKA_SASL_PASSWORD` is set. The result then has the file's keys plus `sasl.password`, which holds the environment value. Every other key keeps its value. With the file loaded but the variable unset, it fails with ValueError and its message. |
| `ConfigFiles.FilePasswordOverridden` | root/src/utils/read_config.py:34 | A `sasl.password` written in the file has no effect on the result. |
| `ConfigFiles.ReadKafkaConfigIdempotent` | root/src/utils/read_config.py:34-35 | Storing the loaded settings back into the file and reading again gives the same settings. |
| `ConfigFiles.ReadSchema` | root/src/utils/read_config.py:38-51 | Returns the text of the resource named `<schema name>.avsc`. If that file is missing, it fails with FileNotFoundError of that name. |
| `ConfigFiles.SchemaFileNames` | root/src/utils/read_config.py:48 | Different schema names open different `.avsc` files. |

## Left out

- root/src/producer.py is not part of this model. It covers creating the Kafka producer, the delivery callback (which only logs), Avro encoding with fastavro, produce and flush, and the one-second pause between lists. These are calls into libraries and blocking I/O.
- root/src/utils/schema_registry.py is not part of this model. It is a thin wrapper over the Azure Schema Registry client and is network I/O.
- root/__main__.py (command-line parsing and logging setup) is not modelled.
- Logging in `fetch_list` and `fetch_books` is not modelled, because it does not affect any result.
- The real file reads, `json.load`, environment lookups and `requests.get` are parameters. What `json.load` makes of a file is part of the file parameter, not computed from its text. Text decoding of the schema file is not modelled.
- JSON floating-point numbers are not modelled; numbers are integers.
- Key order is not modelled. Dicts are Dafny maps, so they are unordered.
- Resource paths are looked up by the name as given. Joining with the package directory, including absolute names, is not modelled.
- `NYTimesAPI.__init__` is `ReadConfig` applied to the configuration file name, by default `NyTimes.DefaultConfigFile` (`ny_times_config.json`). It has no member of its own.
- NyTimes.CreateUrl: requires `base_url` to be a JSON string, as the source's type annotation says. For any other decoded value, Python would format it with `str()`, and that formatting is not modelled.
- ConfigFiles.KafkaConfigOf: the ValueError message wraps the value in plain single quotes. Python's `repr` quoting and escaping of unusual values is not modelled.
- `read_kafka_config` updates the freshly loaded dict in place. Nothing else holds that dict, so it is modelled as a map update that returns the new map.
