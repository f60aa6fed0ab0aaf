/** Values decoded from JSON, the Python exceptions the core raises or
    catches, and the packaged resource files the core opens. */
module JsonValue {

  /** A value as `json.load` / `Response.json()` hands it to Python:
      null, a boolean, an integer, a string, a list or a dict. */
  datatype Json =
    | JNull
    | JBool(b: bool)
    | JInt(i: int)
    | JStr(s: string)
    | JArray(items: seq<Json>)
    | JObject(fields: map<string, Json>)

  datatype Option<T> = None | Some(value: T)

  /** The exceptions that can leave the modelled functions. */
  datatype Error =
    | ValueError(message: string)
    | KeyError(key: string)
    | TypeError
    | FileNotFoundError(path: string)
    | JsonDecodeError

  datatype Result<T> = Ok(value: T) | Err(error: Error)

  /** One file of the package's resource directory: its text, and what
      `json.load` makes of it (None when the text is not valid JSON). */
  datatype Resource = Resource(text: string, parsed: Option<Json>)

  /** The resource directory, by file name. */
  type Resources = map<string, Resource>

  /** The process environment, as `os.environ`. */
  type Environment = map<string, string>

  /** Python's `value[key]` with a string key: a dict yields the entry or
      raises KeyError; every other JSON value raises TypeError. */
  function Lookup(value: Json, key: string): (r: Result<Json>)
    ensures r.Ok? <==> value.JObject? && key in value.fields
    ensures r.Ok? ==> r.value == value.fields[key]
    ensures r.Err? ==> r.error == (if value.JObject? then KeyError(key) else TypeError)
  {
    match value
    case JObject(fields) => if key in fields then Ok(fields[key]) else Err(KeyError(key))
    case _ => Err(TypeError)
  }

  /** Python's `with open(path) as f: json.load(f)` on a resource file. */
  function LoadJson(files: Resources, path: string): (r: Result<Json>)
    ensures r.Ok? <==> path in files && files[path].parsed.Some?
    ensures r.Ok? ==> r.value == files[path].parsed.value
    ensures path !in files ==> r == Err(FileNotFoundError(path))
    ensures path in files && files[path].parsed.None? ==> r == Err(JsonDecodeError)
  {
    if path !in files then Err(FileNotFoundError(path))
    else match files[path].parsed
      case None => Err(JsonDecodeError)
      case Some(data) => Ok(data)
  }
}
