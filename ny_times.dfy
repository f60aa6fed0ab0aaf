/** The bestseller-list client: configuration, request URLs, extraction of
    the books from a response, and normalisation into flat records. */
module NyTimes {
  import opened JsonValue

  /** Configuration file read when none is named. */
  const DefaultConfigFile: string := "ny_times_config.json"
  /** Environment variable that holds the API key. */
  const ApiKeyVariable: string := "NY_TIMES_API_KEY"
  const ApiKeyMissing: string := "NY_TIMES_API_KEY environment variable not set"

  /** The client after construction: the API key from the environment and
      the `base_url` and `lists` entries of the configuration file, as they
      were decoded. */
  datatype NYTimesApi = NYTimesApi(apiKey: string, baseUrl: Json, lists: Json)

  /** A base URL that URL construction can use (the source annotates it `str`). */
  predicate HasTextBaseUrl(api: NYTimesApi) {
    api.baseUrl.JStr?
  }

  // ---------------------------------------------------------------------
  // Configuration

  /** Opens the configuration file, checks the API key, then projects
      `base_url` and `lists`, in that order; any failure is the whole
      result, no partial client is built. */
  function ReadConfig(files: Resources, configFile: string, env: Environment): (r: Result<NYTimesApi>)
    ensures r.Ok? <==>
      && configFile in files && files[configFile].parsed.Some?
      && ApiKeyVariable in env
      && files[configFile].parsed.value.JObject?
      && "base_url" in files[configFile].parsed.value.fields
      && "lists" in files[configFile].parsed.value.fields
    ensures r.Ok? ==>
      var data := files[configFile].parsed.value.fields;
      && r.value.apiKey == env[ApiKeyVariable]
      && r.value.baseUrl == data["base_url"]
      && r.value.lists == data["lists"]
    ensures configFile in files && files[configFile].parsed.Some? && ApiKeyVariable !in env ==>
      r == Err(ValueError(ApiKeyMissing))
    ensures configFile !in files ==> r == Err(FileNotFoundError(configFile))
  {
    match LoadJson(files, configFile)
    case Err(e) => Err(e)
    case Ok(data) =>
      if ApiKeyVariable !in env then Err(ValueError(ApiKeyMissing))
      else
        match Lookup(data, "base_url")
        case Err(e) => Err(e)
        case Ok(baseUrl) =>
          match Lookup(data, "lists")
          case Err(e) => Err(e)
          case Ok(lists) => Ok(NYTimesApi(env[ApiKeyVariable], baseUrl, lists))
  }

  /** A configuration that decodes but is missing an entry fails with the
      KeyError of the first entry read, `base_url` before `lists`. */
  lemma ReadConfigMissingEntry(files: Resources, configFile: string, env: Environment)
    requires configFile in files && files[configFile].parsed.Some?
    requires files[configFile].parsed.value.JObject?
    requires ApiKeyVariable in env
    ensures "base_url" !in files[configFile].parsed.value.fields ==>
      ReadConfig(files, configFile, env) == Err(KeyError("base_url"))
    ensures "base_url" in files[configFile].parsed.value.fields &&
            "lists" !in files[configFile].parsed.value.fields ==>
      ReadConfig(files, configFile, env) == Err(KeyError("lists"))
  {
  }

  // ---------------------------------------------------------------------
  // URL construction

  const UrlQuery: string := ".json?api-key="

  /** `{base_url}{book_list}.json?api-key={api_key}`. */
  function CreateUrl(api: NYTimesApi, bookList: string): (url: string)
    requires HasTextBaseUrl(api)
    ensures |url| == |api.baseUrl.s| + |bookList| + |UrlQuery| + |api.apiKey|
    ensures url[..|api.baseUrl.s|] == api.baseUrl.s
    ensures url[|api.baseUrl.s|..|api.baseUrl.s| + |bookList|] == bookList
    ensures url[|api.baseUrl.s| + |bookList|..] == UrlQuery + api.apiKey
  {
    api.baseUrl.s + bookList + UrlQuery + api.apiKey
  }

  /** Recovers the list name from a URL built for this client, if it is one. */
  function ListNameOfUrl(api: NYTimesApi, url: string): (name: Option<string>)
    requires HasTextBaseUrl(api)
  {
    var base, tail := api.baseUrl.s, UrlQuery + api.apiKey;
    if |base| + |tail| <= |url| && url[..|base|] == base && url[|url| - |tail|..] == tail
    then Some(url[|base|..|url| - |tail|])
    else None
  }

  /** The list name appears unchanged in the URL and can be read back. */
  lemma ListNameRoundTrip(api: NYTimesApi, bookList: string)
    requires HasTextBaseUrl(api)
    ensures ListNameOfUrl(api, CreateUrl(api, bookList)) == Some(bookList)
  {
  }

  /** Different lists are requested from different URLs. */
  lemma CreateUrlInjective(api: NYTimesApi, a: string, b: string)
    requires HasTextBaseUrl(api)
    requires CreateUrl(api, a) == CreateUrl(api, b)
    ensures a == b
  {
    ListNameRoundTrip(api, a);
    ListNameRoundTrip(api, b);
  }

  // ---------------------------------------------------------------------
  // Fetching one list

  /** What `requests.get(url).json()` produced: a RequestException from the
      transport, a body that is not JSON (requests' JSONDecodeError, itself
      a RequestException), or the decoded body. */
  datatype Reply = RequestFailed | BodyNotJson | JsonBody(body: Json)

  /** The HTTP server, as seen by one run: the reply to a GET of each URL. */
  type HttpGet = string -> Reply

  /** The reply carries `results.books`. */
  predicate HasBooks(reply: Reply) {
    && reply.JsonBody? && reply.body.JObject?
    && "results" in reply.body.fields
    && reply.body.fields["results"].JObject?
    && "books" in reply.body.fields["results"].fields
  }

  /** The failures `fetch_list` catches: a RequestException, or a KeyError
      because a dict lacks `results` or `books`. */
  predicate Degraded(reply: Reply) {
    || !reply.JsonBody?
    || (reply.body.JObject? && "results" !in reply.body.fields)
    || (reply.body.JObject? && "results" in reply.body.fields
        && reply.body.fields["results"].JObject?
        && "books" !in reply.body.fields["results"].fields)
  }

  /** Returns `response["results"]["books"]` as it is, or the empty list
      on a caught failure. Indexing something that is not a dict raises
      TypeError, which is not caught and escapes. */
  function FetchList(url: string, http: HttpGet): (r: Result<Json>)
    ensures HasBooks(http(url)) ==> r == Ok(http(url).body.fields["results"].fields["books"])
    ensures Degraded(http(url)) ==> r == Ok(JArray([]))
    ensures r.Err? <==> !HasBooks(http(url)) && !Degraded(http(url))
    ensures r.Err? ==> r.error == TypeError
  {
    match http(url)
    case RequestFailed => Ok(JArray([]))
    case BodyNotJson => Ok(JArray([]))
    case JsonBody(response) =>
      match Lookup(response, "results")
      case Err(KeyError(_)) => Ok(JArray([]))
      case Err(e) => Err(e)
      case Ok(results) =>
        match Lookup(results, "books")
        case Err(KeyError(_)) => Ok(JArray([]))
        case Err(e) => Err(e)
        case Ok(books) => Ok(books)
  }

  /** A reply is exactly one of: it carries the books, it is a caught
      failure, or it has a value that is not a dict where a dict is indexed. */
  lemma RepliesClassified(reply: Reply)
    ensures !(HasBooks(reply) && Degraded(reply))
    ensures !HasBooks(reply) && !Degraded(reply) <==>
      reply.JsonBody? &&
      (!reply.body.JObject? ||
       ("results" in reply.body.fields && !reply.body.fields["results"].JObject?))
  {
  }

  // ---------------------------------------------------------------------
  // Normalising records

  /** The keys read from each raw book, in the order the source reads them. */
  const BookKeys: seq<string> :=
    ["rank", "rank_last_week", "title", "author", "publisher", "description", "amazon_product_url"]
  const BookListKey: string := "book_list"
  /** The keys of every normalised record. */
  const RecordKeys: set<string> := {BookListKey} + set i | 0 <= i < |BookKeys| :: BookKeys[i]

  lemma RecordKeysListed()
    ensures RecordKeys ==
      {"book_list", "rank", "rank_last_week", "title", "author", "publisher", "description", "amazon_product_url"}
  {
    var fromSeq := set i | 0 <= i < |BookKeys| :: BookKeys[i];
    assert BookKeys[0] in fromSeq && BookKeys[1] in fromSeq && BookKeys[2] in fromSeq;
    assert BookKeys[3] in fromSeq && BookKeys[4] in fromSeq && BookKeys[5] in fromSeq;
    assert BookKeys[6] in fromSeq;
  }

  /** A normalised book: the list it came from and seven values copied from
      the raw book as they were decoded. */
  datatype BookRecord = BookRecord(
    bookList: string,
    rank: Json,
    rankLastWeek: Json,
    title: Json,
    author: Json,
    publisher: Json,
    description: Json,
    amazonProductUrl: Json)

  /** The dict the source builds for a record. */
  function ToDict(rec: BookRecord): (d: map<string, Json>)
    ensures d.Keys == RecordKeys
    ensures d[BookListKey] == JStr(rec.bookList)
  {
    RecordKeysListed();
    map[
      "book_list" := JStr(rec.bookList),
      "rank" := rec.rank,
      "rank_last_week" := rec.rankLastWeek,
      "title" := rec.title,
      "author" := rec.author,
      "publisher" := rec.publisher,
      "description" := rec.description,
      "amazon_product_url" := rec.amazonProductUrl]
  }

  /** The position of the first key of `keys` that `fields` lacks. */
  function FirstMissing(fields: map<string, Json>, keys: seq<string>): (r: Option<nat>)
    ensures r.None? <==> forall i :: 0 <= i < |keys| ==> keys[i] in fields
    ensures r.Some? ==>
      && r.value < |keys| && keys[r.value] !in fields
      && forall j :: 0 <= j < r.value ==> keys[j] in fields
  {
    if keys == [] then None
    else if keys[0] !in fields then Some(0)
    else
      match FirstMissing(fields, keys[1..])
      case None => None
      case Some(i) => Some(i + 1)
  }

  predicate HasBookFields(book: Json) {
    book.JObject? && forall i :: 0 <= i < |BookKeys| ==> BookKeys[i] in book.fields
  }

  lemma BookFieldsPresent(fields: map<string, Json>)
    requires HasBookFields(JObject(fields))
    ensures "rank" in fields && "rank_last_week" in fields && "title" in fields && "author" in fields
    ensures "publisher" in fields && "description" in fields && "amazon_product_url" in fields
  {
    assert BookKeys[0] in fields && BookKeys[1] in fields && BookKeys[2] in fields;
    assert BookKeys[3] in fields && BookKeys[4] in fields && BookKeys[5] in fields;
    assert BookKeys[6] in fields;
  }

  /** One iteration of `parse_books`: tag with the list name and copy the
      seven fields; a dict lacking a key raises KeyError for the first
      missing one, anything else raises TypeError. */
  function ParseBook(book: Json, bookListName: string): (r: Result<BookRecord>)
    ensures r.Ok? <==> HasBookFields(book)
    ensures r.Ok? ==> r.value.bookList == bookListName
    ensures r.Ok? ==> (ToDict(r.value) ==
      map k | k in RecordKeys :: if k == BookListKey then JStr(bookListName) else book.fields[k])
    ensures !book.JObject? ==> r == Err(TypeError)
    ensures book.JObject? && r.Err? ==>
      exists i :: (0 <= i < |BookKeys| && r.error == KeyError(BookKeys[i]) && BookKeys[i] !in book.fields
        && forall j :: 0 <= j < i ==> BookKeys[j] in book.fields)
  {
    match book
    case JObject(fields) =>
      (match FirstMissing(fields, BookKeys)
       case Some(i) => Err(KeyError(BookKeys[i]))
       case None =>
         BookFieldsPresent(fields);
         Ok(BookRecord(bookListName, fields["rank"], fields["rank_last_week"], fields["title"],
                       fields["author"], fields["publisher"], fields["description"],
                       fields["amazon_product_url"])))
    case _ => Err(TypeError)
  }

  /** Normalising a normalised record again, under any list name, changes
      only its list tag. */
  lemma ParseBookOfRecord(rec: BookRecord, bookListName: string)
    ensures ParseBook(JObject(ToDict(rec)), bookListName) == Ok(rec.(bookList := bookListName))
  {
    var d := ToDict(rec);
    assert FirstMissing(d, BookKeys) == None;
  }

  /** The whole of `parse_books`: the records of all books, in order, or the
      error of the first book that cannot be normalised. */
  function ParsedBooks(books: seq<Json>, bookListName: string): (r: Result<seq<BookRecord>>)
    ensures r.Ok? ==> |r.value| == |books|
    ensures r.Ok? ==> forall i :: 0 <= i < |r.value| ==> r.value[i].bookList == bookListName
    ensures r.Err? ==> exists k :: 0 <= k < |books| && ParseBook(books[k], bookListName) == Err(r.error)
  {
    if books == [] then Ok([])
    else
      match ParseBook(books[0], bookListName)
      case Err(e) => Err(e)
      case Ok(first) =>
        match ParsedBooks(books[1..], bookListName)
        case Err(e) => Err(e)
        case Ok(rest) => Ok([first] + rest)
  }

  /** `parse_books` succeeds exactly when every book can be normalised, and
      then yields one record per book, in the same order. */
  lemma {:induction false} ParsedBooksOk(books: seq<Json>, bookListName: string)
    ensures ParsedBooks(books, bookListName).Ok? <==>
      forall i :: 0 <= i < |books| ==> ParseBook(books[i], bookListName).Ok?
    ensures ParsedBooks(books, bookListName).Ok? ==>
      var records := ParsedBooks(books, bookListName).value;
      && |records| == |books|
      && forall i :: 0 <= i < |books| ==> records[i] == ParseBook(books[i], bookListName).value
  {
    if books != [] {
      ParsedBooksOk(books[1..], bookListName);
      assert forall i :: 1 <= i < |books| ==> books[i] == books[1..][i - 1];
    }
  }

  /** When some book cannot be normalised, `parse_books` raises the error of
      the first such book. */
  lemma {:induction false} ParsedBooksFirstError(books: seq<Json>, bookListName: string, k: nat)
    requires k < |books| && ParseBook(books[k], bookListName).Err?
    requires forall j :: 0 <= j < k ==> ParseBook(books[j], bookListName).Ok?
    ensures ParsedBooks(books, bookListName) == Err(ParseBook(books[k], bookListName).error)
  {
    if k > 0 {
      assert ParseBook(books[0], bookListName).Ok?;
      assert forall j :: 0 <= j < k - 1 ==> books[1..][j] == books[j + 1];
      ParsedBooksFirstError(books[1..], bookListName, k - 1);
    }
  }

  /** `parse_books` as the source writes it: a loop appending one record per
      book to a list; an exception abandons the list. */
  method ParseBooks(books: seq<Json>, bookListName: string) returns (r: Result<seq<BookRecord>>)
    ensures r.Ok? <==> forall i :: 0 <= i < |books| ==> HasBookFields(books[i])
    ensures r.Ok? ==> (|r.value| == |books| &&
      forall i :: 0 <= i < |books| ==> (r.value[i].bookList == bookListName &&
        r.value[i] == ParseBook(books[i], bookListName).value))
    ensures r.Err? ==> exists k :: (0 <= k < |books| && ParseBook(books[k], bookListName).Err?
      && r.error == ParseBook(books[k], bookListName).error
      && forall j :: 0 <= j < k ==> HasBookFields(books[j]))
    ensures r == ParsedBooks(books, bookListName)
  {
    var parsedBooks: seq<BookRecord> := [];
    var i := 0;
    while i < |books|
      invariant 0 <= i <= |books|
      invariant |parsedBooks| == i
      invariant forall j :: 0 <= j < i ==> ParseBook(books[j], bookListName) == Ok(parsedBooks[j])
    {
      var book := ParseBook(books[i], bookListName);
      if book.Err? {
        ParsedBooksFirstError(books, bookListName, i);
        return Err(book.error);
      }
      parsedBooks := parsedBooks + [book.value];
      i := i + 1;
    }
    ParsedBooksOk(books, bookListName);
    var records := ParsedBooks(books, bookListName).value;
    assert forall j :: 0 <= j < |books| ==> records[j] == parsedBooks[j];
    assert records == parsedBooks;
    r := Ok(parsedBooks);
  }

  /** Iterating a fetched value that is not a list: a dict yields its keys
      and a string its characters, all strings, so the first `book["rank"]`
      raises TypeError; other values are not iterable at all. */
  function ParsedNonArray(books: Json): (r: Result<seq<BookRecord>>)
    requires !books.JArray?
    ensures r.Ok? <==> books == JObject(map[]) || books == JStr("")
    ensures r.Ok? ==> r.value == []
    ensures r.Err? ==> r.error == TypeError
  {
    match books
    case JObject(fields) => if fields == map[] then Ok([]) else Err(TypeError)
    case JStr(s) => if s == "" then Ok([]) else Err(TypeError)
    case _ => Err(TypeError)
  }

  // ---------------------------------------------------------------------
  // Composition

  /** `fetch_books`: build the URL, fetch the list, normalise it. */
  method FetchBooks(api: NYTimesApi, bookListName: string, http: HttpGet) returns (r: Result<seq<BookRecord>>)
    requires HasTextBaseUrl(api)
    ensures var fetched := FetchList(CreateUrl(api, bookListName), http);
      && (fetched.Err? ==> r == Err(fetched.error))
      && (fetched.Ok? && fetched.value.JArray? ==> r == ParsedBooks(fetched.value.items, bookListName))
      && (fetched.Ok? && !fetched.value.JArray? ==> r == ParsedNonArray(fetched.value))
    ensures Degraded(http(CreateUrl(api, bookListName))) ==> r == Ok([])
  {
    var url := CreateUrl(api, bookListName);
    var books := FetchList(url, http);
    match books {
      case Err(e) =>
        r := Err(e);
      case Ok(JArray(items)) =>
        r := ParseBooks(items, bookListName);
      case Ok(other) =>
        r := ParsedNonArray(other);
    }
  }

  // ---------------------------------------------------------------------
  // The repository's test scenarios, stated over the model

  /** The text of the repository's test configuration file. */
  const TestConfigText: string := "{\"base_url\": \"https://test.com/\", \"lists\": [\"test_list1\"]}"

  /** The repository's test configuration with a key in the environment
      yields the client holding that key and the configured base URL. */
  lemma ReadConfigScenario(files: Resources, env: Environment)
    requires files == map["test_config.json" := Resource(TestConfigText, Some(JObject(map[
      "base_url" := JStr("https://test.com/"), "lists" := JArray([JStr("test_list1")])])))]
    requires env == map[ApiKeyVariable := "mock_value"]
    ensures ReadConfig(files, "test_config.json", env) ==
      Ok(NYTimesApi("mock_value", JStr("https://test.com/"), JArray([JStr("test_list1")])))
  {
  }

  /** That client builds the URL the repository's test expects. */
  lemma CreateUrlScenario(api: NYTimesApi)
    requires api.apiKey == "mock_value" && api.baseUrl == JStr("https://test.com/")
    ensures CreateUrl(api, "test_list1") == "https://test.com/test_list1.json?api-key=mock_value"
  {
    assert CreateUrl(api, "test_list1") == "https://test.com/" + "test_list1" + ".json?api-key=" + "mock_value";
  }

  /** The raw book of the repository's test normalises to the expected record. */
  lemma ParseBookScenario(raw: Json)
    requires raw == JObject(map[
      "rank" := JInt(1), "rank_last_week" := JInt(0), "title" := JStr("test_title"),
      "author" := JStr("test_author"), "publisher" := JStr("test_publisher"),
      "description" := JStr("test_description"), "amazon_product_url" := JStr("test_url")])
    ensures ParsedBooks([raw], "test_list1") == Ok([BookRecord(
      "test_list1", JInt(1), JInt(0), JStr("test_title"), JStr("test_author"),
      JStr("test_publisher"), JStr("test_description"), JStr("test_url"))])
  {
    var rec := BookRecord(
      "test_list1", JInt(1), JInt(0), JStr("test_title"), JStr("test_author"),
      JStr("test_publisher"), JStr("test_description"), JStr("test_url"));
    assert HasBookFields(raw);
    assert ParseBook(raw, "test_list1") == Ok(rec);
    ParsedBooksOk([raw], "test_list1");
    assert [raw][0] == raw;
    assert ParsedBooks([raw], "test_list1").value == [rec];
  }
}
