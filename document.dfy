/**
 * The collection document the exporter assembles: folder and request items,
 * requests with their headers, URL, body and auth block, response examples
 * and scripted events. Everything is a structured value; its JSON text is
 * not part of the model.
 */
module Document {
  import opened Wrappers
  import opened Values

  /** A PHP array as a list of its members in order: an auth block, a set of
      body parameters. */
  type Object = seq<(Key, Json)>

  /** One `{key, value}` entry of a request's header list. */
  datatype Header = Header(key: string, value: string)

  /** One `{key, value}` entry of a URL's query list. */
  datatype QueryParam = QueryParam(key: string, value: string)

  datatype Url = Url(raw: string, host: seq<string>, path: seq<string>, query: seq<QueryParam>)

  /** One entry of a form body: `{key, value, type: 'text'}` or `{key, src: [path], type: 'file'}`. */
  datatype FormField = TextField(key: Key, value: Json) | FileField(key: Key, src: seq<string>)

  /** A request body by its mode. `Raw` holds the parameters whose JSON text is
      the `raw` member; `jsonLanguage` says whether `options.raw.language` is
      `json`. `FormData` is mode `formdata`, `UrlEncoded` mode `urlencoded`. */
  datatype Body =
    | Raw(params: seq<(Key, Json)>, jsonLanguage: bool)
    | FormData(fields: seq<FormField>)
    | UrlEncoded(fields: seq<FormField>)
  {
    function Mode(): string {
      match this
      case Raw(_, _) => "raw"
      case FormData(_) => "formdata"
      case UrlEncoded(_) => "urlencoded"
    }
  }

  datatype Request = Request(
    verb: string,
    header: seq<Header>,
    url: Url,
    description: Option<string>,
    body: Option<Body>,
    auth: Object)

  /** A response example's body: the literal text of an annotation, or a
      sampled shape (whose JSON text is the body). */
  datatype ResponseBody = Literal(text: string) | Sampled(shape: Json)

  datatype ResponseExample = ResponseExample(name: string, status: string, code: int, body: ResponseBody)

  /** A scripted event: `{listen, script: {type, exec}}`. */
  datatype Event = Event(listen: string, scriptType: string, exec: seq<string>)

  /** A request item; an empty `event` list stands for an absent `event` member. */
  datatype RouteItem = RouteItem(name: string, request: Request, response: seq<ResponseExample>, event: seq<Event>)

  /** A node of the item tree. A folder is `{name, item, auth?}`. A request
      item is normally childless, but when the folder walk descends into it
      (its name equals a folder segment) it gains an `item` member of its own:
      `items` holds that member, empty when there is none. */
  datatype Entry =
    | Folder(name: string, auth: Option<Object>, items: seq<Entry>)
    | Leaf(item: RouteItem, items: seq<Entry>)

  datatype Info = Info(name: string, schema: string)

  datatype Collection = Collection(info: Info, item: seq<Entry>)

  /** The `name` member of an entry. */
  function Name(e: Entry): string {
    match e
    case Folder(n, _, _) => n
    case Leaf(item, _) => item.name
  }
}
