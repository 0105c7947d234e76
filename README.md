# Postman collection assembly, modelled in Dafny

This project models the core of a Laravel package that exports API routes as
a Postman collection. It covers two components.

- **`PostmanJsonBuilder`** builds a request item for each route:
  - headers and auth, inherited from the folder policy the route's URI
    matches, with the `@no-auth` override applied;
  - the URL and its query parameters;
  - the body, inferred from the request class's validation rules or from the
    `@body` tag;
  - one response example;
  - the policy's scripted events.

  It then places the item in a nested folder tree and wraps the tree as a
  collection.
- **`ResponseExtractor`** samples the value a controller action returns. It
  collects the value's dotted key paths and turns them into an example body
  that maps each path to itself. Paginated results get fake `meta` and
  `links` blocks.

The configuration is an explicit `Config` value. What the docblock tags say
arrives already parsed (`Tags`). A request class arrives as the outcome of
reading its rules (`RulesOutcome`). The controller action arrives as the
outcome of invoking it (`Invocation`, a `ResponseValue` or a failure). The
paths at which files exist are a set parameter.

Modules:
- `Wrappers`: `Option` and `Result`.
- `Values`: PHP arrays and objects as ordered key/value lists.
- `Sequences`: facts about concatenation that the proofs cite by name.
- `Php`: the PHP string and array built-ins the code relies on (trim,
  strtolower, ucfirst, ltrim, explode/implode, array_filter, array_unique).
- `Document`: the collection document.
- `FolderTree`: the specification of the folder walk, with its lemmas.
- `PostmanJsonBuilder`: the builder.
- `ResponseExtractor`: the response sampler.

The code works step by step in several places, and those places are methods
with loops, each proved equal to a specification function:
- `Build` accumulates the folder tree.
- `AssignToNestedFolder` walks down through a reference. The method keeps an
  explicit path of frames and writes back through them (`Plug`).
- `BuildQueryParams` rewrites parameters in place.
- `BuildEvents` appends events.
- `InferTypeNameFromRules` loops with early returns.
- `ExtractAllKeys`, `EntriesKeys`, `PropsKeys`, `EntryKeys`, `PropKeys` and
  `AppendPrefixed` collect paths with nested loops and recursion.

Where the written behaviour and the intended design differ, the model follows
the code, except for the two defects listed under "## Findings". Each of those
is modelled twice, once as written and once corrected, and the rest of the
model uses the corrected version (see "## Left out"). Otherwise the code is
followed:
- The folder walk reuses the first child with a matching `name`, whether that
  child is a folder or a request item. A request item that is reused this way
  gains an `item` member (`Leaf.items`).
- A folder key `""` or `"0"` can be detected, but it is falsy. The route then
  falls back to the `default` policy (`EmptyKeyFallsBackToDefault`).
- A `@response` literal is used as raw text and is not JSON-decoded. Sampling
  is used only when the literal is missing or falsy.
- Route headers and global headers are concatenated, so duplicates are kept.
- Only a folder created at the first level gets the policy's auth block. A
  first-level folder that already exists is reused as it is, and no block is
  added to it.

## Model

| member | source | states |
|---|---|---|
| `PostmanJsonBuilder.Build` | src/Builder/PostmanJsonBuilder.php:14-25 | the collection is `info {name, schema}` plus the tree obtained by placing each route's item in route order |
| `PostmanJsonBuilder.AssembleKeepsEveryItem` | src/Builder/PostmanJsonBuilder.php:16-22 | every route's item appears in the assembled tree exactly once, and no other item does |
| `PostmanJsonBuilder.AssembleWellFormed` | src/Builder/PostmanJsonBuilder.php:16-22 | at every depth, no folder shares its name with an earlier sibling |
| `PostmanJsonBuilder.AssembleWithoutPolicies` | src/Builder/PostmanJsonBuilder.php:245-257 | with no folder policy at all, the collection is the flat list of items in route order |
| `PostmanJsonBuilder.BuildRouteItem` | src/Builder/PostmanJsonBuilder.php:39-81 | builds the item that `RouteItemOf` specifies: headers, auth, URL, query, conditional body, response, events |
| `PostmanJsonBuilder.ItemHeadersAndAuth` | src/Builder/PostmanJsonBuilder.php:45-73 | without `@no-auth`, the headers are the inherited ones; with it, no `Authorization`/`X-Auth-Token` header is left, every other inherited header is kept in order, and auth is `{type: noauth}` |
| `PostmanJsonBuilder.ItemAuth` | src/Builder/PostmanJsonBuilder.php:43-73 | without `@no-auth`: a non-empty route auth is formatted; an empty route auth gives `noauth`, even under a global policy that has auth; with no route auth, a global policy's non-empty auth is formatted; a global policy with missing or empty auth gives `noauth`; no global policy gives `noauth` |
| `PostmanJsonBuilder.ItemBody` | src/Builder/PostmanJsonBuilder.php:58-63 | a body is attached if and only if the method is POST, PUT, PATCH or GET and the parameter set is non-empty |
| `PostmanJsonBuilder.DetectFolderKey` | src/Builder/PostmanJsonBuilder.php:545-556 | the result is the first key in configuration order that is not `default` and prefixes the URI; None if and only if no key applies |
| `PostmanJsonBuilder.PolicySelection` | src/Builder/PostmanJsonBuilder.php:83-92 | a truthy detected key selects its own policy, never `default`; when no key applies, the `default` policy (if any) is selected |
| `PostmanJsonBuilder.EmptyKeyFallsBackToDefault` | src/Builder/PostmanJsonBuilder.php:87-91 | an empty key that applies first hides later keys, and the `default` policy is used |
| `PostmanJsonBuilder.FormatHeaders` | src/Builder/PostmanJsonBuilder.php:580-585 | a `name => value` map becomes `{key, value}` entries, one per header, in order |
| `PostmanJsonBuilder.BuildHeaders` | src/Builder/PostmanJsonBuilder.php:94-101 | the route's headers come first and unchanged; the policy's headers follow only when the policy is global |
| `PostmanJsonBuilder.BuildAuth` | src/Builder/PostmanJsonBuilder.php:103-110 | the route's auth if present, else the policy's auth when global, else none |
| `PostmanJsonBuilder.NoAuthMarkerAnywhere` | src/Builder/PostmanJsonBuilder.php:558-561 | `@no-auth` is detected wherever it occurs in the docblock |
| `PostmanJsonBuilder.NoAuthHeaders` | src/Builder/PostmanJsonBuilder.php:49-51 | the kept headers are exactly the headers that are not credential headers |
| `PostmanJsonBuilder.NoAuthHeadersAsWrittenLeaveHoles` | src/Builder/PostmanJsonBuilder.php:49-51 | as written, filtering `[Authorization, Accept]` leaves `Accept` under index 1, which is not a list |
| `PostmanJsonBuilder.NoAuthHeadersRenumbered` | src/Builder/PostmanJsonBuilder.php:49-51 | the intended filter is the written filter followed by renumbering |
| `PostmanJsonBuilder.NoAuthHeadersOfConcat` | src/Builder/PostmanJsonBuilder.php:49-51 | filtering respects concatenation, so route headers stay ahead of folder headers |
| `PostmanJsonBuilder.NoAuthHeadersKeepOthers` | src/Builder/PostmanJsonBuilder.php:49-51 | headers without credentials pass through unchanged |
| `PostmanJsonBuilder.FormatAuth` | src/Builder/PostmanJsonBuilder.php:573-578 | the block is `type`, then the member the type names, copied from the configuration or `[]` when missing; a type of `"type"` overwrites itself |
| `PostmanJsonBuilder.RewriteValue` | src/Builder/PostmanJsonBuilder.php:118-120 | a value starting with `:` becomes `{` + the value without its leading colons + `}`, and every removed character is a colon; other values are unchanged |
| `PostmanJsonBuilder.RewriteIdempotent` | src/Builder/PostmanJsonBuilder.php:118-120 | a rewritten value no longer starts with `:`, so rewriting it again changes nothing |
| `PostmanJsonBuilder.BuildQueryParams` | src/Builder/PostmanJsonBuilder.php:112-125 | the rewrite keeps the number of parameters and every key, and rewrites only the values |
| `PostmanJsonBuilder.ConvertBracesAtSlash` | src/Builder/PostmanJsonBuilder.php:489-492 | no `{name}` placeholder spans a `/`, so converting a path converts each of its parts |
| `PostmanJsonBuilder.ConvertPathSegments` | src/Builder/PostmanJsonBuilder.php:494-500 | each segment is converted, in order |
| `PostmanJsonBuilder.PathSegmentsJoin` | src/Builder/PostmanJsonBuilder.php:133-135 | the converted path segments, joined with `/`, equal the converted raw URI |
| `PostmanJsonBuilder.BuildRequest` | src/Builder/PostmanJsonBuilder.php:127-140 | `raw` is the base URL followed by the joined path; `host` is the base URL token; `path` holds the converted segments |
| `PostmanJsonBuilder.GetRouteName` | src/Builder/PostmanJsonBuilder.php:475-487 | the name is the route name, else a truthy description, else the URI |
| `PostmanJsonBuilder.BuildEvents` | src/Builder/PostmanJsonBuilder.php:209-238 | builds the events of `EventsOf`: none unless the policy is global, at most two |
| `PostmanJsonBuilder.EventsCarryScripts` | src/Builder/PostmanJsonBuilder.php:217-235 | each event's lines, joined with newlines, give back its script; a global policy yields an event for a script exactly when that script is set and truthy; the pre-request event comes before the test event |
| `PostmanJsonBuilder.InferTypeNameFromRules` | src/Builder/PostmanJsonBuilder.php:656-689 | the loop computes `TypeFromRules`, the scan over the split rules |
| `PostmanJsonBuilder.ScanDecided` | src/Builder/PostmanJsonBuilder.php:662-686 | the first recognised rule decides the type (a rule that cannot be trimmed raises instead) |
| `PostmanJsonBuilder.ScanUndecided` | src/Builder/PostmanJsonBuilder.php:688 | when no rule is recognised, the type is `<string>` |
| `PostmanJsonBuilder.StringRulesAsList` | src/Builder/PostmanJsonBuilder.php:658-660 | a rule string joined with pipes types the same as its list of parts |
| `PostmanJsonBuilder.NormaliseIdempotent` | src/Builder/PostmanJsonBuilder.php:663 | trimming and lower-casing is idempotent, and recognition ignores case and surrounding blanks |
| `PostmanJsonBuilder.Placeholders` | src/Builder/PostmanJsonBuilder.php:159-162 | each field maps to the token of its type, in order; the result is an error if and only if some field's rules raise |
| `PostmanJsonBuilder.PlaceholdersKeepError` | src/Builder/PostmanJsonBuilder.php:155-170 | after one field's rules raise, later fields change nothing |
| `PostmanJsonBuilder.ParamsFromRequestClass` | src/Builder/PostmanJsonBuilder.php:153-173 | an exception while reading the rules gives the `error`/`request_class` body; empty rules give the default parameters; non-empty rules whose types all resolve give one entry per field, in order, mapping the field to its type's token; when typing raises, the error body carries that exception's message |
| `PostmanJsonBuilder.PlaceholdersFirstError` | src/Builder/PostmanJsonBuilder.php:159-162 | the first field whose rules raise decides the error that the placeholder loop reports |
| `PostmanJsonBuilder.RequestClassTypingRaises` | src/Builder/PostmanJsonBuilder.php:155-169 | when field `j` is the first whose rules raise, the parameters are the error body with that field's exception message |
| `PostmanJsonBuilder.GetParamsFromRequestClass` | src/Builder/PostmanJsonBuilder.php:153-173 | the loop over the fields computes `ParamsFromRequestClass` |
| `PostmanJsonBuilder.ScalarBodyRaises` | src/Builder/PostmanJsonBuilder.php:176-180 | as written, a `@body` that decodes to a scalar raises a type error instead of falling back |
| `PostmanJsonBuilder.ParamsFromDocblock` | src/Builder/PostmanJsonBuilder.php:176-180 | the decoded `@body` is used when it is an array, and the default parameters otherwise |
| `PostmanJsonBuilder.ParamsFromDocblockAgrees` | src/Builder/PostmanJsonBuilder.php:176-180 | wherever the written code returns, it returns what the corrected function returns; it raises exactly for a non-null scalar |
| `PostmanJsonBuilder.BuildRequestBody` | src/Builder/PostmanJsonBuilder.php:142-151 | uses the request class's parameters when a class exists, and the docblock's otherwise |
| `PostmanJsonBuilder.FormatFormData` | src/Builder/PostmanJsonBuilder.php:629-636 | one `{key, value, type: text}` entry per parameter, in order |
| `PostmanJsonBuilder.FormatMultipart` | src/Builder/PostmanJsonBuilder.php:638-654 | a parameter whose value is an existing file path becomes a file entry; every other parameter becomes a text entry |
| `PostmanJsonBuilder.FormFieldsRoundTrip` | src/Builder/PostmanJsonBuilder.php:629-654 | reading the form entries back gives the parameters, in order |
| `PostmanJsonBuilder.FormatBody` | src/Builder/PostmanJsonBuilder.php:443-473 | `json` gives raw with the json language; `form-data` and `urlencoded` give form entries; `multipart` gives form entries with files; any other mode gives plain raw |
| `PostmanJsonBuilder.BuildResponse` | src/Builder/PostmanJsonBuilder.php:182-207 | at most one example; a truthy literal is used as is; otherwise the sampled shape is used, and there is no example exactly when sampling fails |
| `PostmanJsonBuilder.FolderNames` | src/Builder/PostmanJsonBuilder.php:511-516 | there are `min(level, #segments)` names, none for a level below one, and each is its segment with `ucfirst` applied |
| `PostmanJsonBuilder.FindChild` | src/Builder/PostmanJsonBuilder.php:519-525 | the loop finds the first child with that name, leaves included |
| `PostmanJsonBuilder.AssignToNestedFolder` | src/Builder/PostmanJsonBuilder.php:502-543 | the walk through the reference yields the tree that `Assign` specifies |
| `PostmanJsonBuilder.AddRouteToFolders` | src/Builder/PostmanJsonBuilder.php:245-258 | a non-empty policy places the item under its folder path (level 1 by default); otherwise the item goes at the root |
| `PostmanJsonBuilder.PlacedAddsOneItem` | src/Builder/PostmanJsonBuilder.php:245-258 | placement inserts exactly the new item and keeps every earlier item in its relative order |
| `PostmanJsonBuilder.PlacedKeepsWellFormed` | src/Builder/PostmanJsonBuilder.php:514-539 | placement keeps sibling folder names distinct |
| `PostmanJsonBuilder.SharedPrefixSharesFolders` | src/Builder/PostmanJsonBuilder.php:514-542 | two routes with the same folder names share every folder: the second creates no node, and both items end the same folder, in order |
| `PostmanJsonBuilder.PlacedAuth` | src/Builder/PostmanJsonBuilder.php:533-535 | the number of folders with auth grows by one exactly when a first-level folder is created and the policy has auth |
| `PostmanJsonBuilder.ApiRouteItem` | config/postman-exporter.php:101-119 | a route under the shipped `api` policy with no tags gets its two headers, its bearer auth and both scripts |
| `PostmanJsonBuilder.ApiRoutePlacement` | config/postman-exporter.php:101-119 | `api/users/{id}` lands in `Api` then `Users`, and `Api` carries the bearer auth |
| `FolderTree.FirstNamed` | src/Builder/PostmanJsonBuilder.php:519-525 | the result is the first child whose name matches, or None when no child matches |
| `FolderTree.AssignAddsOneLeaf` | src/Builder/PostmanJsonBuilder.php:514-542 | the walk inserts the item once into the list of items and keeps every other item in order |
| `FolderTree.AssignThenDescend` | src/Builder/PostmanJsonBuilder.php:514-542 | following the path after insertion reaches the folder it already led to, now ending with the item |
| `FolderTree.SamePathSameFolder` | src/Builder/PostmanJsonBuilder.php:514-542 | two insertions along one path end in the same folder, in order |
| `FolderTree.AssignSize` | src/Builder/PostmanJsonBuilder.php:527-539 | the walk adds one entry for the item and one folder per missing level, nothing else |
| `FolderTree.AssignAuth` | src/Builder/PostmanJsonBuilder.php:533-535 | only a folder created at the first level receives the auth block. The auth-folder count grows by one exactly then, when there is auth to give. A new first-level folder is appended after the untouched list, with the segment's name and the auth. A reused first-level entry keeps its name and auth, and every other entry is unchanged |
| `FolderTree.AssignKeepsWellFormed` | src/Builder/PostmanJsonBuilder.php:519-539 | the walk keeps sibling folder names distinct at every depth |
| `FolderTree.DescendIntoChild` | src/Builder/PostmanJsonBuilder.php:519-523 | descending into an existing child through a frame preserves the outcome of the whole walk |
| `FolderTree.DescendIntoNewFolder` | src/Builder/PostmanJsonBuilder.php:527-538 | descending into a newly appended folder preserves the outcome of the whole walk |
| `ResponseExtractor.ExtractAllKeys` | src/Helpers/ResponseExtractor.php:164-195 | the loops compute `Paths`; the result has no duplicates and no falsy path |
| `ResponseExtractor.EntriesKeys` | src/Helpers/ResponseExtractor.php:172-180 | the loop over array entries records each labelled key followed by its prefixed nested paths |
| `ResponseExtractor.PropsKeys` | src/Helpers/ResponseExtractor.php:181-191 | the same as `EntriesKeys`, over an object's named properties |
| `ResponseExtractor.EntryKeys` | src/Helpers/ResponseExtractor.php:174-179 | one array entry extends the walk from `EntriesRaw(v, i)` to `EntriesRaw(v, i + 1)`; `EntriesRawNext` spells that out: nothing for a key that is not a non-empty string, otherwise the key, then the key prefixed to each path of its value |
| `ResponseExtractor.PropKeys` | src/Helpers/ResponseExtractor.php:184-189 | the same step for one object property, under its cleaned name (`PropsRaw`, `PropsRawNext`) |
| `ResponseExtractor.AppendPrefixed` | src/Helpers/ResponseExtractor.php:177-179 | appends `key.n` for each nested path `n`, in order |
| `ResponseExtractor.ArrayPathsMembers` | src/Helpers/ResponseExtractor.php:172-180 | a path is a non-empty string key, or such a key followed by a dot and a path of its value |
| `ResponseExtractor.ArrayPathsOrder` | src/Helpers/ResponseExtractor.php:194 | the paths follow the order of their first occurrence in the walk |
| `ResponseExtractor.ListHasNoPaths` | src/Helpers/ResponseExtractor.php:174 | integer-keyed entries are neither recorded nor descended into |
| `ResponseExtractor.FlatArrayPaths` | src/Helpers/ResponseExtractor.php:172-194 | a flat array with distinct truthy keys has exactly its keys as paths, in order |
| `ResponseExtractor.SelfMapLookup` | src/Helpers/ResponseExtractor.php:141-142 | `array_combine($keys, $keys)` maps exactly the given keys, each to itself |
| `ResponseExtractor.ExampleOf` | src/Helpers/ResponseExtractor.php:52-53 | the example has one entry per path, and each path maps to itself |
| `ResponseExtractor.ExampleOfMapsPaths` | src/Helpers/ResponseExtractor.php:140-142 | looking up any key in the example gives that key when it is a path, and nothing otherwise |
| `ResponseExtractor.GetDataSample` | src/Helpers/ResponseExtractor.php:197-211 | the sample is never empty; a model falls back from fillable fields to attribute names to `id`; an array falls back from its paths to `example`; anything else gives `{example: example}` |
| `ResponseExtractor.FakePagination` | src/Helpers/ResponseExtractor.php:213-246 | length-aware: meta with page 1 of 10, `per_page` and total 150, plus four links; simple: meta with page 1 and `per_page`, plus prev/next URLs; any other value: empty |
| `ResponseExtractor.PerPageReported` | src/Helpers/ResponseExtractor.php:213-243 | both pagination shapes report the paginator's `perPage()` |
| `ResponseExtractor.Guess` | src/Helpers/ResponseExtractor.php:16-157 | any sampled example is an array; a failed invocation yields none; the lemmas below state what each branch returns |
| `ResponseExtractor.GuessCollectionFirstResource` | src/Helpers/ResponseExtractor.php:59-66 | a collection with no `collects` class whose first member is a resource gives `{data: [example]}`; the example maps exactly that member's paths to themselves |
| `ResponseExtractor.GuessCollectionFirstModel` | src/Helpers/ResponseExtractor.php:59-74 | the same with a model as first member: the example maps its fillable names, or its attribute names when none are fillable |
| `ResponseExtractor.GuessCollectionData0` | src/Helpers/ResponseExtractor.php:104-111 | any other collection without a resource class: with `data[0]` set, `{data: [example of data[0]]}`; otherwise the example of the whole conversion, each path mapped to itself |
| `ResponseExtractor.GuessModel` | src/Helpers/ResponseExtractor.php:134-137 | a model maps its fillable names, or its attribute names when none are fillable, to themselves |
| `ResponseExtractor.GuessResource` | src/Helpers/ResponseExtractor.php:50-54 | a single resource is described by its paths, each mapped to itself |
| `ResponseExtractor.GuessPaginatedCollection` | src/Helpers/ResponseExtractor.php:77-101 | a collection of a resource class gives `data` with one sample that maps exactly the paths of the class's fake conversion to themselves; over a paginator it adds `meta` (reporting `per_page`) and then `links`, and otherwise `data` is the only member |
| `ResponseExtractor.GuessArray` | src/Helpers/ResponseExtractor.php:140-143 | a returned array is described by its own paths, each mapped to itself, and anything else of this kind gives no example |
| `ResponseExtractor.GuessArrayable` | src/Helpers/ResponseExtractor.php:145-151 | an object whose `toArray` yields an array is described by the paths of what it yields, each mapped to itself, and by no example otherwise |
| `ResponseExtractor.GuessPage` | src/Helpers/ResponseExtractor.php:114-132 | a paginator gives exactly `data` (one sample of its first item), then `meta`, then `links`; `meta` reports `per_page` |
| `ResponseExtractor.GuessNone` | src/Helpers/ResponseExtractor.php:140-156 | there is no example exactly on failure, on an unknown value, or on a conversion that does not yield an array |
| `Php.UniqueKeepsFirstOccurrenceOrder` | src/Helpers/ResponseExtractor.php:194 | `array_unique` keeps each value at its first occurrence, in order |
| `Php.ExplodeJoin` | src/Builder/PostmanJsonBuilder.php:659 | exploding a join of delimiter-free pieces gives back the pieces |
| `Php.JoinExplode` | src/Builder/PostmanJsonBuilder.php:222 | joining the pieces of an explode gives back the string |
| `Php.ContainsAt` | src/Builder/PostmanJsonBuilder.php:560 | the substring test holds if and only if the pattern occurs at some index |
| `Php.TrimEnds` | src/Builder/PostmanJsonBuilder.php:663 | trim removes only blanks from the ends, and its result neither starts nor ends with one |

## Left out

- Reflection and live invocation in `guess`: creating the controller, faking a request, invoking the action, converting resources. Their outcome is an input (`Invocation`). A controller class that does not exist counts as a failure.
- Finding a request class (`extractRequestClass`) and reading its rules (`extractRulesFromRequestClass`, `extractRulesUsingReflection`, `createRequestInstance`, `parseRulesFromSource`, `extractMethodSource`, `parseRulesFromMethodSource`). These depend on the framework, files and regular expressions. The class and the outcome of reading its rules (`RulesOutcome`) are inputs.
- The docblock regex extractors (`extractTag`, `extractHeaders`, `extractQuery`, `extractAuth`, `extractResponse`, `extractFormParams`, `extractMultipartParams`). Their results arrive parsed in `Tags`. `extractNoAuth` is modelled as substring containment.
- JSON text. `pretty`, `json_encode` and `json_decode` are not modelled. Bodies and sampled shapes are structured values. A raw body holds its parameters instead of their text.
- `loadConfiguration` and the ambient `config()` read in `detectFolderKey`. The configuration is the `Config` parameter.
- `file_exists` in `formatMultipart` is a filesystem call. The set of existing paths is a parameter.
- FormatMultipart: only a string value is looked up as a path. In PHP, without strict types, `file_exists` coerces an integer or boolean value to a path string, so a value `42` becomes a file entry when a file named `42` exists. An array value, for example from `@body {"tags":["a"]}` under `multipart`, makes `file_exists` throw a TypeError that nothing catches, which aborts the export. The model turns all such values into text entries.
- In `extractAllKeys`, the conversion of a Laravel `Collection` is not modelled. Nor is stripping the visibility prefix from object property names; objects arrive as already-cleaned `(name, value)` properties.
- PHP's conversion of numeric-string array keys to integer keys is not modelled. A `StrKey` stands for a key that stayed a string.
- Floating-point values are not part of `Json`.
- Descending into a request item during the folder walk makes PHP emit warnings (a `foreach` over null). The model follows PHP's behaviour after the warning: the walk continues, and the item gains an `item` member.
- FormatAuth: requires the auth `type` to be a scalar. In PHP an array or object `type` is an illegal offset and throws, and nothing catches it. The model excludes such auth arrays instead of modelling the abort.
- BuildRouteItem: requires usable auth arrays in the route and the configuration (`RouteUsable`, `ConfigUsable`), for the reason given for FormatAuth.
- Build: requires usable auth arrays in every route and in the configuration, for the same reason.
- BuildRequestBody: uses the corrected `ParamsFromDocblock`, so a `@body` that decodes to a scalar gives the default parameters. As written, PHP raises a TypeError there (the first row under "## Findings", modelled by `ParamsFromDocblockAsWritten` and `ScalarBodyRaises`). The model does not model that abort.
- ItemHeadersAndAuth: under `@no-auth`, the remaining headers are renumbered (`NoAuthHeaders`). As written, `array_filter` keeps the original indices, so a removed credential header leaves a hole and the headers encode as a JSON object (the second row under "## Findings", modelled by `NoAuthHeadersAsWrittenLeaveHoles` and `NoAuthHeadersRenumbered`).
- BuildRouteItem: its headers come from `ItemHeadersAndAuth`, so they are always a list. For the same reason, `Build` emits them as a list where PHP emits an object with a hole.
- BuildRouteItem: builds its body through `BuildRequestBody`, so it never aborts on a scalar `@body`. As written, the TypeError propagates out of `buildRouteItem`, because nothing catches it.
- Build: for the same reason, it returns a collection where PHP's `build` aborts the whole export on a route with a scalar `@body`.
- InferTypeNameFromRules: a rule set that is neither a string nor a list is not modelled. A rule that `trim()` refuses (an object) is modelled as raising.
- Multi-byte strings: `strtolower` and `ucfirst` act on ASCII letters only, as in PHP 8.
- The command that writes and syncs the collection (`src/Commands/ExportPostmanCommand.php`) is not part of this model, and neither is the environment document. Route discovery (`src/Route/PostmanRouteParser.php`) and service registration (`src/PostmanServiceProvider.php`) are not part of it either. The shipped configuration serves only as a fixture (`ApiPolicy`).

## Findings

| source | as written | input that shows it | evidently intended | confidence | as-written member | corrected member |
|---|---|---|---|---|---|---|
| src/Builder/PostmanJsonBuilder.php:176-180 | a `@body` that decodes to a scalar is returned from a method declared to return `array`; the resulting TypeError is not caught, so the whole export aborts | a route without a request class whose docblock has `@body 42` and a body-carrying method | fall back to the default parameters | high; not executed | `PostmanJsonBuilder.ScalarBodyRaises` | `PostmanJsonBuilder.ParamsFromDocblock` |
| src/Builder/PostmanJsonBuilder.php:49-51 | `array_filter` keeps the original indices, so after a credential header is removed the header list has a hole and encodes as a JSON object | `@no-auth` with `@header Authorization: x` under a global policy with an `Accept` header | a re-indexed list of the remaining headers | medium; not executed | `PostmanJsonBuilder.NoAuthHeadersAsWrittenLeaveHoles` | `PostmanJsonBuilder.NoAuthHeadersRenumbered` |
