# OpenAPI generator plugin for WordPress — a verified model

The repository holds two alternative versions of one WordPress plugin. Each
turns the REST server's route table into an OpenAPI document. They define
the same PHP function names, so each version is its own Dafny module:

- `OpenAiSpecGenerator` (`openai_spec_generator.dfy`) models
  `openai-specification-generator.php`:
  - endpoint discovery keeps only handlers with an array callback on static
    routes (no `(?P<`) and keeps the first record per route, found by a
    linear scan with a break flag;
  - the settings page splits the filter text on line breaks and drops every
    endpoint whose route contains one of the words, ignoring case;
  - the sanitiser of the saved per-route settings turns `include` into 1 or 0;
    the settings form itself posts back to the plugin's own page
    (openai-specification-generator.php:133), whose save branch (:191-193)
    is empty, so nothing in the plugin stores the settings or the filter
    words, and with no saved settings `paths` is empty (`NothingSaved`);
  - the OpenAPI 3.0.1 document has one path per included discovered route
    and one operation per lower-cased method. Each operation has a `200`
    response referring to a per-route, per-method schema and a `default`
    response referring to `error_response`.
- `WpOpenApiGenerator` (`wp_openapi_generator.dfy`) models
  `wp-openapi-generator.php`:
  - discovery lists one record per handler, with no de-duplication and no
    filtering, and adds two records for each custom post type with a
    `rest_base`;
  - the methods of a record are one string, joined with `", "`, and
    generation splits it again;
  - the OpenAPI 3.1.0 document has a path for every discovered route. Its
    operations read their summary and description from options named after
    the endpoint's position in the list. The settings form saves one array
    option, `wp_openapi_generator_endpoints` (registered at
    wp-openapi-generator.php:233), so nothing in the plugin writes options
    under those per-position names. As the plugin stands, every operation
    therefore gets `false` for both (`OptionsNeverSaved`).

Two shared modules model the PHP built-ins that the plugin relies on:

- `PhpArray` (`php_array.dfy`) models PHP's ordered arrays. An array is a
  list of key/value entries.
  - Writing a key that is present replaces its value in place.
  - Writing a new key appends it.
- `PhpString` (`php_string.dfy`) models the string functions:
  - `strtolower` (ASCII);
  - `strpos` and `stripos`;
  - `str_replace` of `/` by `_`;
  - `implode` and `explode` with `", "`;
  - `preg_split('/\R/', …, PREG_SPLIT_NO_EMPTY)`.

The PHP functions that update arrays in loops are methods with loops:
`DiscoverEndpoints`, `SanitizeEndpoints`, `GenerateOas` and the inner
method loop `WriteOperations`. Each is proved equal to a specification
function (`Discovered`, `SanitizedArray`, `BuildPaths`). Lemmas state the
properties of those functions. The document is a datatype with nested
ordered arrays, not JSON text.

WordPress calls become inputs:

- `rest_get_server()->get_routes()` is a route table: an ordered array from
  route to its handlers.
- `get_post_types(...)` is a sequence of post types, each with an optional
  `rest_base`.
- `get_option` is a parameter:
  - the saved settings array and the optional filter text in the first
    version, which the plugin itself never stores (an unsaved settings
    array is the empty array);
  - maps from endpoint position to string in the second version. These
    stand for the per-position options, which the plugin itself never
    writes.
- `get_bloginfo('name')` and `get_rest_url()` are string parameters.
- `sanitize_text_field` and `wp_kses_post` are function parameters.

In the first version, `ResponseSchemaUndefined` shows that the `$ref` of
every `200` response names a schema that `components.schemas` does not
define. The only schema defined there is `error_response`.

## Model

| member | source | states |
|---|---|---|
| PhpArray.HasKey | openai-specification-generator.php:250 | `isset` on a key: no key is set in an empty array |
| PhpArray.Get | openai-specification-generator.php:250 | reading a key of an array yields a value exactly when `isset` holds for that key |
| PhpArray.Put | openai-specification-generator.php:260 | after `$m[k] = v`, k reads v; a present key keeps its position and a new key is appended at the end |
| PhpArray.GetPut | openai-specification-generator.php:260 | writing one key leaves the value of every other key unchanged |
| PhpArray.PutPut | openai-specification-generator.php:260 | writing the same key twice leaves only the second value |
| PhpArray.PutSame | openai-specification-generator.php:255-257 | writing a present key back with its own value changes nothing |
| PhpArray.PutKeepsDistinct | openai-specification-generator.php:260 | a write never makes a key occur twice |
| PhpString.LowerChar | openai-specification-generator.php:260 | one byte of `strtolower`: an upper-case ASCII letter moves 32 code points down, any other character stays, and the result is never upper-case |
| PhpString.Lower | openai-specification-generator.php:260 | `strtolower` keeps the length and folds each character on its own: an upper-case ASCII letter becomes the letter 32 code points below, any other character is unchanged, and no upper-case letter remains |
| PhpString.LowerIdempotent | openai-specification-generator.php:260 | lower-casing twice is lower-casing once |
| PhpString.Contains | openai-specification-generator.php:53 | `strpos` finds a needle only if the needle is no longer than the string searched |
| PhpString.ContainsIgnoreCase | openai-specification-generator.php:111 | `stripos` compares the lower-cased strings, and finds a needle only if it is no longer than the string searched |
| PhpString.ReplaceSlashes | openai-specification-generator.php:269 | `str_replace('/', '_', s)` keeps the length, turns each `/` into `_`, changes nothing else and leaves no `/` |
| PhpString.NoSeparatorIsNotContains | wp-openapi-generator.php:178 | a string has no adjacent `,` and space iff `strpos` finds no `", "` in it |
| PhpString.Implode | wp-openapi-generator.php:55 | `implode(', ', parts)`: the pieces in order, with `", "` between neighbours |
| PhpString.ImplodeLength | wp-openapi-generator.php:55 | the joined string is as long as the pieces plus two characters per separator, and empty for no pieces |
| PhpString.Explode | wp-openapi-generator.php:178 | `explode(', ', s)` always yields at least one piece |
| PhpString.ImplodeExplode | wp-openapi-generator.php:178 | joining the pieces of any string with `", "` gives the string back |
| PhpString.ExplodeSingle | wp-openapi-generator.php:178 | a string without `", "` is a single piece |
| PhpString.ExplodeCons | wp-openapi-generator.php:178 | a first piece without `", "` is cut off exactly at the separator that follows it |
| PhpString.ExplodeImplode | wp-openapi-generator.php:55 | splitting a non-empty list joined by `", "` gives the list back when no piece contains `", "` |
| PhpString.ExplodePieces | wp-openapi-generator.php:178 | no piece of `explode(', ', s)` contains `", "`, and the first piece is a prefix of s |
| PhpString.ExplodeImplodeIff | wp-openapi-generator.php:55-178 | splitting a joined list gives the list back exactly when the list is non-empty and no piece contains `", "` |
| PhpString.FirstBreak | openai-specification-generator.php:108 | the position of the first line break: no break before it, a break at it unless it is the end |
| PhpString.SplitLines | openai-specification-generator.php:108 | every piece of `preg_split('/\R/', ..., PREG_SPLIT_NO_EMPTY)` is non-empty and holds no line break |
| PhpString.SplitLinesAt | openai-specification-generator.php:108 | a line break cuts the text in two; the lines of the halves follow each other in order |
| PhpString.SplitLinesSingle | openai-specification-generator.php:108 | a non-empty text without a line break is one line |
| PhpString.SplitLinesEmpty | openai-specification-generator.php:108 | the split is empty iff the text consists of line breaks only |
| PhpString.SplitJoinLines | openai-specification-generator.php:104-108 | lines joined by `"\n"` split back into the same lines when each is non-empty and break-free |
| OpenAiSpecGenerator.RouteCandidates | openai-specification-generator.php:50-53 | the checks on one route's handlers keep at most one record per handler |
| OpenAiSpecGenerator.AddIfAbsent | openai-specification-generator.php:55-69 | the scan-and-append never drops or reorders a listed record and adds at most one |
| OpenAiSpecGenerator.Candidates | openai-specification-generator.php:49-53 | the records of the handlers with an array callback on static routes, in table order |
| OpenAiSpecGenerator.KeepFirst | openai-specification-generator.php:55-69 | keeping the first record per route never lengthens the list |
| OpenAiSpecGenerator.Discovered | openai-specification-generator.php:49-69 | discovery lists each route at most once and has at most one record per candidate |
| OpenAiSpecGenerator.FirstIndex | openai-specification-generator.php:56-61 | the position of the first record with a route: the route is there and not before |
| OpenAiSpecGenerator.RouteListed | openai-specification-generator.php:55-61 | the scan with the break flag answers true iff a record with the route is already listed |
| OpenAiSpecGenerator.KeepFirstStep | openai-specification-generator.php:50-69 | one handler step adds an eligible handler's record unless its route is listed, and otherwise changes nothing |
| OpenAiSpecGenerator.DiscoverEndpoints | openai-specification-generator.php:43-76 | discovery returns the first eligible record per route in table order, lists each route once and lists no dynamic route |
| OpenAiSpecGenerator.KeepFirstRoutes | openai-specification-generator.php:55-69 | keeping the first record per route keeps exactly the routes of the candidates |
| OpenAiSpecGenerator.KeepFirstDistinct | openai-specification-generator.php:55-69 | keeping the first record per route lists every route at most once |
| OpenAiSpecGenerator.KeepFirstElement | openai-specification-generator.php:64-68 | each kept record is the first candidate of its route, so later handlers' methods are not merged in |
| OpenAiSpecGenerator.KeepFirstOrder | openai-specification-generator.php:64-68 | kept records are ordered by the first appearance of their routes |
| OpenAiSpecGenerator.RouteCandidatesRoute | openai-specification-generator.php:50-53 | every candidate of a route carries that route, and the route is not dynamic |
| OpenAiSpecGenerator.RouteCandidatesNonEmpty | openai-specification-generator.php:50-53 | a route has a candidate iff one of its handlers has an array callback and the route is static |
| OpenAiSpecGenerator.CandidatesStatic | openai-specification-generator.php:53 | no candidate route contains `(?P<` |
| OpenAiSpecGenerator.CandidatesRoutes | openai-specification-generator.php:49-53 | a route has a candidate iff the table gives it a handler with an array callback and the route is static |
| OpenAiSpecGenerator.DiscoveredSpec | openai-specification-generator.php:49-69 | discovery is duplicate-free and has no dynamic route; a route is listed iff it has an eligible handler; each record is its route's first eligible one; first-appearance order |
| OpenAiSpecGenerator.FilterText | openai-specification-generator.php:104 | the filter text is the saved option, or `"oembed\nblocks"` when none was saved |
| OpenAiSpecGenerator.KeptBy | openai-specification-generator.php:110-115 | a route the closure keeps contains none of the words, ignoring case |
| OpenAiSpecGenerator.KeptByIff | openai-specification-generator.php:110-115 | the filter closure keeps a route iff no word is a case-insensitive substring of it |
| OpenAiSpecGenerator.FilterEndpoints | openai-specification-generator.php:109-116 | the filter adds no record, and every record it keeps has a route that the closure keeps |
| OpenAiSpecGenerator.ShownEndpoints | openai-specification-generator.php:108-116 | the listed endpoints are no more than the discovered ones, and each has a route that no line of the filter text matches |
| OpenAiSpecGenerator.FilterEndpointsMember | openai-specification-generator.php:109-116 | an endpoint survives the filter iff it was discovered and the closure keeps its route |
| OpenAiSpecGenerator.FilterEndpointsAppend | openai-specification-generator.php:109-116 | the filter keeps relative order: it distributes over concatenation |
| OpenAiSpecGenerator.FilterEndpointsNoWords | openai-specification-generator.php:108-116 | a filter text made of line breaks only keeps every endpoint, in order |
| OpenAiSpecGenerator.FilterEndpointsIdempotent | openai-specification-generator.php:109-116 | filtering twice with the same words is filtering once |
| OpenAiSpecGenerator.DefaultFilterWordsSplit | openai-specification-generator.php:104-108 | the default filter text gives the two words `oembed` and `blocks` |
| OpenAiSpecGenerator.SettingsPageEndpoints | openai-specification-generator.php:97-116 | the listed endpoints are the discovered ones that no filter word matches, in discovery order |
| OpenAiSpecGenerator.SanitizeEntry | openai-specification-generator.php:87-89 | a sanitised entry has `include` 1 if it was posted and 0 otherwise, and always has a summary and a description |
| OpenAiSpecGenerator.SanitizedArray | openai-specification-generator.php:86-90 | the sanitised array has one entry per posted entry |
| OpenAiSpecGenerator.SanitizeEndpoints | openai-specification-generator.php:85-92 | the route keys are unchanged and in place; `include` is 1 if it was posted and 0 otherwise |
| OpenAiSpecGenerator.SanitizedArraySpec | openai-specification-generator.php:86-90 | each route's saved entry is the sanitised posted entry of that route, and no route is added or lost |
| OpenAiSpecGenerator.Included | openai-specification-generator.php:250 | a route counts as included only if the settings hold an entry for it |
| OpenAiSpecGenerator.SummaryOf | openai-specification-generator.php:251 | a route without a saved entry gets the summary `''` |
| OpenAiSpecGenerator.DescriptionOf | openai-specification-generator.php:253 | a route without a saved entry gets the description `''` |
| OpenAiSpecGenerator.ResponseSchemaName | openai-specification-generator.php:269 | the schema name built from the route and the method key holds no `/` when the key holds none |
| OpenAiSpecGenerator.NewOperation | openai-specification-generator.php:260-285 | the operation carries the given summary and description, and its `200` reference never names the `error_response` schema of its `default` reference |
| OpenAiSpecGenerator.PutOperations | openai-specification-generator.php:259-260 | with no methods the path's operations are unchanged; each method adds at most one key |
| OpenAiSpecGenerator.BuildPaths | openai-specification-generator.php:244-289 | `paths` has at most one entry per discovered endpoint |
| OpenAiSpecGenerator.PutOperationsKeys | openai-specification-generator.php:259-260 | a path's operation keys are exactly the lower-cased methods |
| OpenAiSpecGenerator.PutOperationsValue | openai-specification-generator.php:259-285 | the operation under a key is the one built from the route and that key |
| OpenAiSpecGenerator.PutOperationsDistinct | openai-specification-generator.php:259-260 | methods that lower-case alike give a single key |
| OpenAiSpecGenerator.MethodsCollapse | openai-specification-generator.php:259-260 | `GET` and `get` give one operation, under `get` |
| OpenAiSpecGenerator.BuildPathsKeys | openai-specification-generator.php:244-250 | `paths` has a route iff the route was discovered and its saved `include` is set and non-zero; the filter words play no part |
| OpenAiSpecGenerator.BuildPathsOrder | openai-specification-generator.php:244-257 | with distinct routes, the keys of `paths` are the included routes in discovery order |
| OpenAiSpecGenerator.BuildPathsEntry | openai-specification-generator.php:250-262 | an included route's path holds exactly the operations of its own methods |
| OpenAiSpecGenerator.NothingSaved | openai-specification-generator.php:248-250 | with no saved settings, `paths` is empty whatever was discovered |
| OpenAiSpecGenerator.IncludedWithoutMethods | openai-specification-generator.php:255-257 | an included route with no methods still gets an empty path entry |
| OpenAiSpecGenerator.GeneratedOperation | openai-specification-generator.php:251-285 | each operation carries the saved summary and description (or `''`), the `200` reference built from the route with `/` made `_` and the lower-case key, and the `error_response` reference; the key has no upper-case letter |
| OpenAiSpecGenerator.ResponseSchemaUndefined | openai-specification-generator.php:264-304 | the schema named by any `200` reference is not among the defined schemas |
| OpenAiSpecGenerator.WriteOperations | openai-specification-generator.php:255-287 | the route's entry is created when missing and then holds one operation per lower-cased method, written in order |
| OpenAiSpecGenerator.GenerateOas | openai-specification-generator.php:223-305 | the document is version 3.0.1 with the fixed info, the REST URL as its server and only `error_response` as schema; its paths are the included discovered routes, in order |
| WpOpenApiGenerator.MethodsOf | wp-openapi-generator.php:55 | a handler without methods gives `""`, and a handler with one method gives that method alone |
| WpOpenApiGenerator.RouteEndpoints | wp-openapi-generator.php:54-63 | one record per handler of a route, in handler order, carrying the route and the joined method keys |
| WpOpenApiGenerator.TableEndpoints | wp-openapi-generator.php:53-64 | the records of every route's handlers, in table order |
| WpOpenApiGenerator.CollectionRoute | wp-openapi-generator.php:73 | the collection route is `/wp/v2/` followed by the rest base |
| WpOpenApiGenerator.ItemRoute | wp-openapi-generator.php:80 | the item route extends the collection route of the same base |
| WpOpenApiGenerator.PostTypeRecords | wp-openapi-generator.php:69-85 | a post type with a `rest_base` gives two records and one without gives none |
| WpOpenApiGenerator.PostTypeEndpoints | wp-openapi-generator.php:67-86 | the post-type loop adds at most two records per post type |
| WpOpenApiGenerator.Discovered | wp-openapi-generator.php:53-88 | the table records followed by the post-type records |
| WpOpenApiGenerator.TableEndpointsLength | wp-openapi-generator.php:53-64 | the table part of discovery has one record per handler |
| WpOpenApiGenerator.PostTypeEndpointsLength | wp-openapi-generator.php:68-86 | the post-type part has two records per post type with a `rest_base` |
| WpOpenApiGenerator.DiscoveredLength | wp-openapi-generator.php:53-86 | discovery lists the number of handlers plus two per post type with a `rest_base` |
| WpOpenApiGenerator.TableEndpointsAt | wp-openapi-generator.php:53-64 | handler j of route i appears at its table-order position with its own route, dynamic or not, and its joined method keys |
| WpOpenApiGenerator.HandlerCountPrefix | wp-openapi-generator.php:53-54 | the handlers before route i and those of route i are at most all handlers |
| WpOpenApiGenerator.PostTypeEndpointsAt | wp-openapi-generator.php:68-85 | a post type with base b contributes `/wp/v2/b` with `GET, POST` followed by `/wp/v2/b/{id}` with `GET, PUT, DELETE` |
| WpOpenApiGenerator.DiscoverEndpoints | wp-openapi-generator.php:43-89 | discovery returns the table records followed by the post-type records; the count is as stated |
| WpOpenApiGenerator.OptionAt | wp-openapi-generator.php:180-181 | `get_option` yields a value exactly when one is saved for the position, and then that value |
| WpOpenApiGenerator.NewOperation | wp-openapi-generator.php:188-196 | the operation carries the options read for the position, has no parameters and has only a `default` response |
| WpOpenApiGenerator.PutOperations | wp-openapi-generator.php:187-198 | with no methods the path's operations are unchanged; each method adds at most one key |
| WpOpenApiGenerator.BuildPaths | wp-openapi-generator.php:176-199 | `paths` has at most one entry per discovered endpoint |
| WpOpenApiGenerator.LastWriter | wp-openapi-generator.php:183-189 | the last endpoint that writes a key of a route: it writes that key and no later endpoint does |
| WpOpenApiGenerator.PutOperationsGet | wp-openapi-generator.php:187-197 | one endpoint's loop sets exactly the keys its methods lower-case to and leaves the others |
| WpOpenApiGenerator.BuildPathsKeys | wp-openapi-generator.php:176-185 | every discovered route is a key of `paths` and nothing else is; there is no include check |
| WpOpenApiGenerator.BuildPathsOrder | wp-openapi-generator.php:176-185 | endpoints that share a route merge into one entry; routes appear once, by first appearance |
| WpOpenApiGenerator.RoutesOnceDistinct | wp-openapi-generator.php:183-185 | no route is a key twice |
| WpOpenApiGenerator.BuildPathsRoutes | wp-openapi-generator.php:176-185 | the keys of `paths` are the discovered routes, once each, in first-appearance order |
| WpOpenApiGenerator.BuildPathsOperation | wp-openapi-generator.php:176-197 | a key of a route holds an operation iff some endpoint of that route has a method lower-casing to it; the last such endpoint wins, with the summary and description of its position |
| WpOpenApiGenerator.GeneratedOperationShape | wp-openapi-generator.php:188-196 | every operation has no parameters and only a `default` response described as `A generic response` |
| WpOpenApiGenerator.OptionsNeverSaved | wp-openapi-generator.php:180-181 | with no per-position option saved, which is all the plugin itself ever does, every operation has neither summary nor description |
| WpOpenApiGenerator.HandlerMethodsRecovered | wp-openapi-generator.php:55-178 | the split recovers a handler's method keys exactly when there is at least one and none contains `", "`; then the keys written are the keys its methods lower-case to |
| WpOpenApiGenerator.EmptyMethodsQuirk | wp-openapi-generator.php:178-189 | an empty methods map gives the string `""`, which yields one operation under the empty key |
| WpOpenApiGenerator.CollectionMethodsSplit | wp-openapi-generator.php:74 | `GET, POST` splits into `GET` and `POST` |
| WpOpenApiGenerator.ItemMethodsSplit | wp-openapi-generator.php:81 | `GET, PUT, DELETE` splits into `GET`, `PUT` and `DELETE` |
| WpOpenApiGenerator.WriteOperations | wp-openapi-generator.php:183-198 | the route's entry is created when missing and then holds the endpoint's operation under each lower-cased method |
| WpOpenApiGenerator.GenerateOas | wp-openapi-generator.php:156-199 | the document is version 3.1.0 with the site title, version `1.0.0` and the REST URL as its server; its paths are every discovered route, once each |

## Left out

- File-system work is I/O and is not modelled:
  - the activation hooks that create the output directory, `.htaccess` and `index.php`;
  - `wp_openapi_generator_save_oas_json`;
  - `uninstall.php`.
- The admin pages are host UI and plumbing, and are not modelled:
  - the HTML and the tab script;
  - nonce and `check_admin_referer` checks;
  - capability checks and redirect handlers.
  
  Only the endpoint list shown by the first version's settings page is modelled.
- `json_encode` with its flags is not modelled; the model stops at the document datatype.
- `array_filter` at openai-specification-generator.php:286 is left out. It removes nothing, because every operation is a non-empty array.
- Callbacks are modelled only as far as the first version's discovery tests them: unset, an array, or another callable. The `callback` and `args` fields of the second version's records are not kept, because generation never reads them.
- Strings are sequences of characters, one per byte. `strtolower` folds ASCII letters only. `\R` matches LF, CR, VT, FF and NEL; a CRLF pair yields the same lines, since the empty piece between CR and LF is dropped.
- WpOpenApiGenerator.GenerateOas: the options are read by endpoint position from maps. The model does not build the option names `wp_openapi_generator_endpoints[i][summary]` and `wp_openapi_generator_endpoints[i][description]`. Nothing in the plugin writes options under those names: the form stores the single array option `wp_openapi_generator_endpoints`. The maps are therefore empty for the plugin as written, which `OptionsNeverSaved` covers.
- WpOpenApiGenerator.PostType: a `rest_base` is either absent or a string, namely the string that interpolation into the route produces. PHP's `isset` on properties and string conversion of non-string values are not modelled.
- OpenAiSpecGenerator.Included: the saved `include` is an optional integer, read as true when it is non-zero. Other types of stored values are not modelled.
- OpenAiSpecGenerator.SanitizeEntry: a missing summary or description is passed to the sanitiser as `""` rather than as null. The sanitisers are opaque functions.
- Keys of PHP arrays are strings throughout. PHP's conversion of numeric-string keys to integers is not modelled.
