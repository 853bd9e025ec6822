# A verified model of the express-swagger-generator annotation compiler

express-swagger-generator reads JSDoc comments in an Express code base and builds a
Swagger 2.0 document. Its core lives in `lib/swagger.js`. It is a set of small decoders,
each reading one tag's mini-grammar:

- `@route GET /pets`
- `@param {integer} limit.query.required - …`
- `@returns {Pet.model} 200 - ok`
- `@group pets - Pet store`
- `@produces`, `@consumes`
- `@typedef` / `@property` blocks

On top of the decoders sit `fileFormat`, which folds one comment block into a fragment
`{parameters (the paths object), tags, definitions}`, and `filterJsDocComments`, which drops
blocks without tags.

This project models that core in Dafny and proves what each decoder and the fold
guarantee. The modules are:

- `Wrappers`: `Option`, `Result` and the `TypeError` JavaScript throws.
- `JsText`: the JavaScript string operations the compiler relies on:
  - `split` with a one-character separator and with `/\s+/`;
  - `join` and `toLowerCase`;
  - `a || b` for strings;
  - `arr[k]` past the end.
- `Annotations`: the tag records the compiler reads (as doctrine produces them) and the
  Swagger pieces it writes.
- `Decoders`: `parseRoute`, `parseField`, `parseType`, `parseSchema`, `parseReturn`,
  `parseDescription`, `parseTag`, `parseProduces`, `parseConsumes` and `parseTypedef`.
- `Assembler`: `fileFormat`, as a fold `Run` of a per-tag `Step` over the state
  `(route, params, paths, tags)`, and `filterJsDocComments`.
- `AssemblerProofs`: reference definitions of a block's routes, params and group, and the
  fold invariants stated against them.
- `WorkedExamples`: the decoders and `fileFormat` on small concrete inputs.

## How the JavaScript is modelled

- **Strings** are `seq<char>`.
  - `Split(s, sep)` follows JavaScript: `""` splits to `[""]`, and adjacent separators give
    empty segments.
  - `SplitWs` is `split(/\s+/)` over the `\s` character set.
  - `Lower` lowercases ASCII letters only.
- **Missing values.** A missing array element or an absent property (`undefined`) is `None`.
  A type token that doctrine leaves out is `typ: None`.
- **The shared `params` array.** `fileFormat` creates one `params` array per block. It
  stores a reference to that array in the current operation on every iteration once a
  route is set (line 179). So every operation of the block ends up showing the block's
  final parameter list.
  - During the fold, an operation's `parameters` is a marker: `NewArray` (the fresh `[]`
    of line 142) or `SharedParams`.
  - `ResolvePaths` reads the marker against the final array when the fragment is built.
  - `FileFormatOperations` states the result directly: every operation's `parameters` is
    every `param` tag of the block, in order.
- **Errors.** `parseSchema` reads `obj.name` with no null guard. A `param` tag or a
  typedef `property` tag without a `{type}` therefore makes `fileFormat` throw a
  `TypeError`. This is modelled as `Err`, and the contracts say exactly when it happens.
- **The block object.** A block is `{description, tags}`. The `for … in` over the
  block's keys does real work only for `tags` (lines 126-128), so the model iterates the
  tags by index.

Some behaviours of `lib/swagger.js` that the model keeps as written:

- `parseSchema` reads `obj.name` before any check, so `parseSchema(undefined)` throws a
  `TypeError` (line 56).
- `fileFormat` pushes one tag-group entry per `route` tag of the block (lines 145-148).
- A block may hold several `route` tags. Each one opens, or re-opens, its own
  `paths[uri][method]` slot (lines 140-141), and an existing slot keeps its
  route-dependent fields.
- A group's description and a response's description are `undefined` when the line has
  no `-` (lines 68 and 147). This is modelled as `None`.

## Model

| member | source | states |
|---|---|---|
| JsText.Or | lib/swagger.js:34-35 | JavaScript's logical or on an optional string and a fallback: a present, non-empty string is kept, anything else gives the fallback |
| JsText.Seg | lib/swagger.js:35 | `arr[k]`: defined exactly when `k` is below the length, and then it is element `k` |
| JsText.Split | lib/swagger.js:31 | `split` with one separator: at least one segment; no segment contains the separator; joining the segments back with the separator gives the input |
| JsText.SplitJoin | lib/swagger.js:39 | the other half of the round trip: splitting a join of separator-free segments gives the segments back, so a string's segments are the unique separator-free list that joins to it |
| JsText.SplitWs | lib/swagger.js:91 | `split(/\s+/)`: at least one segment; no segment holds whitespace; segments between the first and the last are never empty; text that does not start with whitespace gives a non-empty first segment; `SplitWsCollapse` fixes the segments exactly |
| JsText.SplitWsCollapse | lib/swagger.js:96 | splitting on `/\s+/` equals splitting on one space after every whitespace run is collapsed to one space |
| JsText.Collapse | lib/swagger.js:91 | the reference text for the whitespace split: only single spaces remain as whitespace, never two in a row, and the first non-space character is kept |
| JsText.DropSpaces | lib/swagger.js:91 | a whitespace run is consumed whole: the rest is a suffix of the input that does not start with whitespace |
| JsText.DropSpacesRun | lib/swagger.js:91 | everything `DropSpaces` removes is whitespace, so it removes exactly the leading run |
| JsText.Lower | lib/swagger.js:34 | `toLowerCase` on ASCII, character by character: the length is kept, every character other than `A`-`Z` is unchanged, and each of `A`-`Z` becomes its lower-case letter (code point plus 32) |
| Decoders.ParseRoute | lib/swagger.js:30-37 | the method is never empty and never has upper-case letters; the uri never contains a space |
| Decoders.ParseRouteTokens | lib/swagger.js:30-37 | for a line of space-free tokens: the method is the first token lower-cased, or `get` when that token is empty, with no verb validation; the uri is the second token, or `""` when there is none |
| Decoders.ParseField | lib/swagger.js:38-45 | the name and the location contain no dot; the location is never empty |
| Decoders.ParseFieldName | lib/swagger.js:38-45 | the name is the text before the first `.` (all of it when there is none); a name without `.` is an optional parameter in `get` |
| Decoders.ParseFieldSegments | lib/swagger.js:38-45 | for a name of dot-free segments: the name is segment 0; the location is segment 1, or `get` when that segment is missing or empty; `required` holds iff segment 2 is exactly `required` |
| Decoders.ModelName | lib/swagger.js:49-50 | the model name taken from an `X.model…` type contains no dot |
| Decoders.ModelNamePrefix | lib/swagger.js:49-50 | a model name `X` is read only off a type name that starts with `X.model` followed by its end or a further `.` |
| Decoders.ParseType | lib/swagger.js:46-54 | total: undefined exactly for a missing token; `string` for a token without a name (or with an empty one) |
| Decoders.ParseSchema | lib/swagger.js:55-62 | fails exactly for a missing token (no null guard); a `$ref` it returns is `#/definitions/` followed by what `parseType` returns for the same token; a nameless token gives no schema; a named token never fails, and gets a schema exactly when `parseType` does not return its name unchanged |
| Decoders.ParseTypeSegments | lib/swagger.js:46-62 | for a name of dot-free segments: `X.model…` gives type `X` and `$ref` `#/definitions/X`; any other name is returned unchanged, with no schema |
| Decoders.ReturnKey | lib/swagger.js:67-68 | a response is filed under a code that contains no `-` |
| Decoders.ReturnKeyPrefix | lib/swagger.js:67-68 | the code is the description's text before its first `-`, all of it when there is none |
| Decoders.ReturnEntry | lib/swagger.js:67-73 | the entry's description is the second `-` segment (undefined when absent); a type is attached iff `parseType` of the tag is truthy, and is that type; a schema is attached only together with a type, as a `$ref` to it; with a type, the tag has a type token and the schema is what `parseSchema` returns for it; without one, there is no schema |
| Decoders.ParseReturn | lib/swagger.js:63-77 | a code is a key iff some `return`/`returns` tag is filed under it; for each such tag with no later tag under the same code, the code holds that tag's entry (last one wins) |
| Decoders.ParseDescription | lib/swagger.js:78-80 | the block's text when present, otherwise `""` |
| Decoders.ParseTag | lib/swagger.js:81-88 | never empty; `['default', '']` when no tag is a `group`; otherwise the `-` split of the first `group` tag's description |
| Decoders.ParseProduces | lib/swagger.js:90-92 | no entry holds whitespace; joined with single spaces, the entries give the text with whitespace runs collapsed, so only whitespace is lost |
| Decoders.ParseConsumes | lib/swagger.js:95-97 | the same as `parseProduces` |
| Decoders.PropertyKey | lib/swagger.js:107-111 | a `name.required…` property is stored under a dot-free `name`, and the stripped name with `.required…` put back is the tag's name; any other property is stored under its full name |
| Decoders.PropertyOf | lib/swagger.js:113-116 | fails exactly for a property without a type; otherwise it holds `parseType` and `parseSchema` of the tag's type |
| Decoders.RequiredNamesAppend | lib/swagger.js:109-112 | appending a tag appends its stripped name to the required list iff it is a required property |
| Decoders.TypedefNext | lib/swagger.js:106-117 | one loop iteration fails exactly on a property tag without a type; a non-property tag changes nothing; a property stores its entry under its key, keeps every other key and its value, and appends its key to `required` exactly when it is a required property |
| Decoders.TypedefUpTo | lib/swagger.js:105-118 | after tags `1..n`: fails iff one of them is an untyped property; non-property tags are ignored; the keys are exactly the property keys seen; a property not redefined later is stored under its key; `required` is the required properties' stripped names in order |
| Decoders.ParseTypedef | lib/swagger.js:99-120 | the type name is the first tag's name; the details are the loop's result over every later tag; it fails iff a later property tag has no type |
| Assembler.PutOp | lib/swagger.js:140-141 | writing `paths[uri][method]` changes that slot only |
| Assembler.PutOpKeys | lib/swagger.js:140-141 | writing a slot adds its uri to the paths object and keeps every other uri's entry |
| Assembler.GroupEntryOf | lib/swagger.js:139-148 | the pushed entry is `{name, description}` from the first `group` tag's `-` split (segment 0 and segment 1, undefined without a `-`), or `default` with `""` when there is no group tag |
| Assembler.AnnotateFields | lib/swagger.js:162-176 | an `operationId`/`summary` tag writes its description into that field, a `produces`/`consumes` tag its whitespace split; every other field, and every field for any other title, is kept |
| Assembler.AttachFields | lib/swagger.js:178-181 | the operation gets the shared params array and the whole block's `parseReturn`; everything else is kept |
| Assembler.ParamOf | lib/swagger.js:150-160 | a param entry fails exactly when the tag has no type; otherwise name, `in` and `required` come from `parseField` of the tag's name, the description is the tag's, and type and schema come from `parseType` / `parseSchema` |
| Assembler.OpenRoute | lib/swagger.js:137-149 | a route tag makes its decoded route current and pushes one group entry. Its slot is created or kept, and given a fresh `parameters`, the block's description and `[group name]`. An existing slot keeps its `operationId`, `summary`, `produces` and `consumes`; a new slot has none. Every other slot is unchanged |
| Assembler.PushParam | lib/swagger.js:150-160 | a param tag appends its entry to the shared array, or fails when it has no type |
| Assembler.Step | lib/swagger.js:135-181 | one iteration fails exactly on an untyped param, and afterwards the current route's operation exists |
| Assembler.Run | lib/swagger.js:135-182 | the fold over the first `n` tags fails iff one of them is an untyped param |
| Assembler.ResolvePaths | lib/swagger.js:142 | reading the shared array: the same slots exist, each operation now shows the final params when it holds the shared array, `[]` otherwise |
| Assembler.FileFormat | lib/swagger.js:123-186 | a typedef block yields only `definitions[typeName]` (holding the typedef loop's result), with empty paths and tags, and fails iff it has an untyped property; any other block has no definitions and fails iff it has an untyped param |
| Assembler.FilterJsDocComments | lib/swagger.js:195-199 | keeps exactly the blocks with at least one tag |
| Assembler.FilterAppend | lib/swagger.js:195-199 | relative order is kept: filtering a concatenation concatenates the filtered parts |
| Assembler.FilterIdempotent | lib/swagger.js:195-199 | filtering twice is filtering once |
| AssemblerProofs.LastRoute | lib/swagger.js:137-138 | the reference current route: some route exists after `n` tags iff a `route` tag is among them |
| AssemblerProofs.ParamsUpTo | lib/swagger.js:150-160 | the reference param list fails iff an untyped param is among the first `n` tags |
| AssemblerProofs.RunParams | lib/swagger.js:150-160 | the fold's `params` is every param entry so far, in order, whether or not a route came first |
| AssemblerProofs.RunRouteAndTags | lib/swagger.js:137-149 | the current route is the last route tag seen; one group entry has been pushed per route tag |
| AssemblerProofs.StepOpsRoute | lib/swagger.js:137-149 | a route tag keeps the operations invariant: slots exist exactly for routes seen, each with the shared array, the block's responses, description and group, and only route-dependent fields written by tags read while that slot's route was current |
| AssemblerProofs.AnnotateProvenance | lib/swagger.js:162-176 | a route-dependent tag read while route `rt` is current writes only a field that tag justifies on `rt`'s operation |
| AssemblerProofs.StepOpsOther | lib/swagger.js:150-181 | a non-route tag keeps the operations invariant |
| AssemblerProofs.RunOperations | lib/swagger.js:135-182 | the operations invariant holds after every prefix of the block |
| AssemblerProofs.RunBeforeRoute | lib/swagger.js:162-176 | before the first route, the state is only the pushed params: earlier `operationId`/`summary`/`produces`/`consumes` tags leave no trace |
| AssemblerProofs.FileFormatOperations | lib/swagger.js:127-185 | in a non-typedef block, an operation exists exactly for each route of its route tags. Each one's `parameters` is every param of the block in order (those before the route too), its `responses` is `parseReturn` of the whole block, its description is the block's, and its tags are `[group name]`. Every route-dependent field it carries was written by a tag read while that operation's own route was current |
| AssemblerProofs.FileFormatPathsDomain | lib/swagger.js:137-141 | the uris of the paths object are exactly the uris of the block's route tags; with `FileFormatOperations` each uri holds exactly the methods routed to it |
| AssemblerProofs.FileFormatTagGroups | lib/swagger.js:139-148 | one `{name, description}` entry per route tag, each from the first group tag or the default |
| AssemblerProofs.FileFormatWithoutRoute | lib/swagger.js:125-185 | a block without a route tag yields empty paths, tags and definitions |
| AssemblerProofs.FileFormatDropsEarlyFields | lib/swagger.js:162-176 | when every `operationId`/`summary`/`produces`/`consumes` tag comes before the first route, no operation carries any of them: they are dropped, never retried |
| AssemblerProofs.RunCarries | lib/swagger.js:162-181 | a route-dependent tag read while a route is set is stored on that route's operation and stays there until a later tag of its title is read while the same route is current |
| AssemblerProofs.FileFormatStoresField | lib/swagger.js:162-181 | an `operationId`/`summary`/`produces`/`consumes` tag that a route precedes ends up on the operation of the last route before it, unless a later tag of its title is read while that same route is current |
| WorkedExamples.RouteExamples | lib/swagger.js:30-37 | `GET /pets` is `get` of `/pets`; the empty line is `get` of `""` |
| WorkedExamples.RequiredFieldExample | lib/swagger.js:38-45 | `id.path.required` is a required `path` parameter `id` |
| WorkedExamples.OptionalFieldExample | lib/swagger.js:38-45 | `id.path` is an optional `path` parameter `id` |
| WorkedExamples.BareFieldExample | lib/swagger.js:38-45 | `id` is an optional parameter `id` in the default location `get` |
| WorkedExamples.ModelTypeExample | lib/swagger.js:46-54 | `Pet.model` is type `Pet` |
| WorkedExamples.ModelSchemaExample | lib/swagger.js:55-62 | `Pet.model` has `$ref` `#/definitions/Pet` |
| WorkedExamples.PlainTypeExample | lib/swagger.js:46-62 | `integer` is type `integer` with no schema |
| WorkedExamples.BlockExample | lib/swagger.js:123-186 | a block `operationId; route GET /pets; param limit.query` yields one `get` operation on `/pets`. It has no `operationId`, one optional `query` parameter, empty responses and the default group |
| WorkedExamples.TwoRoutesExample | lib/swagger.js:137-181 | in the block `route GET /a; operationId X; route GET /b; operationId Y`, path `/a` carries `operationId` X and `/b` carries Y, each taking the value read while it was the current route |

## Left out

- `parseApiFile`: it reads files and tokenises comments with the doctrine-file library. Blocks are the model's input instead.
- `convertGlobPaths`: filesystem glob expansion.
- The exported generator: option checks, the merge through `swagger-helpers` (not part of this model), `swagger-parser` validation, and the Express routes and UI. All of it is I/O, framework plumbing or foreign calls.
- `toLowerCase` beyond ASCII: the model lowercases `A`-`Z` only.
- Strings are sequences of Unicode scalar values, not UTF-16 code units. This makes no difference to the splits, which only look for ASCII separators and `\s`.
- Tag names and descriptions are always strings; an undefined `name` or `description` is not modelled. In the source, an undefined value throws only where `.split` is called on it: the description of a `route`, `return`/`returns`, `group`, `produces` or `consumes` tag, and the name of a `param` or `property` tag. An `operationId` or `summary` tag without a description stores `undefined` (lines 163 and 167), and so does a param entry's description (line 155). The model always stores the string. The name of a `route`, `return` or `group` tag is never read.
- JavaScript object-key quirks: keys such as `__proto__` are not modelled, nor is the key order of the emitted objects. Maps are unordered here.
- The `for … in` over the block's keys: only the `tags` key is modelled, since it is the only one that does work. The block's `description` is read through `parseDescription`.
- Decoders.ParseRoute: its own contract gives only the shape of the route; the full meaning, for lines made of space-free tokens, is in `ParseRouteTokens`.
- Assembler.Step: its own contract states only failure and that the current operation exists; what a step does to the operations is stated by the `AssemblerProofs` lemmas.
- Decoders.ParseField: its own contract gives only the shape of the field. The name is in `ParseFieldName`; the location and `required` are exact in `ParseFieldSegments`.
- Decoders.ModelName: its own contract only says the model name has no dot; where the name comes from is in `ModelNamePrefix` and `ParseTypeSegments`.
- Decoders.ParseType: its own contract covers only the missing and nameless tokens; the result for a named token is in `ParseTypeSegments`.
- Decoders.ParseSchema: its own contract ties the schema to `parseType`; which names give a `$ref` is in `ParseTypeSegments`.
- JsText.DropSpaces: its own contract does not say that what it removes is whitespace; `DropSpacesRun` states that, and the two together fix the result.
- Decoders.ReturnKey: its own contract only says the code has no `-`; that it is the text before the first `-` is in `ReturnKeyPrefix`.
- JsText.SplitWs: its own contract gives only the shape of the segments; they are fixed exactly by `SplitWsCollapse`.
- Assembler.Run: its own contract states only failure and that the current operation exists; the state it reaches is stated by `RunParams`, `RunRouteAndTags`, `RunOperations`, `RunPathKeys` and `RunCarries`.
- Assembler.FileFormat: its own contract states the typedef branch and the failures; the paths and tags of any other block are stated by `FileFormatOperations`, `FileFormatPathsDomain`, `FileFormatTagGroups`, `FileFormatStoresField` and `FileFormatWithoutRoute`.
- Assembler.FilterJsDocComments: its own contract states which blocks are kept; that their order and repetitions are kept is stated by `FilterAppend`.
