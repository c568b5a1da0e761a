# openapi-generator core in Dafny

A model of the document-processing core of openapi-generator, a tool that reads a Swagger 2.0 or OpenAPI 3.0 document and generates TypeScript or JavaScript client code for it. The model covers everything between the parsed document and the lists handed to the templates. The properties the source promises about each step are proved.

- **JSON values.** A parsed document is a `Json` value in `JsonModel`: `undefined`, `null`, booleans, integers, strings, arrays, and objects as ordered lists of entries. Key order is observable, because it decides the rename counters and the `_1`, `_2` suffixes. The module also models:
  - property reads that throw on `null` and `undefined`;
  - `Object.keys`;
  - object spread;
  - a `map` or `forEach` whose callback may throw.

  A thrown exception results in `Err`, with the `Error` kinds of lib/util/error.ts and the JavaScript `TypeError`.
- **Swagger 2.0 repair (`FixSwagger`, `FixRef`, `FixBody`, `RefScan`).**
  - `fixRefName` renames definition keys that are not valid type names and rewrites every `$ref` to them.
  - The older `fixRefSwagger` does the same with its own renaming rule. It is modelled as the `Legacy` variant of the same pass.
  - `fixRequestBody` merges several body parameters of a POST or PUT into one `RequestBodyDTO`, and turns them into query parameters for other methods.
  - The two `findRef` walks collect the nodes that carry a `$ref`.
  - For the document the rename pass returns, the model proves three things. Every ref to a renamed key names the new key. `definitions[newName]` holds the schema that was under the key. The old key is gone.
- **OpenAPI repair (`FixOpenApi`) and tag remap (`TagRemap`).**
  - `fixTag` back-fills tags and renames invalid tag names.
  - `fixOperationId` suffixes repeated operation ids, using one counter per id.
  - After the conversion, a tag whose TagObject has a description is replaced by that description with its spaces removed.
- **Reference resolution (`Parse`, `ServiceRefs`).**
  - `resolveRef` together with its `getValue`, which catches every exception.
  - `resolveRefObject` of the service generator.
- **Type mapping (`TypeMap`).** The two schema-to-TypeScript mappers: `getType` of lib/util/getType.ts, and the generator's own `getType` with `getRefName`. It is stated where the two differ.
- **Template data.**
  - `ServiceParams` and `ServiceGen`: the query, header, path and cookie groups, the body and response params, the interface and service lists, and the file names.
  - `Gen` and `GenSdk`: the route records of the SDK command, their grouping by class, and the class and file names.
- **Pipelines (`Index`, `GenSdk`).** The document checks and the order of the passes in `genFromData` and `genAPISDKFromUrl`. The Swagger-to-OpenAPI converter `s2o` is a parameter `convert`. The `renameTypePrefix` constant is a parameter `renamePrefix`.
- **Names and text (`Names`, `Text`).** `toHyphenCase`, `toCamelCase` and the regular-expression rewrites the core uses.

The operations that change the document in place, or fill a dictionary or a list, are methods with loops. Each method is proved equal to a specification function, and the laws modules (`…Laws`) state what the source promises about those functions.

## Model

| member | source | states |
|---|---|---|
| Names.Underscored | lib/util.ts:5 | after an `_` goes before every capital and the string is lower-cased, no capital letter is left |
| Names.UnderscoredIdentity | lib/util.ts:5 | a string without capitals comes through the underscore insertion and lower-casing unchanged |
| Names.ToHyphenCase | lib/util.ts:4-10 | the result of `toHyphenCase` holds no capital letter |
| Names.ToHyphenCaseIdentity | lib/util.ts:4-10 | `toHyphenCase` does not change a string that has no capitals and does not begin with `_` |
| Names.ToHyphenCaseDropsOwnUnderscore | lib/util.ts:6-8 | a leading `_` the input itself had is dropped as well; the rest is kept |
| Names.ToCamelCase | lib/util.ts:12-16 | `toCamelCase` never makes a string longer |
| Names.ToCamelCaseNoUnderscore | lib/util.ts:12-16 | `toCamelCase` does not change a string without `_` |
| Names.CamelOfUnderscored | lib/util.ts:4-16 | for a string without `_`, `toCamelCase` undoes the underscore insertion and lower-casing of `toHyphenCase` |
| Names.CamelOfHyphen | lib/util.ts:4-16 | for a non-empty name without `_`, `toCamelCase(toHyphenCase(s))` is `s` with its first letter lower-cased |
| Names.LowerFirst | lib/gen.ts:124 | the result has the input's length and tail, and its first character lower-cased |
| Text.ToLower | lib/util.ts:5 | `toLowerCase` keeps the length and lowers each capital in place (ASCII) |
| Text.ToUpper | lib/util/fixSwagger.ts:58 | `toUpperCase` keeps the length and raises each lower-case letter in place (ASCII) |
| Text.SanitizeTypeName | lib/util/fixSwagger.ts:36 | every character outside `[a-zA-Z0-9_]` becomes `_` at its own position, and the others stay |
| Text.SanitizeTypeNameValid | lib/util/fixSwagger.ts:35-36 | a sanitised key always passes the type-name test, and sanitising leaves a key unchanged exactly when it already passes |
| Text.FindFrom | lib/util/fixRefSwagger.ts:29 | the position a string-pattern `replace` acts on: the leftmost occurrence at or after the start, or none when there is none |
| Text.ReplaceFirstAbsent | lib/util/fixRefSwagger.ts:29 | a string-pattern `replace` with no occurrence returns the string unchanged |
| Text.ReplaceFirstCharIs | lib/util/fixRefSwagger.ts:29 | for a one-character pattern, the character-by-character replace the legacy rename uses is exactly the string-pattern `replace`: the first occurrence is replaced, and a string without one is unchanged |
| Text.RemoveSpaces | lib/index.ts:105 | `replace(/ /g, '')` leaves no space, never lengthens, and changes nothing in a string without spaces |
| Text.Split | lib/util/parse.ts:32 | `split('/')` gives at least one segment and no segment holds the separator |
| Text.JoinSplit | lib/util/parse.ts:32 | splitting loses nothing: joining the segments with the separator gives back the string |
| Text.SplitNone | lib/util/parse.ts:32 | a string without the separator is its own one segment |
| Text.LastSegment | lib/ServiceGenerator.ts:258-259 | the last `/`-segment of a ref holds no `/` |
| Text.RewritePathParamsInsertsDollars | lib/ServiceGenerator.ts:119-121 | the `{x}` to `${x}` rewrite only inserts `$` signs: removing every `$` from input and output gives the same text |
| Text.RewritePathParamsNoBrace | lib/ServiceGenerator.ts:119-121 | a path without `{` is not changed |
| Text.RewritePathParamsHead | lib/ServiceGenerator.ts:119-121 | a placeholder at the front becomes `${x}`, and the rewrite goes on after its closing brace |
| Text.RewritePathParamsOne | lib/ServiceGenerator.ts:119-121 | `a{x}b`, with no `{` in `a` or `b` and no `}` in `x`, becomes `a${x}b` |
| JsonModel.SpreadLaws | lib/index.ts:45-48 | in `{...a, ...b}` every key of `b` reads `b`'s value (when `b`'s keys are distinct), and every other key reads `a`'s |
| JsonModel.SpreadAppends | lib/util/parse.ts:41 | spreading entries whose keys are new appends them in order, so `{...obj}` holds `obj`'s own entries in their order |
| JsonModel.Read | lib/util/parse.ts:37-39 | a property read `obj[node]` throws exactly on null and undefined, and otherwise yields the property `Get` reads: an object's own entry, an array's element or a string's character at an index, the `length` of an array or a string, and undefined when absent |
| JsonModel.GetString | lib/util/parse.ts:37-39 | reading a string gives its length for `length`, the one-character string at an index inside it, and undefined for every other key |
| JsonModel.ObjectKeys | lib/index.ts:95-97 | `Object.keys` gives an object's keys in order, throws exactly on null and undefined, and gives indices for arrays and strings |
| JsonModel.MapThrowing | lib/index.ts:100-106 | a `map` that does not throw has one result per element |
| JsonModel.MapThrowingLaws | lib/ServiceGenerator.ts:81-104 | a `map` whose callback may throw succeeds exactly when the callback does on every element, and then holds the callback's results in order |
| JsonModel.MapThrowingFirstError | lib/ServiceGenerator.ts:81-104 | the exception a `map` throws is the callback's first one in list order |
| JsonModel.EachKeyLaws | lib/index.ts:95-109 | a `forEach` over distinct keys that assigns each key the callback's result succeeds exactly when every callback does; then each visited key holds the callback's result on its old value, the other keys keep theirs and no key is added |
| JsonModel.EachKeyObjectLaws | lib/index.ts:97-107 | the same loop over all keys of an object keeps the object's keys, in order |
| JsonModel.ToStrSingleton | lib/util/fixSwagger.ts:64 | a one-element array converts to a key as its element does, and a null element to the empty string |
| JsonModel.ToStrOfArray | lib/util/fixSwagger.ts:64 | an array converts to its elements joined with commas, nested arrays flattened and null left empty |
| JsonModel.NatToString | lib/util/fixOpenAPI.ts:61-63 | the numeral `${n}` is a non-empty string of digits without a leading zero |
| JsonModel.NatToStringInjective | lib/util/fixOpenAPI.ts:61-63 | different counters give different numerals |
| JsonModel.ParseIndexOfNatToString | lib/util/fixRefSwagger.ts:48-52 | the key an array index is enumerated under reads back that index |
| RefScan.FindRef | lib/util/fixSwagger.ts:98-114 | `findRef` returns only nodes with a truthy `$ref`; a ref node gives itself alone, without looking inside it; anything the walk does not enter gives `[]`; the walk of lib/util/fixSwagger.ts never throws |
| RefScan.FindRefFrom | lib/util/fixRefSwagger.ts:43-54 | the children's results are concatenated in key order and hold only ref nodes; only the walk of lib/util/fixRefSwagger.ts, which also enters arrays, can throw (on a null) |
| RefScan.FindRefFromSplit | lib/util/fixSwagger.ts:108-112 | the list of a container is the first child's list followed by the rest's |
| RefScan.ReplaceRefsIdentity | lib/util/fixSwagger.ts:17-31 | writing the collected ref objects back unchanged gives the document back: edits through the collected references touch nothing else |
| RefScan.ReplaceRefsFound | lib/util/fixSwagger.ts:17-31 | each edited node is written back in the place of the ref it was collected as: walking the new tree finds, in order, what walking each written node finds |
| RefScan.ReplaceRefsPlaced | lib/util/fixSwagger.ts:39-44 | when the edited nodes are still refs, walking the written-back tree finds exactly those nodes, in the order and places the refs were collected from |
| RefScan.FindRefAllRefs | lib/util/fixSwagger.ts:98-114 | a list of ref nodes is found again exactly as it is, so edited refs that keep a `$ref` are collected in their old order |
| RefScan.ReplacedContainer | lib/util/fixSwagger.ts:108-112 | an object or array the walk enters is written back as the same kind of container of the same size, with no truthy `$ref`, holding the rewritten children |
| FixRef.RefKeyMeaning | lib/util/fixSwagger.ts:18-23 | a ref resolves exactly when it is a string beginning with `#/definitions/`, and its key is the rest; any other string is reported as unsupported, and a non-string throws |
| FixRef.RetargetRefKey | lib/util/fixSwagger.ts:42-44 | a rewritten ref names the new key |
| FixRef.MarkAny | lib/util/fixSwagger.ts:24-28 | a ref to a missing definition has no `$ref` afterwards and has `type: 'any'` |
| FixRef.Retarget | lib/util/fixSwagger.ts:42-44 | the rewritten ref is `#/definitions/` followed by the new name |
| FixRef.RetargetTwice | lib/util/fixRefSwagger.ts:35-37 | rewriting a ref twice leaves only the second name |
| FixRef.Stage | lib/util/fixSwagger.ts:17-31 | after `i` callbacks the first `i` collected refs carry their edits and the others are untouched |
| FixRef.FirstBad | lib/util/fixSwagger.ts:17-22 | the index at which the ref loop throws: every earlier ref resolves, and the ref there does not |
| FixRef.InitialSlots | lib/util/fixSwagger.ts:12-15 | before any rename every definition is under its own key, in key order |
| FixRef.NewName | lib/util/fixSwagger.ts:36-37 | the name for an invalid key is always a valid type name, when the rename prefix is valid (sanitised key, or prefix and count; legacy: `«`/`»` rewrite, or `DTO_` and count) |
| FixRef.DefinitionsLaws | lib/util/fixSwagger.ts:13 | the definition entries are an object's own entries, or the indices `Object.keys` gives an array or a string, each with what it reads there, and none for anything else |
| FixRef.DefinitionsOfArray | lib/util/fixSwagger.ts:13 | an array `definitions` gives each index with its element |
| FixRef.Rebuilt | lib/util/fixSwagger.ts:39-40 | the rebuilt `definitions` has the current names in order, each holding the schema of the key it was moved from |
| FixRef.FixRefName | lib/util/fixSwagger.ts:11-48 | the pass, loop for loop, leaves exactly the document and the exception of `FixRefNameSpec` |
| FixRef.InitRefMap | lib/util/fixSwagger.ts:12-15 | `refMap` has one empty list per definition key, and its key order is the definitions' key order without repeats |
| FixRef.CollectRefs | lib/util/fixSwagger.ts:17-31 | the ref loop stops at the first ref that does not resolve; the refs before it are edited, and when none fails every ref is filed under its key |
| FixRef.FileRef | lib/util/fixSwagger.ts:24-30 | one callback: a ref to an unknown key is marked `any`, any other is filed under its key |
| FixRef.RenameKeys | lib/util/fixSwagger.ts:33-47 | the rename loop leaves the slots and count of the rename plan, and every ref edited for the plan's renames |
| FixRef.RenameStep | lib/util/fixSwagger.ts:34-46 | valid keys are skipped; an invalid one is renamed and counted |
| FixRef.RenameKey | lib/util/fixSwagger.ts:36-45 | an invalid key's definition moves to the new name, the old key is removed, and every ref to it names the new key |
| FixRef.EditedAfterRename | lib/util/fixSwagger.ts:42-44 | renaming a key changes exactly the refs to that key, and those now name the new key |
| FixRef.RetargetAll | lib/util/fixSwagger.ts:42-44 | exactly the refs filed under the key are rewritten; all other refs are untouched |
| FixRef.FirstBadSkips | lib/util/fixSwagger.ts:17-22 | when every ref before `i` resolves and the one at `i` does not, the loop throws at `i` |
| FixRefLaws.EditedRef | lib/util/fixSwagger.ts:23-30 | a ref to a missing definition loses `$ref` and gets `type: 'any'`; a ref to a renamed key names the new key; a ref to a kept key is unchanged |
| FixRefLaws.PlanCount | lib/util/fixSwagger.ts:33-46 | `count` rises by one for each invalid key, and only for those |
| FixRefLaws.PlanRenamed | lib/util/fixSwagger.ts:35 | exactly the invalid keys seen so far have been renamed |
| FixRefLaws.PlanNamesValid | lib/util/fixSwagger.ts:36-37 | with a valid prefix every chosen name is valid, so never the key it replaces |
| FixRefLaws.RenameMoves | lib/util/fixSwagger.ts:39-40 | after a rename the old key is gone and `definitions[newName]` holds what `definitions[key]` held |
| FixRefLaws.InitialSlotsLookup | lib/util/fixSwagger.ts:12-15 | before the loop every key finds its own definition |
| FixRefLaws.ValidKeyStays | lib/util/fixSwagger.ts:34-35 | a definition with a valid key that no rename chose as its new name stays where it was |
| FixRefLaws.StepKeepsSlot | lib/util/fixSwagger.ts:34-41 | one step leaves a valid key's definition alone unless it chooses that key as the new name |
| FixRefLaws.FixRefNameThrows | lib/util/fixSwagger.ts:20-22 | the pass throws exactly when the document is null or undefined, when the lenient walk meets a null, or when a ref does not start with `#/definitions/`, and then with the first such ref's exception |
| FixRefLaws.FixRefNameIdentity | lib/util/fixSwagger.ts:11-48 | a document whose refs all name existing definitions and whose definition keys are all valid comes back unchanged, and nothing is thrown |
| FixRefLaws.NoInvalid | lib/util/fixSwagger.ts:35 | with only valid keys nothing is counted |
| FixRefLaws.FixRefNameOk | lib/util/fixSwagger.ts:11-48 | when the pass does not throw, the document is non-null, the walk succeeded, every ref resolves, and the result is the written-back tree with `definitions` rebuilt from the final plan |
| FixRefLaws.FixRefNameResult | lib/util/fixSwagger.ts:11-48 | the returned document: walking the written-back tree finds the edited refs in the collected places; each ref to a renamed key names the key's new name; without a rename nothing else changes; after one only `definitions` changes, rebuilt from the plan; and a renamed key whose new name no other rename took is gone, with `definitions[newName]` holding the schema that was under the key |
| FixRefLaws.RenamedRefs | lib/util/fixSwagger.ts:42-44 | every collected ref to a renamed key resolves to the key's new name |
| FixRefLaws.MovedDefinition | lib/util/fixSwagger.ts:39-44 | in the returned document a renamed key is gone and its new name holds the key's written-back schema, when no other rename took that name |
| FixRefLaws.AssembledDocument | lib/util/fixSwagger.ts:39-40 | after a rename the document is an object whose `definitions` is rebuilt from the plan and whose other properties are those of the written-back tree |
| FixRefLaws.AssembleLaws | lib/util/fixSwagger.ts:39-40 | after a rename the document's `definitions` is the rebuilt one and every other property is unchanged |
| FixRefLaws.PlannedKeys | lib/util/fixSwagger.ts:33-35 | a rename needs at least one definition key |
| FixRefLaws.DefinitionsOwner | lib/util/fixSwagger.ts:13 | only an object document has definition entries |
| FixRefLaws.WrittenBackObject | lib/util/fixSwagger.ts:17-31 | writing edited refs back into an object gives an object |
| FixRefLaws.StepSlots | lib/util/fixSwagger.ts:36-40 | one rename deletes the key, points the new name at the key's definition, and leaves every other name's definition alone |
| FixRefLaws.PendingKeyStays | lib/util/fixSwagger.ts:34-40 | an invalid key keeps its own definition until its own turn |
| FixRefLaws.RenamesStable | lib/util/fixSwagger.ts:34-46 | a rename, once made, is never changed by a later step |
| FixRefLaws.RenameKept | lib/util/fixSwagger.ts:34-46 | after a key is renamed, the name chosen at its step keeps holding the key's definition and the key stays deleted at every later step, unless a later rename picks the same name |
| FixRefLaws.RenameKeptBase | lib/util/fixSwagger.ts:36-40 | right after the rename the new name holds the key's definition and the key is gone |
| FixRefLaws.RenameKeptStep | lib/util/fixSwagger.ts:34-46 | a later step that does not pick the same name keeps the moved definition under its new name and the old key deleted |
| FixRefLaws.NewNameIsFinal | lib/util/fixSwagger.ts:36-37 | the name chosen at a step is the key's rename in the final plan |
| FixRefLaws.KeptStep | lib/util/fixSwagger.ts:39-40 | a step that renames to another name leaves a moved definition in place |
| FixRefLaws.FinalSlots | lib/util/fixSwagger.ts:33-47 | in the final plan a renamed key whose new name no other rename took is gone, and its new name holds the key's definition |
| FixRefLaws.RenamedCounted | lib/util/fixSwagger.ts:45 | a rename is counted |
| FixRefLaws.RebuiltLookup | lib/util/fixSwagger.ts:39-40 | the rebuilt `definitions` reads each name from the original key it holds |
| FixRefLaws.CountZero | lib/util/fixSwagger.ts:35 | a zero count means every key was valid |
| FixRefLaws.LegacyRenamesCollide | lib/util/fixRefSwagger.ts:29-33 | the legacy rule gives `A«B»` and `A_B»` the same new name `A_B`, and the second move overwrites the first |
| FixRefLaws.LegacyCollideFirst | lib/util/fixRefSwagger.ts:29-33 | the first move of that example |
| FixRefLaws.LegacyCollideSecond | lib/util/fixRefSwagger.ts:29-33 | the second move of that example, which overwrites the first |
| FixRefLaws.LegacyNameOfFirst | lib/util/fixRefSwagger.ts:29 | `A«B»` becomes the valid `A_B` |
| FixRefLaws.LegacyNameOfSecond | lib/util/fixRefSwagger.ts:29 | `A_B»` also becomes `A_B` |
| FixBody.BodyParams | lib/util/fixSwagger.ts:57 | the body filter keeps only params with `in === 'body'`, all taken from the list |
| FixBody.OtherParams | lib/util/fixSwagger.ts:72 | the other filter keeps only params whose `in` is not `'body'`, all taken from the list |
| FixBody.FiltersPartition | lib/util/fixSwagger.ts:57-72 | the two filters split the list: together they hold each param exactly as often as the list does |
| FixBody.RequiredNames | lib/util/fixSwagger.ts:80 | the DTO's `required` lists exactly the names of the required body params |
| FixBody.Entries | lib/util/fixSwagger.ts:63-68 | one property assignment per body param, in order: the param's name, holding its description spread under its schema |
| FixBody.PropertiesHoldParams | lib/util/fixSwagger.ts:63-68 | each body param's name is a property holding that param's description and schema, unless a later param of the same name replaced it |
| FixBody.PropertiesOnlyParams | lib/util/fixSwagger.ts:63-68 | no other name becomes a property |
| FixBody.Dto | lib/util/fixSwagger.ts:73-83 | the merged `RequestBodyDTO` param is itself a body param |
| FixBody.Requeried | lib/util/fixSwagger.ts:89 | `p.in = 'query'` changes that field only |
| FixBody.RequeryAll | lib/util/fixSwagger.ts:87-91 | after the `default` branch every body param is a query param and every other param is untouched, at the same places |
| FixBody.FixParameters | lib/util/fixSwagger.ts:55-92 | the callback for one operation, statement by statement, gives `FixOperation`: the operation after the fix, or the exception |
| FixBody.BuildProperties | lib/util/fixSwagger.ts:62-68 | the assignment loop builds the `properties` object of the merged param |
| FixBody.RequeryBodies | lib/util/fixSwagger.ts:87-91 | the `p.in = 'query'` loop leaves the re-queried list |
| FixBody.FixRequestBody | lib/util/fixSwagger.ts:50-96 | the pass over every operation of every path leaves the document and exception of `FixRequestBodySpec`; operations fixed before a throw stay fixed |
| FixBody.FixPathOperations | lib/util/fixSwagger.ts:54-94 | the loop over the methods of one path item gives its fixed operations or the first exception |
| FixBodyLaws.BodyParamsConcat | lib/util/fixSwagger.ts:57 | filtering a concatenation filters each part |
| FixBodyLaws.NoBodyParams | lib/util/fixSwagger.ts:57-72 | the body filter keeps nothing exactly when no param is a body param, and then the other filter keeps the whole list |
| FixBodyLaws.MergedList | lib/util/fixSwagger.ts:71-83 | the merged list is the other params in order, then the DTO, which is its one body param |
| FixBodyLaws.RequeriedList | lib/util/fixSwagger.ts:87-91 | re-querying leaves no body param, keeps length and order, turns each body param's `in` into `'query'` and changes nothing else |
| FixBodyLaws.RequeryNothing | lib/util/fixSwagger.ts:87-91 | a list without body params is its own re-query |
| FixBodyLaws.SetParameters | lib/util/fixSwagger.ts:71 | assigning `parameters` changes that field only |
| FixBodyLaws.FixOperationThrows | lib/util/fixSwagger.ts:55-57 | the pass throws on an operation exactly when it is null or undefined, or its truthy `parameters` is not an array or holds null or undefined |
| FixBodyLaws.FixOperationNoParameters | lib/util/fixSwagger.ts:56 | an operation without `parameters` is left alone |
| FixBodyLaws.FixOperationMerges | lib/util/fixSwagger.ts:59-85 | POST and PUT, in any letter case, with several body params: the list becomes the other params in order and then the one merged param; the operation's other fields stay |
| FixBodyLaws.FixOperationKeepsSingle | lib/util/fixSwagger.ts:59-85 | POST and PUT with at most one body param are left alone |
| FixBodyLaws.FixOperationRequeries | lib/util/fixSwagger.ts:87-91 | any other method turns every body param into a query param in place |
| FixBodyLaws.FixOperationIdempotent | lib/util/fixSwagger.ts:55-92 | fixing a fixed operation changes nothing, whatever the method |
| FixBodyLaws.IdempotentMerge | lib/util/fixSwagger.ts:59-85 | a merged list has one body param, so a second pass keeps it |
| FixBodyLaws.MergedNonNull | lib/util/fixSwagger.ts:71-83 | the merged list holds no null when the original held none |
| FixBodyLaws.FixOperationFixed | lib/util/fixSwagger.ts:55-92 | an operation whose list is its own fix is returned unchanged |
| FixBodyLaws.IdempotentRequery | lib/util/fixSwagger.ts:87-91 | a re-queried list has no body param left, so a second pass keeps it |
| FixBodyLaws.FixPathsKeepKeys | lib/util/fixSwagger.ts:51-54 | the walk only assigns keys `paths` already has, so it keeps its keys in order |
| FixSwagger.FixSwaggerDoc | lib/util/fixSwagger.ts:6-9 | `fixSwagger` is the rename pass and then the body pass; an exception in the first means the second does not run |
| FixOpenApi.FindTag | lib/util/fixOpenAPI.ts:31 | `tags.find(t => t.name === tagName)` returns an index whose TagObject has that name |
| FixOpenApi.TagEntry | lib/util/fixOpenAPI.ts:31-38 | the TagObject the callback works on is in the (possibly extended) tag list |
| FixOpenApi.MapTagsFrom | lib/util/fixOpenAPI.ts:27-47 | the map gives one entry per tag name |
| FixOpenApi.FixOpenApi | lib/util/fixOpenAPI.ts:9-12 | `fixOpenAPI` is `fixTag` and then `fixOperationId`; an exception in the first stops the second |
| FixOpenApi.FixTag | lib/util/fixOpenAPI.ts:14-50 | the tag pass, loop for loop, gives `FixTagSpec`: `paths` fixed and any tags pushed into `data.tags` |
| FixOpenApi.FixTagPaths | lib/util/fixOpenAPI.ts:20-49 | the loop over the paths hands the tag list and the name cache from one path item to the next |
| FixOpenApi.FixTagPathItem | lib/util/fixOpenAPI.ts:21-22 | `Object.keys` of a null or undefined path item throws; otherwise its methods are looped over |
| FixOpenApi.FixTagMethods | lib/util/fixOpenAPI.ts:22-48 | the loop over the methods of one path item hands the tag state on |
| FixOpenApi.FixOperationTags | lib/util/fixOpenAPI.ts:23-47 | an operation whose `tags` is not a non-empty array gets `['Default']` first; its tags are then mapped |
| FixOpenApi.MapTags | lib/util/fixOpenAPI.ts:27-47 | the map, one tag name after the other, carrying the cache and the tag list |
| FixOpenApi.FixOperationId | lib/util/fixOpenAPI.ts:52-69 | the id pass, loop for loop, gives `FixOperationIdSpec` |
| FixOpenApi.FixIdPaths | lib/util/fixOpenAPI.ts:55-68 | one counter map is shared by all paths, in key order |
| FixOpenApi.FixIdPathItem | lib/util/fixOpenAPI.ts:56-57 | `Object.keys` of a null or undefined path item throws; otherwise its methods are looped over |
| FixOpenApi.FixIdMethods | lib/util/fixOpenAPI.ts:57-67 | the first operation with an id keeps it and sets its counter to 1; a later one gets `_` and the counter, which then rises |
| FixOpenApiLaws.NewTagNameValid | lib/util/fixOpenAPI.ts:40-43 | an invalid tag's new name is the description without spaces when that is valid, else `UNKNOWN`; it is valid either way and holds no space |
| FixOpenApiLaws.TagEntryName | lib/util/fixOpenAPI.ts:31-38 | the TagObject the callback works on has the tag's name: `find` matched it, or it was pushed as `{name, description: name}` at the end |
| FixOpenApiLaws.MapTagPushes | lib/util/fixOpenAPI.ts:32-38 | a name without a TagObject adds exactly one entry at the end of `data.tags` and keeps the others |
| FixOpenApiLaws.MapTagValidIsUndefined | lib/util/fixOpenAPI.ts:27-47 | a valid, unremembered tag name maps to `undefined`, because the callback returns nothing then; the cache is unchanged |
| FixOpenApiLaws.MapTagRenames | lib/util/fixOpenAPI.ts:39-46 | an invalid tag name maps to a valid new name; its TagObject gets that name and takes the old one as description; the cache maps old to new |
| FixOpenApiLaws.RenamedEntry | lib/util/fixOpenAPI.ts:44-45 | after `description = name; name = newName` the TagObject holds the new name and the old name as description |
| FixOpenApiLaws.MapTagAgain | lib/util/fixOpenAPI.ts:28-30 | once a name is mapped to a non-empty new name, mapping it again gives the same name and changes nothing |
| FixOpenApiLaws.FixOpTagsLength | lib/util/fixOpenAPI.ts:24-27 | each operation ends with one entry per tag name, one when it had no tags, and no other field changed |
| FixOpenApiLaws.NextIdCounts | lib/util/fixOpenAPI.ts:59-66 | the counter records how often each id has been seen; the first keeps its id, and the `n`-th repeat becomes `<id>_<n>` with its other fields unchanged |
| FixOpenApiLaws.SuffixesDiffer | lib/util/fixOpenAPI.ts:61-63 | repeats of one id get pairwise different suffixes, none equal to the id |
| FixOpenApiLaws.SuffixMayCollide | lib/util/fixOpenAPI.ts:60-66 | suffixes are not checked against existing ids: `a`, `a`, `a_1` come out as `a`, `a_1`, `a_1` |
| TagRemap.RemapTags | lib/index.ts:95-109 | the nested loops of the remap give `RemapTagsSpec` |
| TagRemap.RemapPaths | lib/index.ts:95-109 | the loop over the paths remaps each path item in key order and stops at the first exception |
| TagRemap.RemapPathItem | lib/index.ts:96-97 | `Object.keys` of a null or undefined path item throws; otherwise its operations are remapped |
| TagRemap.RemapOperations | lib/index.ts:97-108 | the loop over the operations of one path item |
| TagRemap.FindTagNone | lib/index.ts:101 | `find` yields nothing when no entry has the name and none is null or undefined |
| TagRemap.RenamedTagLaws | lib/index.ts:100-106 | a tag only changes into the space-free description of a TagObject that has its name; a tag no TagObject names stays; without an array of TagObjects `find` throws |
| TagRemap.RemapOperationLaws | lib/index.ts:99-106 | an operation without tags or with none is left as it is; otherwise its tags keep their number and order, each mapped on its own, and nothing else changes |
| TagRemap.RemapItemLaws | lib/index.ts:97-107 | a path item keeps its keys, and each of its operations is remapped on its own |
| TagRemap.RemapTagsLaws | lib/index.ts:95-109 | the remap changes only `paths`: each path keeps its place and is remapped against the document's own tag list |
| TagRemap.EachPath | lib/index.ts:95-111 | the remapped document is the loop's result set back under `paths`, with its other fields unchanged |
| Index.ConvertSwagger2OpenApiDoc | lib/index.ts:90-112 | `fixSwagger`, the converter, `fixOpenAPI` and the tag remap, one after the other; the first exception stops the rest |
| Index.GenFromData | lib/index.ts:44-60 | `genFromData` up to the generator, statement by statement, gives the merged config and the checked document of `GenFromDataSpec`, or its exception |
| IndexLaws.MergedCliConfigLaws | lib/index.ts:45-48 | every key the config object has reads the config's value; every other key reads the `CliConfig` default |
| IndexLaws.MergedCliConfigDefaults | lib/index.ts:10-12 | `autoClear` is `true` and `ignoreDelete` is `[]` unless the config sets them |
| IndexLaws.MergedCliConfigGet | lib/index.ts:45-48 | one key of the merged config: the config's value when it has the key, the default otherwise |
| IndexLaws.CliConfigDefaultValues | lib/index.ts:10-12 | the defaults hold `autoClear: true` and `ignoreDelete: []` |
| IndexLaws.MergedCliConfigSpread | lib/index.ts:45-48 | the merged config is the defaults with the config's own entries spread over them |
| IndexLaws.MergedCliConfigAbsent | lib/index.ts:45-48 | spreading a null or undefined config keeps the defaults |
| IndexLaws.ConvertStopsAtFirstError | lib/index.ts:90-112 | an exception of `fixSwagger` stops the conversion before the converter runs; one of the converter stops it before `fixOpenAPI`; otherwise the result is `fixOpenAPI` and then the remap |
| IndexLaws.CheckOpenApi3Laws | lib/index.ts:58-60 | exactly a string `openapi` beginning with `3.` passes, and the document is passed on unchanged; a falsy version is refused |
| IndexLaws.CheckOpenApi3Examples | lib/index.ts:58-60 | `3.1.0` passes; `2.0` is refused |
| IndexLaws.GenFromDataLaws | lib/index.ts:44-60 | a document without `paths` or `info` is refused whatever the config and the converter; any other document that is not Swagger 2.0 is only version-checked; an accepted document has a `3.` version and comes with the merged config |
| Parse.Walk | lib/util/parse.ts:36-39 | the walk `obj = obj[node]` over the segments reaches the node of `WalkPath`, or throws on reading from null or undefined |
| Parse.ResolveRefNode | lib/util/parse.ts:28-55 | `resolveRef`, statement by statement, gives `ResolveRef`: the body's value, or `refObject` itself when the body throws |
| Parse.ResolveKeys | lib/util/parse.ts:47-53 | the loop over `Object.keys(result)` resolves each child where it stands |
| Parse.ResolveFields | lib/util/parse.ts:47-51 | over an object, each child that `typeof` calls an object is replaced by its resolution, and the others kept |
| Parse.ResolveItems | lib/util/parse.ts:47-51 | the same over the indices of an array |
| ParseLaws.WalkPathAppend | lib/util/parse.ts:36-39 | walking `a + b` walks `a`, then `b` from where `a` ended |
| ParseLaws.ResolveRefFallsBack | lib/util/parse.ts:19-25 | `resolveRef` never throws; it returns `refObject` itself exactly when the body throws: on null or undefined, on a truthy non-string `$ref`, or on a `#` path whose walk reads from null or undefined |
| ParseLaws.ResolveRefCopiesTarget | lib/util/parse.ts:31-44 | a `#` ref resolves to a shallow copy of the node its path reaches: the ref's own siblings are dropped and nothing inside the target is resolved; for an object target the copy equals it |
| ParseLaws.ResolveRefTarget | lib/util/parse.ts:41-43 | the result of a `#` ref is the spread of the node the walk reaches |
| ParseLaws.OwnEntriesObject | lib/util/parse.ts:41 | spreading an object with distinct keys copies it |
| ParseLaws.ResolveRefMissingLast | lib/util/parse.ts:37-41 | when only the last segment is missing the result is `{}`, the spread of `undefined` |
| ParseLaws.ResolveRefMissingInner | lib/util/parse.ts:37-39 | when a segment before the last is missing the walk throws and the original ref object comes back |
| ParseLaws.ResolveRefPlain | lib/util/parse.ts:47-53 | a node without a `#` ref keeps its keys in order (or its length), each child that `typeof` calls an object is resolved, the others kept; strings, numbers and booleans come back as they are |
| ParseLaws.ResolveRefGet | lib/util/parse.ts:47-51 | a key of a resolved plain object reads the resolved child, and a non-`#` `$ref` is kept |
| ParseLaws.ResolvedLookup | lib/util/parse.ts:47-51 | reading any key of the resolved object reads that key's resolved child |
| ParseLaws.ResolveRefFree | lib/util/parse.ts:47-53 | a tree in which no object carries a truthy `$ref` resolves to itself |
| ServiceRefs.ResolveRefObjectNode | lib/ServiceGenerator.ts:239-252 | `resolveRefObject`, statement by statement, gives `ResolveRefObject` |
| ServiceRefs.ResolveRefObjectPlain | lib/ServiceGenerator.ts:239-252 | a value without a truthy `$ref` is returned as it is, and a ref that is not `#`-rooted gives `undefined` |
| ServiceRefs.ResolveRefObjectDone | lib/ServiceGenerator.ts:250 | whatever comes back has no truthy `$ref`: refs are followed until a target without one |
| ServiceRefs.ResolveRefObjectFollows | lib/ServiceGenerator.ts:244-250 | a target without a ref is returned as it is (not copied); a target that is itself a ref resolves as that target does, one call deeper |
| ServiceRefs.ResolveRefObjectDeeper | lib/ServiceGenerator.ts:250 | the depth only bounds the chain: a result reached at some depth is reached at any larger one |
| ServiceRefs.ResolveRefObjectSelfCycle | lib/ServiceGenerator.ts:250 | there is no cycle guard: a schema whose `$ref` names itself exhausts the stack at any depth |
| TypeMap.Items | lib/util/getType.ts:33 | `schemaObject.items` is the schema's own child or undefined, so the recursion on it ends |
| TypeMapLaws.UnionAppend | lib/util/getType.ts:30 | the union lists every value in order, repeats included: no values give `''`, and each further value adds ` \| '<value>'` |
| TypeMapLaws.UnionQuoted | lib/ServiceGenerator.ts:319 | a union of at least one value begins with a quote, so it is never empty and `\|\| 'string'` does not apply |
| TypeMapLaws.Innermost | lib/util/getType.ts:32-33 | the schema inside all `array` levels is not itself an array |
| TypeMapLaws.GetTypeNested | lib/util/getType.ts:32-33 | nested arrays give the innermost schema's type with one `[]` per level, so a missing `items` at any level gives `any[]…[]` |
| TypeMapLaws.GetTypeThrows | lib/util/getType.ts:29-30 | `getType` throws only for a `type: 'enum'` schema, at any array depth, whose truthy `enum` is not an array |
| TypeMapLaws.GetTypeFamilies | lib/util/getType.ts:4-27 | `number`, `Date`, `string` and `boolean` each come from exactly their family of type names |
| TypeMapLaws.EnumNotPlain | lib/util/getType.ts:30 | an enum union is quoted, so never a plain type name |
| TypeMapLaws.ArrayNotPlain | lib/util/getType.ts:33 | an array type ends in `[]`, so is never a plain type name |
| TypeMapLaws.GetTypeAny | lib/util/getType.ts:35-36 | `any` comes from unknown and non-string types, absent schemas, an `enum` type without a list and capital `Date`; an array without `items` gives `any[]` |
| TypeMapLaws.QualifiedParts | lib/ServiceGenerator.ts:295 | the qualified name leaves out an empty namespace and an empty name |
| TypeMapLaws.ServiceTypeRef | lib/ServiceGenerator.ts:294-296 | a schema whose `$ref` ends in `/<name>` maps to `<namespace>.<name>`, or to the bare name without a namespace; the ref is never followed |
| TypeMapLaws.ServiceTypeThrows | lib/ServiceGenerator.ts:294 | `$ref` is read before the null guard, so an absent schema throws, and so does an array without `items` |
| TypeMapLaws.ServiceTypeStringEnum | lib/ServiceGenerator.ts:313-319 | in the string family a non-empty `enum` gives the union of its values, and an absent or empty one gives `string` |
| TypeMapLaws.ServiceTypeArrayOfRef | lib/ServiceGenerator.ts:324-325 | arrays pass the namespace down to their items: an array of refs is `<namespace>.<name>[]` |
| TypeMapLaws.MappersAgree | lib/ServiceGenerator.ts:298-322 | without a ref, both mappers give the same type for the number, date, boolean and plain string families |
| TypeMapLaws.MappersDiffer | lib/ServiceGenerator.ts:293-330 | where they differ: capital `Date`, the `enum` type, a string enum, and an absent schema, which only the generator's mapper throws on |
| ServiceParams.FillTemplateParams | lib/ServiceGenerator.ts:186-205 | `getParamsTemplateParam` step by step equals `TemplateParams`: `undefined` for an absent or empty list, else the groups |
| ServiceParams.FillGroups | lib/ServiceGenerator.ts:190-204 | the loop over query, header, path and cookie produces the walk `GroupsFrom` from the first location, stopping at the first exception |
| ServiceParamsLaws.AtLocationLaws | lib/ServiceGenerator.ts:194 | the filter throws exactly when some parameter is null or undefined; otherwise it keeps, in order, exactly the parameters whose `in` is the location, each as many times as the list holds it |
| ServiceParamsLaws.AtLocationNonEmpty | lib/ServiceGenerator.ts:194 | the filter keeps something exactly when some parameter's `in` is the location |
| ServiceParamsLaws.TypedLaws | lib/ServiceGenerator.ts:195-198 | each kept parameter gets `type` set to its schema's type and keeps all its other entries |
| ServiceParamsLaws.GroupNonEmpty | lib/ServiceGenerator.ts:192-200 | a location's group is non-empty exactly when some resolved parameter is at that location |
| ServiceParamsLaws.GroupsFromLaws | lib/ServiceGenerator.ts:191-203 | the walk sets each remaining location that has a non-empty group and leaves every other key as it was |
| ServiceParamsLaws.TemplateParamsGroups | lib/ServiceGenerator.ts:186-205 | for a non-empty list every key is a location, and each location holds exactly its group, or is absent when the group is empty |
| ServiceParamsLaws.TemplateParamsNonEmpty | lib/ServiceGenerator.ts:187 | a non-empty array passes the `length` guard and goes to the walk over the locations |
| ServiceParamsLaws.TemplateParamsAbsent | lib/ServiceGenerator.ts:187-189 | undefined, null and an empty list give `undefined` |
| ServiceParamsLaws.MediaParamFirst | lib/ServiceGenerator.ts:157-162 | a non-empty `content` gives its first media type and that entry's schema type; an empty one throws, since `content[undefined]` is read |
| ServiceParamsLaws.BodyParamAbsent | lib/ServiceGenerator.ts:148-156 | no body, or a plain body without a `content` object, gives `undefined` |
| ServiceParamsLaws.ResponseParamChoice | lib/ServiceGenerator.ts:165-173 | `default` wins over `'200'`, and with neither the default param `*/*`/`any` is returned |
| ServiceParamsLaws.BodyMatchesResponse | lib/ServiceGenerator.ts:148-184 | on a resolved object with a `content` object the body and response params are equal; otherwise the body gives `undefined` |
| ServiceGenLaws.DescribeLaws | lib/ServiceGenerator.ts:99 | the description joins whichever of title and description are present with one space, and is empty when neither is |
| ServiceGenLaws.PropEntryLaws | lib/ServiceGenerator.ts:93-102 | a property entry exists exactly when its type maps and `required` is an array; it keeps the property's own entries and sets `name`, `type`, `desc` and `required`, the last true exactly when the name is listed |
| ServiceGenLaws.PropLiteral | lib/ServiceGenerator.ts:95-101 | each field of the spread literal reads back as the literal set it, and every other key reads the property schema |
| ServiceGenLaws.InterfaceDefObjectOnly | lib/ServiceGenerator.ts:82-86 | an entry exists only for a schema that resolves to `type: 'object'`; any other resolved type throws `Unsupported interface type` naming the schema and its `type` |
| ServiceGenLaws.InterfaceTypeAny | lib/ServiceGenerator.ts:90-92 | an entry carries its own name, and its `type` is always `any` |
| ServiceGenLaws.PropListLaws | lib/ServiceGenerator.ts:93-102 | with a `properties` object the list has one entry per property in key order, named by its key and flagged by the `required` list |
| ServiceGenLaws.InterfaceProps | lib/ServiceGenerator.ts:88-93 | `required` defaults to the empty list, and the entry's `props` is the property list built under it |
| ServiceGenLaws.GenInterfaceLists | lib/ServiceGenerator.ts:79-104 | no `components` throws; otherwise the list has one entry per component schema, in key order, under its own name |
| ServiceGenLaws.ApiObjectLaws | lib/ServiceGenerator.ts:125-134 | an API entry keeps the API's own entries and sets `path`, `method`, `desc`, `params`, `body`, `response`, and `hasHeader` exactly when the params have a header group or the body names a media type |
| ServiceGenLaws.ApiObjectKeys | lib/ServiceGenerator.ts:126-133 | the seven keys the literal sets are all different |
| ServiceGenLaws.ApiEntryLaws | lib/ServiceGenerator.ts:118-134 | an API entry exists only for a string path, and is built from the rewritten path and the three template params |
| ServiceGenLaws.HasHeaderParams | lib/ServiceGenerator.ts:130 | the params half of `hasHeader` holds exactly when some resolved parameter is in the header |
| ServiceGenLaws.FinalFileNameLaws | lib/ServiceGenerator.ts:269-277 | `camelCase: true` gives camel case; `'lower'` also lowers the first letter and fails only on an empty name; any other setting gives hyphen case, which has no capital letter |
| ServiceGenLaws.ToCamelCaseNonEmpty | lib/ServiceGenerator.ts:287-291 | camel-casing a non-empty name leaves it non-empty |
| ServiceGenLaws.TagFileLaws | lib/ServiceGenerator.ts:117-144 | a tag's file is named from `${tag}.${type}` and lists one entry per API of the tag |
| ServiceGenLaws.GenServiceFiles | lib/ServiceGenerator.ts:116-146 | `genService` makes one file per tag, in key order, each named and filled as above |
| ServiceGenLaws.LowerNamingTotal | lib/ServiceGenerator.ts:138 | a service file name always has the `.` before its type, so `'lower'` naming never fails there |
| ServiceGenLaws.GenFileWithoutDocument | lib/index.ts:86 | constructed as lib/index.ts does it, without a document, `ts` generation throws a TypeError |
| ServiceGenLaws.GenFileOrder | lib/ServiceGenerator.ts:73-76 | interfaces are built only for `ts` output and before the services, so their failure stops generation before any service file |
| Gen.FixedParams | lib/gen.ts:99-109 | the type fix-up keeps one parameter per parameter |
| Gen.FixParamTypes | lib/gen.ts:99-109 | the in-place loop over `route.params` leaves exactly the fixed-up parameters |
| Gen.ClassKeys | lib/gen.ts:92 | one class key per route |
| Gen.GroupRoutes | lib/gen.ts:91-115 | the `data.forEach` loop fills `metadata` with the grouping of the routes |
| Gen.GenApiSdkFiles | lib/gen.ts:78-137 | `genAPISDK` groups the routes and then writes the classes' files, as `GenApiSdk` states |
| Gen.WriteSdkFiles | lib/gen.ts:118-136 | the loop over the classes produces one file per class in order, stopping at the first exception |
| GenLaws.FixParamTypeLaws | lib/gen.ts:100-108 | `integer` and `array` are the only types rewritten, to `number` and `any[]`, and the fix-up is idempotent |
| GenLaws.FixedParamsLaws | lib/gen.ts:99-109 | the fix-up changes nothing but each parameter's type, and is idempotent |
| GenLaws.PathParamsMembers | lib/gen.ts:113 | `paramsInPath` holds exactly the parameters located in the path, each as many times as the route lists it |
| GenLaws.PathParamsAfterFix | lib/gen.ts:99-113 | filtering after the fix-up equals fixing up the filtered path parameters |
| GenLaws.TemplateLaws | lib/gen.ts:111-114 | a route's entry is the route with fixed-up parameters, and its path parameters are among them |
| GenLaws.RoutesOfAbsent | lib/gen.ts:94-96 | a class no route names holds no route |
| GenLaws.SnocFacts | lib/gen.ts:91-115 | one more route adds its key to the classes if new and appends its entry to its own class only |
| GenLaws.AddRouteStep | lib/gen.ts:94-114 | one step of the loop keeps the grouping right: first-appearance key order, and each class maps to its routes |
| GenLaws.GroupedLaws | lib/gen.ts:87-115 | `metadata` has one distinct key per class in first-appearance order, and each class holds exactly its routes in input order |
| GenLaws.TotalStep | lib/gen.ts:111 | the last route counts once in the total of any distinct class list that holds its class |
| GenLaws.GroupsPartition | lib/gen.ts:91-115 | the classes partition the routes: their lists hold every route exactly once in all |
| GenLaws.MergedConfigDefaults | lib/gen.ts:44-46 | without a config, `camelCase` is `false` and `type` is `ts` |
| GenLaws.MergedConfigOverrides | lib/gen.ts:79 | a key the config gives is read from it; otherwise the two defaults apply |
| GenLaws.MergedConfigSpread | lib/gen.ts:79 | a config object with distinct keys is spread over the defaults as it is |
| GenLaws.TypeNamePlain | lib/gen.ts:119 | a class name without `Controller` is its own type name |
| GenLaws.TypeNameExamples | lib/gen.ts:119 | only the first `Controller` is removed: `PetController` gives `Pet`, `Controller` gives the empty name |
| GenLaws.SdkFileLaws | lib/gen.ts:119-133 | a class file exists exactly when its type name is not empty; it holds the class's routes and an instance name whose first letter is lowered |
| GenLaws.SdkFileNameLaws | lib/gen.ts:128-133 | the file name ends in `.<type>` and has no capital letter unless `camelCase` is set |
| GenLaws.ControllerOnlyThrows | lib/gen.ts:124 | a class named exactly `Controller` throws, since an empty name has no first character |
| GenLaws.GenApiSdkLaws | lib/gen.ts:78-137 | one file per class in first-appearance order, holding exactly that class's routes; it throws exactly when some type name is empty |
| GenLaws.GroupedEntry | lib/gen.ts:118 | the `i`-th entry of the grouping is the `i`-th class with its routes |
| GenLaws.SdkFilesLaws | lib/gen.ts:118-136 | over any class list, one file per class in order, named after it and holding its routes; it throws exactly when some type name is empty |
| GenSdk.ForInKeys | lib/cli/genSdk.ts:156 | a for-in loop visits an object's keys in order, and none of null or undefined |
| GenSdk.GetParams | lib/cli/genSdk.ts:111-151 | `getParams` step by step equals `ParamsOf`: the regular parameters, then the body entries |
| GenSdk.PushProperties | lib/cli/genSdk.ts:129-137 | the for-in loop over the body properties pushes one entry per key, stopping at the first exception |
| GenSdk.ResponseParams | lib/cli/genSdk.ts:153-166 | one response entry per key of the responses |
| GenSdk.GetResponse | lib/cli/genSdk.ts:153-166 | the for-in loop builds exactly the response entries |
| GenSdk.BuildRoutes | lib/cli/genSdk.ts:79-106 | the route building equals `Routes` of the document's `paths` |
| GenSdk.PushPathRoutes | lib/cli/genSdk.ts:80-106 | the loop over the paths equals the walk `PathRoutes` from the first path |
| GenSdk.PathRoutesSkips | lib/cli/genSdk.ts:83 | a path containing `$` adds nothing |
| GenSdk.PathRoutesPushes | lib/cli/genSdk.ts:83-105 | any other path adds its item's records, or stops at their exception |
| GenSdk.PushItemRoutes | lib/cli/genSdk.ts:88-104 | the loop over a path item's methods equals the walk `ItemRoutes` from the first method |
| GenSdk.ItemRoutesPushes | lib/cli/genSdk.ts:90-103 | a truthy operation pushes its record, or stops at its exception |
| GenSdk.ItemRoutesSkips | lib/cli/genSdk.ts:90 | a falsy entry under a method is skipped |
| GenSdk.GenApiSdkFromUrl | lib/cli/genSdk.ts:37-109 | `genAPISDKFromUrl` after the fetch equals `SdkFromUrl`: check, convert, check the version, build the routes, write the classes |
| GenSdkLaws.GetTypeNotRaw | lib/util/getType.ts:3-38 | the type mapper never answers `integer` or `array` |
| GenSdkLaws.ParamOfLaws | lib/cli/genSdk.ts:114-123 | a parameter fails exactly when it is null or undefined or its schema's type fails; both names are its `name`, and `required` defaults to `false` |
| GenSdkLaws.RegularParamsLaws | lib/cli/genSdk.ts:112-114 | no parameters give none, a truthy non-array throws, and an array gives one record per entry in order |
| GenSdkLaws.BodyParamsLaws | lib/cli/genSdk.ts:126-149 | no body schema adds nothing; an object schema adds one entry per property, named after it; any other adds the one `$body` entry; body entries are in the body and have no `required` |
| GenSdkLaws.ParamsOfLaws | lib/cli/genSdk.ts:111-151 | the regular parameters come first, in order, then the body entries |
| GenSdkLaws.BodyAfterRegular | lib/cli/genSdk.ts:131-146 | pushing the body entries keeps the regular ones as a prefix |
| GenSdkLaws.ParamsWithoutContent | lib/cli/genSdk.ts:125-126 | without request content there are no body entries |
| GenSdkLaws.ParamsOfFixed | lib/cli/genSdk.ts:111-151 | every type `getParams` gives is already what the fix-up of lib/gen.ts would make it, so that fix-up changes nothing |
| GenSdkLaws.ParamTypeNotRaw | lib/cli/genSdk.ts:150 | the joined parameter list has no `integer` or `array` type |
| GenSdkLaws.RegularTypeNotRaw | lib/cli/genSdk.ts:119 | no regular parameter has an `integer` or `array` type |
| GenSdkLaws.BodyTypeNotRaw | lib/cli/genSdk.ts:131-146 | no body entry has an `integer` or `array` type |
| GenSdkLaws.ResponseParamsLaws | lib/cli/genSdk.ts:153-166 | one `string` body entry per response key, named after it, in key order; no responses give none |
| GenSdkLaws.ClassNameLaws | lib/cli/genSdk.ts:95 | an operation without `tags` throws; a truthy first tag names the class, an empty list gives `Default`, so the class name is always truthy |
| GenSdkLaws.ContentTypeLaws | lib/cli/genSdk.ts:101 | the content type is the request content's first media type, or empty |
| GenSdkLaws.RouteOfLaws | lib/cli/genSdk.ts:91-102 | a record is built exactly when its class name and parameters do not throw, and carries method, URL, id, summary, description, params, responses and content type |
| GenSdkLaws.ItemRoutesLaws | lib/cli/genSdk.ts:88-104 | the method loop appends one record per truthy operation, in method order, or throws the first exception |
| GenSdkLaws.TruthyVerbsStep | lib/cli/genSdk.ts:90 | the truthy methods from one method on are that method, when truthy, then the rest |
| GenSdkLaws.TruthyVerbsMembers | lib/cli/genSdk.ts:88-90 | a method is listed exactly when it is a key of the item with a truthy operation |
| GenSdkLaws.ItemRoutesShape | lib/cli/genSdk.ts:88-104 | every record of a path item has the item's URL, one of its truthy methods, a truthy class name and already-fixed types |
| GenSdkLaws.RouteShape | lib/cli/genSdk.ts:92-102 | one record has its URL and method, a truthy class name and already-fixed types |
| GenSdkLaws.ItemRoutesPrefix | lib/cli/genSdk.ts:92 | pushing onto `apis` keeps what was there and appends the item's records |
| GenSdkLaws.PathRoutesLaws | lib/cli/genSdk.ts:80-106 | the path loop appends the records of every path without `$`, in key order, or throws the first exception |
| GenSdkLaws.PathSkipped | lib/cli/genSdk.ts:83 | a path with `$` adds nothing and is not among the paths taken |
| GenSdkLaws.PathTaken | lib/cli/genSdk.ts:83-105 | a path without `$` adds its item's records under its rewritten URL |
| GenSdkLaws.DollarFreeMembers | lib/cli/genSdk.ts:83 | the paths taken are exactly those without `$` |
| GenSdkLaws.AllItemRoutesShape | lib/cli/genSdk.ts:80-106 | every record carries the rewritten URL of one of the paths and already-fixed types |
| GenSdkLaws.RoutesLaws | lib/cli/genSdk.ts:79-106 | null or undefined `paths` throws, paths all with `$` give nothing, and every record has a `$`-free path's URL and its template is the record with its path parameters |
| GenSdkLaws.ResolvedInPlaceLaws | lib/cli/genSdk.ts:45-47 | a node without a truthy `$ref` has its children resolved where they stand, so the node itself carries the result `resolveRef` returns; a node with a `#` ref keeps its place; the children are resolved against the document as it was before the call |
| GenSdkLaws.ResolvePathsLaws | lib/cli/genSdk.ts:45-47 | `resolveRef(data, data.paths)` changes at most `paths`, each child resolved against the document as it was before the call; without a document it throws |
| GenSdkLaws.ResolvePathsOriginalRoot | lib/util/parse.ts:31-51 | a `#/paths/a` ref under `paths` becomes a copy of path `a` as the document held it before the call, which is where the model departs from the source's live-root walk |
| GenSdkLaws.CheckVersionLaws | lib/cli/genSdk.ts:66-68 | only a string `openapi` beginning with `3.0.` passes, unchanged; a falsy one is a version error |
| GenSdkLaws.CheckVersionRejects31 | lib/cli/genSdk.ts:66 | `3.1.0` is refused and `3.0.2` accepted |
| GenSdkLaws.SdkDocumentLaws | lib/cli/genSdk.ts:40-68 | a document without `paths` or `info` is refused; one that is not Swagger 2.0 is only checked; an accepted one has a `3.0.` version |
| GenSdkLaws.ConverterErrorStops | lib/cli/genSdk.ts:46 | the converter's exception stops a Swagger 2.0 document |
| GenSdkLaws.SdkFromUrlErrors | lib/cli/genSdk.ts:37-108 | whatever stops the document or the routes stops the command before any file is named |

## Left out

- Fetching the document (lib/util/requestData.ts, lib/util/getDataFromUrl.ts) is I/O. The parsed document is a parameter of `Index.GenFromData` and `GenSdk.GenApiSdkFromUrl`.
- The Swagger 2.0 to OpenAPI 3 converter `s2o` (lib/util/s2o.ts, lib/util/parse.ts:4-17) is a foreign library. It is the parameter `convert`. Its rejection is an `Err` that stops the pipeline like any exception.
- The CLI (lib/cli/index.ts) and config loading (`genSDK`, `genAPISDKFromConfig`, `require` of config files, `getAbsolutePath`) are process and file-system work.
- File-system and template work is not modelled: each result is the data a template would receive.
  - Clearing the output directory, writing `oas.json`, `mkdir`, `genFileFromTemplate`, `getTemplate`, `genDefaultTemplate`, the `base.*` file and nunjucks rendering are all left out.
  - A pass that throws after writing some files has no partial effect in the model.
- Console output is not modelled. The `console.warn` for a ref to a missing definition (lib/util/fixSwagger.ts:25, lib/util/fixRefSwagger.ts:18) is dropped; the ref's marking as `type: 'any'` is modelled.
- The `ServiceGenerator` constructor takes three arguments (lib/ServiceGenerator.ts:41-45), but lib/index.ts:86 passes two: the document lands in `apiData` and `openAPIData` is undefined. As written, `genFile` then throws a TypeError on `this.openAPIData.components` for `ts` output; `ServiceGenLaws.GenFileWithoutDocument` states this. `ServiceGen.GenFile` models the intended wiring: it takes the document root, its config fields and the API data as separate parameters.
- lib/util/const.ts is not part of this model.
  - Its `renameTypePrefix` is the parameter `renamePrefix`; the properties that need it to be a valid type name require that.
  - Its `testTypeNameValid` is taken to be the `^[A-Za-z0-9_]*$` test of lib/util/fixRefSwagger.ts:1.
- Object identity and aliasing are not modelled, because values replace the objects the source edits in place.
  - The ref-rewriting passes collect the ref nodes into a list, edit them by index and write them back where they were.
  - `findRef` does not descend into a ref node, so collected nodes never nest, and a definition move relinks a whole subtree. The cases where the source's in-place edits still differ from this are the next three lines.
- FixRef.FixRefName: a `definitions` object that is itself a ref node (it carries a truthy `$ref` string) is not modelled the way the source aliases it. The source edits that one object both as a collected ref and as the container whose keys it renames (lib/util/fixSwagger.ts:17-47, lib/util/fixRefSwagger.ts:10-37). Its `$ref` key is moved like any invalid key, and the retarget or the `type: 'any'` marking of the object as a ref lands on the live object. The model applies those edits to the written-back copy, which the rebuild of `definitions` then replaces. For `{definitions: {"$ref": "#/definitions/a b", "a b": S}}` the source leaves `{_ref: "#/definitions/a b", a_b: S, $ref: "#/definitions/a_b"}`, while the model leaves the retargeted string under `_ref` and no `$ref` key.
- GenSdk.ResolvePaths: `resolveRef(data, data.paths)` resolves the children of `paths` in place inside `data` (lib/util/parse.ts:47-51). A later `#/paths/…` ref therefore walks the live root and sees children resolved before it, and the shallow copies `{...obj}` share children that are resolved later. The model resolves every child against the document as it was before the call. For `{paths: {a: {get: {$ref: "#/definitions/D"}}, b: {$ref: "#/paths/a"}}, definitions: {D: {type: "object"}}}` the source leaves `paths.b` as `{get: {type: "object"}}`, and the model leaves `{get: {$ref: "#/definitions/D"}}`. `GenSdkLaws.ResolvePathsOriginalRoot` states the model's side of this. The two agree on a tree that shares no object and has no ref under `paths` that points into `paths`.
- GenSdk.GenApiSdkFromUrl: both of its resolve steps are `GenSdk.ResolvePaths` and carry the gap of the previous line, so the routes it builds can differ from the source's when a ref under `paths` points into `paths`.
- Objects are assumed to have distinct keys, as JavaScript objects do. Properties about lookups require `DistinctKeys` where they depend on it.
- Inherited and prototype properties are not modelled. A property read sees only an object's own entries, the elements and `length` of arrays and strings, and a string's characters at its indices.
  - Class fields without an initializer (`sdkDir`, `templatePath`, `api`, …) are not own properties of `new CliConfig` or `new GenConfig`, so the defaults hold only the initialised fields.
- Objects keep insertion order. JavaScript enumerates integer-like keys first; that is not modelled.
- Numbers are integers. Floating-point values in documents are not modelled.
- `toLowerCase` and `toUpperCase` map ASCII letters only.
- Strings are sequences of Unicode scalar values (Dafny's `char`); JavaScript strings are sequences of UTF-16 code units. The two agree on strings inside the Basic Multilingual Plane. A character outside it is one `char` here and two code units in JavaScript. So `fileName[0]` and `typeName[0]` (lib/ServiceGenerator.ts:274, lib/gen.ts:124) take the whole character here and only its first code unit there; the next two lines give the other places this shows.
- JsonModel.GetString: `length`, index reads and `Object.keys` of a string count characters, not UTF-16 code units, so for `"😀"` the model gives length 1 and one key where JavaScript gives 2 and two.
- Text.SanitizeTypeName: `/[^a-zA-Z0-9_]/g` (lib/util/fixSwagger.ts:36) has no `u` flag and replaces each UTF-16 code unit, so `"a😀"` becomes `a__` in the source and `a_` in the model.
- `String(v)` and template-literal conversion (`JsonModel.ToStr`) follow JavaScript for every value a document holds here: numbers (integers), booleans, plain objects as `[object Object]`, and arrays as their comma-joined elements. This covers enum values, `properties[p.name]`, `metadata[className]`, the operationId counter keys and the description join.
- `TypeMap` covers only the behaviour of the mappers' code. test/getType.ts asserts several things that code does not do: double-quoted enums, `format: 'int32'`, `type: 'enum'` giving `string`, `oneOf`, and inline object types. These are not stated as properties.
- `functionNameRD` and per-class function-name dedup (test/functionNameRD.ts) are not in the modelled source, so they are not modelled.
- The fixture-based test test/fixOAS.ts is not part of this model, since its fixture is not available. Its second-`queryXXX` case is covered by `FixOpenApiLaws.NextIdCounts`, which states the suffix numbering for any repeat.
- FixRefLaws.MovedDefinition: holds only for a key whose new name no other rename took. When two renames choose one name, the later move wins, and the earlier key's schema is lost. `FixRefLaws.LegacyRenamesCollide` shows this for the older rule's `A«B»` and `A_B»`. A new name equal to an existing valid key likewise replaces that key's definition.
- ServiceRefs.ResolveRefObject: `resolveRefObject` recurses without a bound, and a cycle of refs exhausts the JavaScript call stack. The model bounds the nesting with `depth` and gives `Err(RangeError)` when it runs out, which stands for that stack exhaustion. `ServiceRefs.ResolveRefObjectDeeper` shows a larger bound never changes a result that resolved.
- ServiceParams.TemplateParams: inherits the `depth` bound of `resolveRefObject` for each parameter, as do `BodyParam`, `ResponseParam` and `ServiceGen.InterfaceDef`.
- lib/type.ts and lib/util/error.ts have no behaviour. Route records are the `Gen.Route` and `Gen.Param` datatypes, and `CommonError` messages are the constructors of `JsonModel.Error`, without the message prefix.
