# swaggogen, modelled in Dafny

swaggogen reads Go source files and builds a Swagger 2.0 document from
annotation comments. It has five stages:

1. It collects the comment groups that mention `OpenAPI` (`walker_comments.go`).
2. It keeps the blocks that carry a given keyword.
3. It splits a block into sections: an `OpenAPI <title>:` header line opens a
   section and the lines up to the next header form its body (`section.go`).
4. It reads intermediate records out of a block:
   - the API header (`intermediate_api.go`);
   - operations: summary, path, method, accepted types, parameters and
     responses (`intermediate_operation.go`);
   - tags (`intermediate_tag.go`).
5. It turns those records into Swagger objects (`swaggerization.go`).

Beside the pipeline sit:
- a store of type definitions (`definitions.go`);
- an enum collector over constant groups (`walker_enums.go`);
- a small error type that records a stack of call frames
  (`vendor/github.com/jackmanlabs/errors/errors.go`).

The project has one module per source file.

**Support modules:**
- `Wrappers`: Option and Result.
- `Strings`: the Go `strings` and `bufio.ScanLines` behaviour these files rely on.
- `Patterns`: character-class matchers standing in for the regular expressions.

**How the modules are written:**
- Folding loops (scanning lines, filtering blocks, building maps) are methods
  with loop invariants. Each is proved equal to a recursive specification
  function, and the properties are lemmas about that function.
- Objects whose fields the source updates in place are classes:
  - the definition store;
  - the comment visitor;
  - the enum visitor;
  - the stacked error.
- Go map iteration order is unspecified. It is modelled as an arbitrary choice
  of the next key, and results that depend on it are stated as sets or
  multisets.
- The helpers these files call but do not define are parameters: the
  slice/primitive checks, the schema builders, the Swagger name of a
  definition, and the definition locator.

## Model

| member | source | states |
|---|---|---|
| Comments.Detected | walker_comments.go:105-118 | the kept blocks are at most the input and each contains the keyword, ignoring case |
| Comments.DetectComments | walker_comments.go:105-118 | the loop's result is exactly the filtered sequence `Detected` |
| Comments.DetectedAppend | walker_comments.go:105-118 | filtering a concatenation is filtering each part and concatenating |
| Comments.DetectedSingle | walker_comments.go:105-118 | one block is kept unchanged exactly when it matches |
| Comments.DetectedMembers | walker_comments.go:105-118 | a block is kept iff it is in the input and matches the keyword |
| Comments.DetectedIdempotent | walker_comments.go:105-118 | filtering twice with one keyword equals filtering once |
| Comments.DetectedIgnoresKeywordCase | walker_comments.go:108-111 | lowercasing the keyword first changes nothing |
| Comments.DetectOperationComments | walker_comments.go:87-89 | the blocks containing "OpenAPI Path:", ignoring case |
| Comments.DetectApiCommentBlocks | walker_comments.go:93-95 | the blocks containing "OpenAPI API Title:", ignoring case |
| Comments.DetectTagComments | walker_comments.go:99-101 | the blocks containing "OpenAPI Tags:", ignoring case |
| Comments.OpenApiGroups | walker_comments.go:67-73 | every kept comment group contains "OpenAPI", case kept |
| Comments.OpenApiGroupsMembers | walker_comments.go:67-73 | a group is kept iff it is one of the file's groups and contains "OpenAPI" |
| Comments.CommentVisitor.constructor | walker_comments.go:60-75 | a new visitor has no comments |
| Comments.CommentVisitor.Visit | walker_comments.go:46-83 | without a file set nothing changes and the walk stops; a file appends its OpenAPI groups and is not descended; other nodes are descended |
| Sections.NonBlank | section.go:28-40 | the body lines are non-empty and trimmed, no more than the input lines |
| Sections.NonBlankAppend | section.go:28-40 | the non-blank lines of a concatenation are those of each part |
| Sections.NonBlankMembers | section.go:28-40 | a line is reported iff it is non-empty and is the trim of some input line |
| Sections.NonBlankIdempotent | section.go:28-40 | selecting the non-blank lines twice equals doing it once |
| Sections.Section.Line | section.go:19-26 | `(line i, true)` exactly when i indexes a non-blank body line, otherwise `("", false)` |
| Sections.Section.Lines | section.go:28-40 | the loop returns the trimmed non-empty body lines in order |
| Sections.BodyLinesOfTerminated | section.go:28-40 | for lines without newlines, the body lines of their newline-terminated text are their non-blank trims |
| Sections.StripLines | section.go:126-141 | one output line per input line; blank lines become empty, others lose the prefix |
| Sections.TrimPrefixMultiline | section.go:122-144 | the result is `PrefixTrimmed`: each line loses the prefix when every non-blank line has it, else the input comes back unchanged |
| Sections.PrefixTrimmedShrinks | section.go:122-144 | for a non-empty prefix the result is never longer than the input |
| Sections.CleanupSection | section.go:99-120 | the title is kept and the body is `CleanedBody`, the fixed point of space-then-tab stripping |
| Sections.ParsedBodyNotIndented | section.go:99-144 | a body built by the parser from trimmed lines is left unchanged by space or tab stripping |
| Sections.CleanupKeepsParsedBody | section.go:99-120 | cleaning a parser-built body with the corrected helper is the identity |
| Sections.ParsedBodyNotIndentedAsWritten | section.go:122-144 | the as-written helper also leaves a parser-built body unchanged, for a space or a tab |
| Sections.CleanupAsWrittenKeepsParsedBody | section.go:99-144 | the as-written cleanup loop stops after one round on a parser-built body and returns it unchanged, the same result as the corrected loop |
| Sections.StripExample | section.go:122-144 | " a\n b" without " " is "a\nb\n" |
| Sections.KeepExample | section.go:134-137 | when one line lacks the prefix, the input comes back unchanged |
| Sections.AsWrittenRepeatsInput | section.go:140 | the code as written turns " a\n b" into "a\n b\na\n b\n", while the corrected helper gives "a\nb\n" |
| Sections.AsWrittenSpaceRound | section.go:108-111 | one as-written space round doubles a padded single-line body |
| Sections.AsWrittenTabRound | section.go:113-116 | the tab round leaves a space-padded body unchanged |
| Sections.AsWrittenCleanupDiverges | section.go:105-116 | with the as-written helper, the cleanup loop never stops on `Padded(m, j)`, whatever the number of rounds |
| Sections.HeaderTitle | section.go:70-83 | a header ends with ':' and its title is the line without that colon |
| Sections.Headers | section.go:70 | there are no more header lines than lines |
| Sections.HeadersAreHeaders | section.go:70 | every line picked as a header is one of the lines and passes the header test |
| Sections.TrimmedLines | section.go:63-66 | one trimmed, newline-free line per scanned line |
| Sections.ParseSections | section.go:55-97 | the loop returns `SectionsOf` the trimmed scanned lines |
| Sections.SectionTitles | section.go:70-94 | one section per header, titled by that header |
| Sections.PreambleDiscarded | section.go:70-88 | lines before the first header contribute nothing |
| Sections.BodyAfterHeader | section.go:70-88 | after a header, the open section's body is its following lines, each ended by a newline |
| Sections.AppendSection | section.go:70-94 | a trailing header and body add exactly one section, with that title and body |
| Sections.ParsedSectionLines | section.go:70-94 | the last section's body lines are the non-blank lines after its header |
| Sections.ParseExample | section.go:55-97 | "intro", "OpenAPI Path:", "/pets" give one section "OpenAPI Path" with body "/pets\n" |
| Patterns.MatchSubApi | intermediate_api.go:34 | a match has two captures |
| Patterns.MatchParam | intermediate_operation.go:152 | a match has five captures |
| Patterns.MatchResponse | intermediate_operation.go:153 | a match has five captures, the first "Success" or "Failure" |
| Patterns.MatchRouter | intermediate_operation.go:154 | a match has two captures |
| Patterns.MatchQueryParam | intermediate_operation.go:276 | a match has four captures |
| Patterns.LastIndex | intermediate_operation.go:152-153 | the last position of the character, or -1 when it is absent |
| Patterns.FirstMatch | intermediate_api.go:48-66 | the leftmost position where the pattern matches, or none when it matches nowhere |
| Patterns.Find | intermediate_api.go:48-66 | `FindStringSubmatch`: none iff no position matches; otherwise captures of the pattern's arity |
| Patterns.LineEnd | intermediate_operation.go:150-155 | the first newline at or after a position, or the end: `.` matches any character but a newline |
| Patterns.RestAfterSpaces | intermediate_api.go:32-33 | a `\s+(.+)` capture is non-empty and never holds a newline |
| Patterns.Quoted | intermediate_operation.go:152-153 | a `"(.+)"` capture is non-empty and never holds a newline |
| Patterns.KeywordTextCaptures | intermediate_api.go:32-33 | keyword, spaces, newline-free text: the single capture is the text |
| Patterns.KeywordTextStopsAtNewline | intermediate_api.go:32-33 | the capture of a keyword line ends at the first newline, whatever follows it |
| Patterns.KeywordTextBlankLine | intermediate_operation.go:155 | white space that runs through a newline to the end leaves `(.+)` nothing: `@Title \n` does not match |
| Patterns.RouterCaptures | intermediate_operation.go:154 | `@Router <path> [<verb>]` captures exactly path and verb |
| Patterns.QueryParamCaptures | intermediate_operation.go:276 | a `name type required description` line captures its four fields, for a newline-free description |
| Patterns.SubApiCaptures | intermediate_api.go:34 | `@SubApi <name> [<path>]` captures exactly name and path |
| Patterns.ParamCaptures | intermediate_operation.go:152 | `@Param name in type required "description"` captures its five fields, for a newline-free description |
| Patterns.ResponseCaptures | intermediate_operation.go:153 | `@Success code {meta} type "description"` (or `@Failure`) captures outcome, code, meta, type and description, for a newline-free description |
| Patterns.RunLengthMaximal | intermediate_operation.go:152-154 | a character-class run covers only class characters and stops at a character outside the class or at the end |
| Api.ClassifyApiLine | intermediate_api.go:48-66 | the switch order: description, title, version, base path, sub-API; a line is ignored iff no pattern matches |
| Api.ClassifiedDescription | intermediate_api.go:52-53 | a `@APIDescription` match sets the description to its capture |
| Api.ClassifiedTitle | intermediate_api.go:54-55 | failing that, a `@APITitle` match sets the title to its capture |
| Api.ClassifiedVersion | intermediate_api.go:56-57 | failing those, a `@APIVersion` match sets the version to its capture |
| Api.ClassifiedBasePath | intermediate_api.go:58-59 | failing those, a `@BasePath` match sets the base path to its capture |
| Api.ClassifiedSubApi | intermediate_api.go:61-67 | failing all of them, a `@SubApi` match adds the sub-API of its two captures |
| Api.WithField | intermediate_api.go:50-57 | setting one field leaves the other fields and the sub-APIs unchanged |
| Api.ApplyLine | intermediate_api.go:48-66 | the if-chain computes `ApplyApiLine` |
| Api.ApplyLines | intermediate_api.go:43-67 | the inner scanner loop folds `ApplyApiLine` over the lines |
| Api.IntermediateApi | intermediate_api.go:19-71 | the result is the fold from the empty API over every block's lines, block after block |
| Api.ApiOfLinesAppend | intermediate_api.go:41-68 | scanning resumes: folding a concatenation is folding the second part from the first's result |
| Api.FieldUntouched | intermediate_api.go:48-66 | a field that no line sets keeps its value |
| Api.LastMatchWins | intermediate_api.go:50-57 | a field holds the text of the last line that sets it |
| Api.SubApisAppend | intermediate_api.go:59-65 | sub-APIs accumulate in line order across concatenated inputs |
| Api.SubApiSingle | intermediate_api.go:59-65 | one line adds its sub-API if it is a sub-API line, otherwise nothing |
| Api.BlockLinesAppend | intermediate_api.go:41-47 | the lines of several blocks are each block's lines in turn |
| Operations.SectionFieldOf | intermediate_operation.go:118-145 | a title selects summary, path or method iff its trimmed lowercase form is "openapi summary", "openapi path" or "openapi method"; it never selects the description |
| Operations.SectionPassKeeps | intermediate_operation.go:118-145 | the section pass touches only summary, path and method |
| Operations.SectionLastWins | intermediate_operation.go:125-136 | a field takes the first body line of the last section that sets it |
| Operations.SectionUntouched | intermediate_operation.go:118-145 | a field no section sets keeps its value |
| Operations.NormalizeAccept | intermediate_operation.go:165-182 | none iff the item is blank; "json" and "xml" (after trimming and lowercasing) become application/json and application/xml; any other item is its trimmed lowercase form |
| Operations.NormalizeAcceptFixed | intermediate_operation.go:165-182 | normalizing a normalized item changes nothing |
| Operations.NormalizedItems | intermediate_operation.go:168-181 | each kept item is non-empty, trimmed and lowercase |
| Operations.NormalizedItemsAppend | intermediate_operation.go:168-181 | normalization distributes over concatenation |
| Operations.NormalizedItemsIdempotent | intermediate_operation.go:168-181 | normalizing twice equals normalizing once |
| Operations.NormalizeAcceptsIdempotent | intermediate_operation.go:165-182 | re-joining the normalized list with commas and normalizing again gives the same list |
| Operations.AcceptItemsExample | intermediate_operation.go:165-182 | "json", " XML", "", " text/plain" give application/json, application/xml, text/plain |
| Operations.AppendAccepts | intermediate_operation.go:165-182 | the loop appends exactly the normalized items of the raw list |
| Operations.ResponseGoType | intermediate_operation.go:211-213 | for meta "array" (any case) the type gains one "[]" unless it already has one; otherwise it is kept |
| Operations.ResponseGoTypeIdempotent | intermediate_operation.go:211-213 | applying the array rule twice equals applying it once |
| Operations.Atoi | intermediate_operation.go:207 | the status code lies in 0..2^63-1; a digit string gives its decimal value when that fits and 2^63-1 when it does not |
| Operations.AtoiRoundTrip | intermediate_operation.go:207 | converting a status code to text and back returns it |
| Operations.ResponseSuccess | intermediate_operation.go:236 | a response is a success iff its keyword is "Success" |
| Operations.ResponseOf | intermediate_operation.go:206-240 | the success flag reflects the lowercased keyword, the status code is `Atoi` of the code, the description is copied, the type is the array-adjusted type, a slice type iff the slice check says so |
| Operations.ParamOf | intermediate_operation.go:188-200 | the JSON name, location, type name and description are the captures; required iff the flag is "true" in any case |
| Operations.ParamFromLine | intermediate_operation.go:186-202 | a well-formed `@Param` line, description free of newlines, yields the parameter its five fields spell |
| Operations.ResponseFromLine | intermediate_operation.go:204-242 | a well-formed `@Success`/`@Failure` line, description free of newlines, yields a response with the line's outcome, status code, description and type |
| Operations.ClassifyOpLine | intermediate_operation.go:158-257 | the case order: accept, description, param, response, router, title; a line is other iff nothing matches |
| Operations.ResponseLineSuccess | intermediate_operation.go:204-242 | a response line's success flag reflects its first capture |
| Operations.ApplyOpLineField | intermediate_operation.go:158-257 | one line sets a scalar field exactly when its case carries that field |
| Operations.LinesUntouched | intermediate_operation.go:158-257 | a field that no line sets keeps the value it had before the scan |
| Operations.LinesLastWins | intermediate_operation.go:184-250 | a scalar field holds the value of the last line that sets it |
| Operations.LinesPassAppend | intermediate_operation.go:158-257 | scanning a concatenation scans the second part from the first's result |
| Operations.ApplyOpLineLists | intermediate_operation.go:165-242 | a line only appends to accepts, parameters and responses |
| Operations.ListsAppend | intermediate_operation.go:165-242 | accepts, parameters and responses accumulate in line order |
| Operations.ListsSingle | intermediate_operation.go:165-242 | one line's list additions are those of its case |
| Operations.ScanOperationLine | intermediate_operation.go:160-256 | the chain of matches computes `ApplyOpLine` |
| Operations.SectionPassMethod | intermediate_operation.go:118-145 | the section loop computes `SectionPass` from the empty operation |
| Operations.IntermediateOperation | intermediate_operation.go:55-260 | the result is the section pass followed by the line scan |
| Operations.QueryParamOf | intermediate_operation.go:303-308 | every parsed query parameter is located in "query" |
| Operations.QueryParamsOf | intermediate_operation.go:280-311 | at most one parameter per line, all in "query" |
| Operations.ParseQueryStringParams | intermediate_operation.go:262-314 | the loop over `Line(i)` yields the parameters of the section's body lines |
| Operations.QueryParamsAppend | intermediate_operation.go:280-311 | the parameters of concatenated lines are those of each part |
| Operations.QueryParamLineParsed | intermediate_operation.go:276-308 | a well-formed line, description free of newlines, gives exactly one parameter with its name, type, required flag and description |
| Tags.TagsOf | intermediate_tag.go:10-43 | no more tags than sections |
| Tags.IntermediateTags | intermediate_tag.go:10-43 | the loop yields one tag per "OpenAPI Tag" section, in order |
| Tags.TagName | intermediate_tag.go:24-31 | the name is the trimmed first line of the body |
| Tags.TagDescription | intermediate_tag.go:25-36 | the description is the rest after the first newline, or "" without one |
| Tags.TagsAppend | intermediate_tag.go:18-40 | tags of concatenated sections are the tags of each part |
| Tags.TagsSingle | intermediate_tag.go:19-38 | one section gives a tag iff its title is the tag title |
| Tags.ParsedTag | intermediate_tag.go:24-36 | for a parser-built body, the name is its first line and the description its remaining lines |
| Definitions.PossibleImportPaths | definitions.go:79-102 | an unqualified type gives the package path; a qualified one gives each import path once per entry under its alias (as a multiset) |
| Definitions.DefinitionStore.constructor | definitions.go:33-75 | a new store is empty |
| Definitions.DefinitionStore.ExistsDefinition | definitions.go:53 | found iff the key is stored, and then the stored definition |
| Definitions.DefinitionStore.Add | definitions.go:63 | the store gains exactly that definition under its key |
| Definitions.GetDefinition | definitions.go:33-75 | empty package is an error; nil or primitive gives nothing; a stored hit is reused; otherwise the locator's error, a nil result error, or a new definition added once |
| Enums.OpText | walker_enums.go:179-190 | each unary operator renders as a non-empty operator token |
| Enums.Operand | walker_enums.go:179-190 | stripping unary operators reaches a non-unary operand; a non-unary expression is its own operand |
| Enums.ResolveValueExpression | walker_enums.go:179-190 | a literal renders as written, an identifier as its name, any other expression as `Unknown<` its Go type name `>` |
| Enums.RenderUnaryChain | walker_enums.go:179-190 | an expression renders as its operator prefix followed by its operand |
| Enums.RendersAsIota | walker_enums.go:179-190 | an expression renders as "iota" iff it is the identifier or literal iota |
| Enums.NormalizeEnumTypeName | walker_enums.go:18-35 | the result is a suffix of the name: the part after the first dot once the leading "*" is gone |
| Enums.Step | walker_enums.go:96-141 | one value spec appends one value when accepted and none otherwise; earlier values are kept |
| Enums.RunAppends | walker_enums.go:96-141 | a group only appends, at most one value per spec |
| Enums.TypeKept | walker_enums.go:110-112 | specs without a type keep the inherited type |
| Enums.TypeInherited | walker_enums.go:110-112 | the current type is that of the last spec that names one |
| Enums.SkippedSpecIsInert | walker_enums.go:114-131 | an untyped spec that is not a single-name spec is skipped and changes nothing |
| Enums.ForeignSpecsInert | walker_enums.go:108-131 | specs that are not value specs, state another type, or have other than one name or more than one value leave the counter and the values unchanged |
| Enums.ExplicitValues | walker_enums.go:132-141 | explicit non-iota values append their renderings in order and keep the counter |
| Enums.IotaResets | walker_enums.go:125-141 | `X T = iota` resets the counter from any state: it appends 0 and the implicit specs after it append 1, 2, … |
| Enums.InheritedForeignInert | walker_enums.go:110-116 | under an inherited foreign type, specs that state no type leave the whole state unchanged |
| Enums.InheritedIotaResets | walker_enums.go:110-139 | an untyped single `= iota` under the enum's inherited type appends 0 and resets the counter to 0 |
| Enums.InheritedTypesExample | walker_enums.go:110-141 | in `X Other = 1; Y; A Color = iota; B = iota`, Y inherits the foreign type and is skipped, and A and B both give 0 |
| Enums.ForeignSpecBetween | walker_enums.go:110-141 | a spec of another type between two of the enum's adds nothing and keeps the count: 0, 1 |
| Enums.ImplicitSpecsCount | walker_enums.go:125-128 | implicit specs continue iota: values iot+1, iot+2, … |
| Enums.IotaGroup | walker_enums.go:125-139 | a typed `= iota` group followed by implicit specs yields 0, 1, 2, … |
| Enums.RunSplit | walker_enums.go:96-141 | processing specs in two parts equals processing them at once |
| Enums.Examples | walker_enums.go:96-141 | a Color iota group yields 0, 1; a Kind string constant yields its text |
| Enums.EnumVisitor.constructor | walker_enums.go:79-84 | a new visitor has no values |
| Enums.EnumVisitor.Visit | walker_enums.go:79-177 | without a file set nothing happens; a declaration appends its group's values; function and import nodes are not descended |
| Swagger.SwaggerizeApi | swaggerization.go:9-34 | the document declares Swagger "2.0" |
| Swagger.SwaggerizeApiKeepsFields | swaggerization.go:9-34 | version, title, description and base path are carried into the document unchanged |
| Swagger.ParameterObject | swaggerization.go:70-88 | name, location, required flag and description are copied; a schema exists iff the location is "body" |
| Swagger.ResponseObject | swaggerization.go:63-68 | the description is copied and the schema's title is cleared |
| Swagger.ParamIndex | swaggerization.go:87 | the first parameter with the same name and location, or the list length |
| Swagger.AddParam | swaggerization.go:87 | the new parameter replaces the first entry with its name and location, or is appended when there is none; nothing else changes |
| Swagger.AddParamUnique | swaggerization.go:87 | adding keeps at most one parameter per (name, location) |
| Swagger.ParamListUnique | swaggerization.go:70-88 | the operation's parameter list has unique slots and includes the last parameter |
| Swagger.RespondsWith | swaggerization.go:67 | status code 0 sets the default response, any other code sets its own entry; every other code selects what it did before |
| Swagger.ResponseMapCodes | swaggerization.go:63-68 | the keyed responses are exactly the nonzero status codes given |
| Swagger.ResponseMapDefault | swaggerization.go:63-68 | there is a default response iff some response has status code 0 |
| Swagger.ResponseMapLastWins | swaggerization.go:63-68 | a status code, 0 (the default) included, selects its last response |
| Swagger.OperationObject | swaggerization.go:53-61 | consumes and produces are both the accepts list; summary and description are copied |
| Swagger.MethodOf | swaggerization.go:90 | a method text selects a slot iff its lowercase form is one of the seven method names, and then the slot of that name |
| Swagger.MethodOfName | swaggerization.go:90-105 | each method's own name selects its slot |
| Swagger.WithSlot | swaggerization.go:90-105 | setting one method slot leaves the others unchanged |
| Swagger.PathsKeys | swaggerization.go:42-113 | the paths map's keys are exactly the operations' paths |
| Swagger.SlotLastWins | swaggerization.go:90-107 | a path's method slot holds the last operation for that path and method |
| Swagger.SlotEmpty | swaggerization.go:90-107 | a slot no operation fills stays empty |
| Swagger.UnknownMethod | swaggerization.go:90-107 | an unknown method only stores the path item back unchanged |
| Swagger.BuildParameters | swaggerization.go:70-88 | the loop computes `ParamList` |
| Swagger.BuildResponses | swaggerization.go:63-68 | the loop computes `ResponseMap` |
| Swagger.PlaceMethod | swaggerization.go:90-105 | the switch computes `PlaceOperation` |
| Swagger.SwaggerizeOperations | swaggerization.go:42-113 | the loop computes `PathsOf` the operations |
| Swagger.SwaggerizeDefinitions | swaggerization.go:115-125 | the keys are the Swagger names of the stored definitions; each entry is the schema of a definition with that name |
| Swagger.DefinitionsWithoutCollision | swaggerization.go:115-125 | when names are distinct, each definition's schema is found under its name |
| Swagger.SwaggerizeTags | swaggerization.go:127-143 | one tag per intermediate, with its name and description |
| Errors.FrameLines | vendor/github.com/jackmanlabs/errors/errors.go:43-50 | one rendered line per frame, in order |
| Errors.ErrorTextSnoc | vendor/github.com/jackmanlabs/errors/errors.go:43-50 | one more frame appends exactly its rendered line to the text |
| Errors.Error.constructor | vendor/github.com/jackmanlabs/errors/errors.go:52-62 | a new error has its root message and one frame |
| Errors.Error.Error | vendor/github.com/jackmanlabs/errors/errors.go:43-50 | the text is the root message followed by one line per frame |
| Errors.Stack | vendor/github.com/jackmanlabs/errors/errors.go:22-41 | nil stays nil; a stacked error gains the frame in place; a plain error is wrapped with its message and one frame |
| Errors.New | vendor/github.com/jackmanlabs/errors/errors.go:52-62 | a fresh error with the message and the caller's frame |
| Errors.ErrorTextLines | vendor/github.com/jackmanlabs/errors/errors.go:43-50 | splitting the text at newlines gives the root, the frame lines and a final empty piece |
| Strings.ScanLines | section.go:63-65 | `bufio.ScanLines`: lines have no newline; a final unterminated line counts; a trailing carriage return is dropped |
| Strings.ScanTerminated | section.go:86 | scanning newline-terminated plain lines gives them back |
| Strings.JoinSplit | intermediate_operation.go:168 | joining the split pieces gives the string back |
| Strings.SplitJoin | intermediate_operation.go:168 | splitting a join of comma-free parts gives the parts back |
| Strings.TrimSpace | section.go:66 | the result is trimmed and no longer; trimmed input is unchanged |
| Strings.TrimSpaceAt | section.go:66 | the result is the slice after the leading white space, and only white space follows it |
| Strings.TrimSpaceSlice | section.go:66 | the result is a slice of the input with only white space before and after it |
| Strings.TrimSpaceIdempotent | section.go:66 | trimming twice equals trimming once |
| Strings.ToLowerIdempotent | walker_comments.go:108-111 | lowercasing twice equals lowercasing once |

## Left out

- main.go, file-system walking, the Go parser and AST and package loading are not part of this model. The visitors receive abstract nodes.
- The logger (`jlog`) and `log` output are not modelled.
- Errors: `runtime.Caller` is replaced by a frame parameter, and `Newf` (formatted messages) is not modelled.
- Text is ASCII. Go's Unicode-aware `TrimSpace` and `ToLower` are modelled on ASCII only.
- The scanner's 64 KiB token limit is not modelled.
- The RE2 engine is replaced by token-level matchers for each pattern. `Find` keeps the leftmost-match rule.
- Patterns.Find: `.` matches any character except a newline, and `\s` includes it, as in RE2 without the `s` flag. The capture lemmas are stated for newline-free free text only, which covers every line the scanners pass (`ScanLines`, `Split` on "\n").
- deriveDefinitionsFromOperations (definitions.go:8-30) does not compile as written and is not modelled.
- Definitions.DefinitionStore.ExistsDefinition: the store's key function is not in the source shown. `StoreKey(package, name)` is an assumed stand-in.
- Definitions.GetDefinition: the errors it returns (`errors.New` at definitions.go:36 and :60, `errors.Stack` at :58) are modelled by their message only; the stack frames they carry are not.
- Definitions.GetDefinition: the source does not compile as written. The model returns its outcome instead of `nil`. It also leaves two things to the caller: the back-fill of the member's package path and name (definitions.go:66-67), and the `DefineDefinitions` trigger (definitions.go:69-72).
- `Section.String` and the debugging output of sections are not modelled.
- Swagger.OperationObject: the operation's tags are not modelled. swaggerization.go:59 reads a `Tags` field that `OperationIntermediate` does not have.
- `packagePath` and `tag` of an operation are never set by the scan. They stay empty.
- The enum visitor's declaration branch treats every value group alike. It does not tell `var` groups from `const` groups, just as the source does not.
- `parseQueryStringParams` is modelled though nothing in the core calls it.
- The slice check, the primitive check, schema building and Swagger naming are parameters. Their own code is not part of this model.
- Swagger.AddParam, Swagger.RespondsWith: these follow the documented behaviour of the go-openapi `spec` package (replace by name and location; status code 0 is the default response, a nil response is never passed). That library is not part of this model.
- Swagger.ResponseObject: the title is cleared on a value. Aliasing through the shared schema pointer is not modelled.
- Operations.Atoi: only digit strings are read. This is exact here, because the response pattern captures the code as `(\d+)` (intermediate_operation.go:153); signs and other text, which Go's `Atoi` would also handle, never reach it.
- Operations.SectionFieldOf: the six section titles the source matches without acting on them fall into the same "no field" outcome as unknown titles.
- Operations.ParseQueryStringParams: the description trim at intermediate_operation.go:297-301 has no effect in the source and is not modelled.
- The sanity checks of member intermediates are not modelled.

## Findings

| source | as written | input that shows it | evidently intended | confidence | as-written member | corrected member |
|---|---|---|---|---|---|---|
| section.go:140 | each non-blank line is replaced by the whole input without the prefix: `TrimPrefix(s, prefix)`; the parser trims its body lines first, so it shows only on indented input | " a\n b" becomes "a\n b\na\n b\n" | each line loses the prefix: " a\n b" becomes "a\nb\n" | high, not executed | Sections.AsWrittenRepeatsInput | Sections.TrimPrefixMultiline |
| section.go:105-116 | with the helper above, the cleanup loop can grow the body on every round and never stop; only bodies with indented lines reach it, and the parser's bodies have none, so the loop as written stops on them (Sections.CleanupAsWrittenKeepsParsedBody) | `Padded(m, j)`, for example "\n a\n" | the loop stops once a round removes nothing, with the body unindented | high, not executed | Sections.AsWrittenCleanupDiverges | Sections.CleanupSection |
